/**
 The re-embedding migration (src/rag_engine/cdc/reembed.py) over the chunk table it rewrites
 (src/rag_engine/store/surreal.py).
 */
module ReEmbed {
  import opened Schemas

  /** A stored chunk row. `key` is the clean key of its record id; `extras` is any other column. */
  datatype StoredRow = StoredRow(
    key: string,
    assetId: Option<string>,
    cls: Option<string>,
    level: Option<nat>,
    text: Option<string>,
    vec: Option<seq<real>>,
    version: Option<string>,
    extras: map<string, Value>)

  ghost predicate DistinctKeys(rows: seq<StoredRow>) {
    forall i, j :: 0 <= i < j < |rows| ==> rows[i].key != rows[j].key
  }

  function OnVersion(rows: seq<StoredRow>, version: string): (r: seq<StoredRow>)
    ensures |r| <= |rows|
    ensures forall i :: 0 <= i < |r| ==> r[i].version == Some(version)
  {
    if rows == [] then []
    else
      var last := rows[|rows| - 1];
      OnVersion(rows[..|rows| - 1], version) + if last.version == Some(version) then [last] else []
  }

  /** Where the row under a key stands, or the end of the table. */
  function Position(rows: seq<StoredRow>, key: string): (i: nat)
    ensures i <= |rows| && (i < |rows| ==> rows[i].key == key)
    ensures forall j :: 0 <= j < i ==> rows[j].key != key
  {
    if rows == [] || rows[0].key == key then 0 else 1 + Position(rows[1..], key)
  }

  /** The table after the content of the row under the same key is replaced, or a new row appended. */
  function Upserted(rows: seq<StoredRow>, row: StoredRow): (r: seq<StoredRow>)
    ensures DistinctKeys(rows) ==> DistinctKeys(r)
  {
    var i := Position(rows, row.key);
    if i < |rows| then rows[i := row] else rows + [row]
  }

  class ChunkTable {
    var rows: seq<StoredRow>

    constructor (rows: seq<StoredRow>)
      ensures this.rows == rows
    {
      this.rows := rows;
    }

    method ChunksByVersion(version: string) returns (r: seq<StoredRow>)
      ensures r == OnVersion(rows, version)
    {
      r := [];
      for i := 0 to |rows|
        invariant r == OnVersion(rows[..i], version)
      {
        assert rows[..i + 1][..i] == rows[..i];
        if rows[i].version == Some(version) {
          r := r + [rows[i]];
        }
      }
      assert rows[..|rows|] == rows;
    }

    method UpsertChunk(row: StoredRow)
      modifies this
      ensures rows == Upserted(old(rows), row)
    {
      var i := Position(rows, row.key);
      rows := if i < |rows| then rows[i := row] else rows + [row];
    }
  }

  /** The cache seam: which embedder versions it was told to forget, in order. */
  class VersionCache {
    var stale: seq<string>

    constructor ()
      ensures stale == []
    {
      stale := [];
    }

    method InvalidateVersion(version: string)
      modifies this
      ensures stale == old(stale) + [version]
    {
      stale := stale + [version];
    }
  }

  type Embedding = string -> seq<real>

  /** The rebuilt row: the preserved columns as they are, a new vector and version, nothing else. */
  function Rebuilt(row: StoredRow, embed: Embedding, newVersion: string): StoredRow {
    var text := if row.text.Some? then row.text.value else "";
    row.(vec := Some(embed(text)), version := Some(newVersion), extras := map[])
  }

  function MigratedRow(row: StoredRow, embed: Embedding, oldVersion: string, newVersion: string): StoredRow {
    if row.version == Some(oldVersion) then Rebuilt(row, embed, newVersion) else row
  }

  /** The table a migration aims for. */
  function Migrated(rows: seq<StoredRow>, embed: Embedding, oldVersion: string, newVersion: string): (r: seq<StoredRow>)
    ensures |r| == |rows|
    ensures forall i :: 0 <= i < |rows| ==> r[i] == MigratedRow(rows[i], embed, oldVersion, newVersion)
  {
    seq(|rows|, i requires 0 <= i < |rows| => MigratedRow(rows[i], embed, oldVersion, newVersion))
  }

  /** A table a crashed run may leave: some of the old rows rebuilt, the rest as they were. */
  ghost predicate PartlyMigrated(rows: seq<StoredRow>, now: seq<StoredRow>, embed: Embedding, oldVersion: string, newVersion: string) {
    |now| == |rows| && forall i :: 0 <= i < |rows| ==>
      now[i] == rows[i] || now[i] == MigratedRow(rows[i], embed, oldVersion, newVersion)
  }

  /** The table with the first n rows on the old version rebuilt. */
  function MigratedFirst(rows: seq<StoredRow>, n: nat, embed: Embedding, oldVersion: string, newVersion: string): seq<StoredRow> {
    if rows == [] || n == 0 then rows
    else if rows[0].version == Some(oldVersion) then
      [Rebuilt(rows[0], embed, newVersion)] + MigratedFirst(rows[1..], n - 1, embed, oldVersion, newVersion)
    else [rows[0]] + MigratedFirst(rows[1..], n, embed, oldVersion, newVersion)
  }

  /** When the batch loop comes to an end: the rows fit one batch, or every batch makes progress. */
  predicate Ends(rows: seq<StoredRow>, oldVersion: string, newVersion: string, batchSize: nat) {
    |OnVersion(rows, oldVersion)| <= batchSize || (newVersion != oldVersion && batchSize >= 1)
  }

  class ReEmbedder {
    const store: ChunkTable
    const embed: Embedding
    const newVersion: string
    const cache: VersionCache?
    const batchSize: nat

    constructor (store: ChunkTable, embed: Embedding, newVersion: string, cache: VersionCache?, batchSize: nat)
      ensures this.store == store && this.embed == embed && this.newVersion == newVersion
      ensures this.cache == cache && this.batchSize == batchSize
    {
      this.store, this.embed, this.newVersion, this.cache, this.batchSize := store, embed, newVersion, cache, batchSize;
    }

    method ReembedRow(row: StoredRow)
      modifies store
      ensures store.rows == Upserted(old(store.rows), Rebuilt(row, embed, newVersion))
    {
      var text := if row.text.Some? then row.text.value else "";
      var vec := embed(text);
      store.UpsertChunk(StoredRow(row.key, row.assetId, row.cls, row.level, row.text, Some(vec), Some(newVersion), map[]));
    }

    /** One batch: the first rows on the old version are rebuilt in place, one after another. */
    method ReembedBatch(batch: seq<StoredRow>, oldVersion: string)
      requires DistinctKeys(store.rows) && batch <= OnVersion(store.rows, oldVersion)
      modifies store
      ensures store.rows == MigratedFirst(old(store.rows), |batch|, embed, oldVersion, newVersion)
    {
      hide DistinctKeys, OnVersion, Rebuilt, Upserted, MigratedFirst;
      ghost var rows := store.rows;
      FirstNone(rows, embed, oldVersion, newVersion);
      for i := 0 to |batch|
        invariant store.rows == MigratedFirst(rows, i, embed, oldVersion, newVersion)
      {
        assert batch[i] == OnVersion(rows, oldVersion)[i];
        RebuildNext(rows, i, embed, oldVersion, newVersion);
        ReembedRow(batch[i]);
      }
    }

    method ReembedAll(oldVersion: string) returns (migrated: nat)
      requires DistinctKeys(store.rows) && Ends(store.rows, oldVersion, newVersion, batchSize)
      modifies store, cache
      ensures store.rows == Migrated(old(store.rows), embed, oldVersion, newVersion)
      ensures migrated == |OnVersion(old(store.rows), oldVersion)|
      ensures cache != null ==>
        cache.stale == old(cache.stale) + if migrated > 0 then [oldVersion] else []
    {
      hide DistinctKeys, OnVersion, Migrated, MigratedFirst, MigratedRow;
      migrated := 0;
      while true
        invariant DistinctKeys(store.rows) && Ends(store.rows, oldVersion, newVersion, batchSize)
        invariant PartlyMigrated(old(store.rows), store.rows, embed, oldVersion, newVersion)
        invariant migrated + |OnVersion(store.rows, oldVersion)| == |OnVersion(old(store.rows), oldVersion)|
        invariant cache != null ==> cache.stale == old(cache.stale)
        decreases |OnVersion(store.rows, oldVersion)|
      {
        ghost var before := store.rows;
        ResumeReachesTheSameTable(old(store.rows), before, embed, oldVersion, newVersion);
        var rows := store.ChunksByVersion(oldVersion);
        if rows == [] {
          DoneIsMigrated(before, embed, oldVersion, newVersion);
          break;
        }
        var batch := if batchSize <= |rows| then rows[..batchSize] else rows;
        ReembedBatch(batch, oldVersion);
        BatchLeaves(before, |batch|, embed, oldVersion, newVersion);
        PartlyTwice(old(store.rows), before, store.rows, embed, oldVersion, newVersion);
        migrated := migrated + |batch|;
        if |rows| <= batchSize {
          break;
        }
      }
      if cache != null && migrated > 0 {
        cache.InvalidateVersion(oldVersion);
      }
    }
  }

  // ---- why the loop is right -----------------------------------------------------

  lemma {:induction false} OnVersionCons(row: StoredRow, rest: seq<StoredRow>, version: string)
    ensures OnVersion([row] + rest, version) ==
            (if row.version == Some(version) then [row] else []) + OnVersion(rest, version)
  {
    var rows := [row] + rest;
    if rest == [] {
      assert rows == [row] && rows[..0] == [];
    } else {
      var init, last := rest[..|rest| - 1], rest[|rest| - 1];
      assert rows[..|rows| - 1] == [row] + init;
      OnVersionCons(row, init, version);
    }
  }

  lemma OnVersionHead(rows: seq<StoredRow>, version: string)
    requires rows != []
    ensures OnVersion(rows, version) ==
            (if rows[0].version == Some(version) then [rows[0]] else []) + OnVersion(rows[1..], version)
  {
    hide OnVersion;
    assert rows == [rows[0]] + rows[1..];
    OnVersionCons(rows[0], rows[1..], version);
  }

  lemma {:induction false} OnVersionAt(rows: seq<StoredRow>, version: string, n: nat) returns (i: nat)
    requires n < |OnVersion(rows, version)|
    ensures i < |rows| && rows[i] == OnVersion(rows, version)[n]
  {
    var init := rows[..|rows| - 1];
    if n < |OnVersion(init, version)| {
      i := OnVersionAt(init, version, n);
    } else {
      i := |rows| - 1;
    }
  }

  lemma FirstNone(rows: seq<StoredRow>, embed: Embedding, oldVersion: string, newVersion: string)
    ensures MigratedFirst(rows, 0, embed, oldVersion, newVersion) == rows
    ensures forall n: nat :: MigratedFirst([], n, embed, oldVersion, newVersion) == []
  {
  }

  lemma FirstHead(rows: seq<StoredRow>, n: nat, embed: Embedding, oldVersion: string, newVersion: string)
    requires rows != [] && n > 0
    ensures MigratedFirst(rows, n, embed, oldVersion, newVersion) ==
      if rows[0].version == Some(oldVersion)
      then [Rebuilt(rows[0], embed, newVersion)] + MigratedFirst(rows[1..], n - 1, embed, oldVersion, newVersion)
      else [rows[0]] + MigratedFirst(rows[1..], n, embed, oldVersion, newVersion)
  {
  }

  /** An upsert under another key passes a row by. */
  lemma UpsertCons(first: StoredRow, rest: seq<StoredRow>, row: StoredRow)
    requires first.key != row.key
    ensures Upserted([first] + rest, row) == [first] + Upserted(rest, row)
  {
    var rows := [first] + rest;
    assert rows[1..] == rest;
    assert Position(rows, row.key) == 1 + Position(rest, row.key);
  }

  /** Rebuilding the next row on the old version. */
  lemma {:induction false} RebuildNext(rows: seq<StoredRow>, n: nat, embed: Embedding, oldVersion: string, newVersion: string)
    requires DistinctKeys(rows) && n < |OnVersion(rows, oldVersion)|
    ensures Upserted(MigratedFirst(rows, n, embed, oldVersion, newVersion), Rebuilt(OnVersion(rows, oldVersion)[n], embed, newVersion))
         == MigratedFirst(rows, n + 1, embed, oldVersion, newVersion)
  {
    NoneOnVersion(oldVersion);
    hide OnVersion, Upserted, Position, MigratedFirst;
    var first, rest := rows[0], rows[1..];
    OnVersionHead(rows, oldVersion);
    FirstHead(rows, n + 1, embed, oldVersion, newVersion);
    FirstNone(rows, embed, oldVersion, newVersion);
    FirstNone(rest, embed, oldVersion, newVersion);
    RestDistinct(rows);
    assert rows == [first] + rest;
    var fits := first.version == Some(oldVersion);
    if fits && n == 0 {
      UpsertHead(first, rest, Rebuilt(first, embed, newVersion));
    } else {
      var m := if fits then n - 1 else n;
      var i := OnVersionAt(rest, oldVersion, m);
      KeyApart(rows, i + 1);
      RebuildNext(rest, m, embed, oldVersion, newVersion);
      var head := if fits then Rebuilt(first, embed, newVersion) else first;
      if n > 0 {
        FirstHead(rows, n, embed, oldVersion, newVersion);
      }
      UpsertCons(head, MigratedFirst(rest, m, embed, oldVersion, newVersion), Rebuilt(rest[i], embed, newVersion));
    }
  }

  lemma NoneOnVersion(version: string)
    ensures OnVersion([], version) == []
  {
  }

  lemma RestDistinct(rows: seq<StoredRow>)
    requires DistinctKeys(rows) && rows != []
    ensures DistinctKeys(rows[1..])
  {
  }

  lemma KeyApart(rows: seq<StoredRow>, i: nat)
    requires DistinctKeys(rows) && 1 <= i < |rows|
    ensures rows[0].key != rows[i].key
  {
  }

  lemma UpsertHead(first: StoredRow, rest: seq<StoredRow>, row: StoredRow)
    requires first.key == row.key
    ensures Upserted([first] + rest, row) == [row] + rest
  {
    assert Position([first] + rest, row.key) == 0;
  }

  /** What a batch leaves on the old version: the rest of it, or as much as before when the versions are the same. */
  lemma {:induction false} FirstLeaves(rows: seq<StoredRow>, n: nat, embed: Embedding, oldVersion: string, newVersion: string)
    requires n <= |OnVersion(rows, oldVersion)|
    ensures var left := OnVersion(MigratedFirst(rows, n, embed, oldVersion, newVersion), oldVersion);
      if newVersion != oldVersion then left == OnVersion(rows, oldVersion)[n..] else |left| == |OnVersion(rows, oldVersion)|
  {
    NoneOnVersion(oldVersion);
    hide OnVersion, MigratedFirst;
    FirstNone(rows, embed, oldVersion, newVersion);
    if n > 0 {
      var first, rest := rows[0], rows[1..];
      OnVersionHead(rows, oldVersion);
      FirstHead(rows, n, embed, oldVersion, newVersion);
      var later := OnVersion(rest, oldVersion);
      if first.version == Some(oldVersion) {
        FirstLeaves(rest, n - 1, embed, oldVersion, newVersion);
        OnVersionCons(Rebuilt(first, embed, newVersion), MigratedFirst(rest, n - 1, embed, oldVersion, newVersion), oldVersion);
        assert ([first] + later)[n..] == later[n - 1..];
      } else {
        FirstLeaves(rest, n, embed, oldVersion, newVersion);
        OnVersionCons(first, MigratedFirst(rest, n, embed, oldVersion, newVersion), oldVersion);
        assert [] + later == later;
      }
    }
  }

  lemma MigratedHead(rows: seq<StoredRow>, embed: Embedding, oldVersion: string, newVersion: string)
    requires rows != []
    ensures Migrated(rows, embed, oldVersion, newVersion) ==
            [MigratedRow(rows[0], embed, oldVersion, newVersion)] + Migrated(rows[1..], embed, oldVersion, newVersion)
  {
  }

  lemma {:induction false} FirstIsAll(rows: seq<StoredRow>, embed: Embedding, oldVersion: string, newVersion: string)
    ensures MigratedFirst(rows, |OnVersion(rows, oldVersion)|, embed, oldVersion, newVersion) == Migrated(rows, embed, oldVersion, newVersion)
  {
    NoneOnVersion(oldVersion);
    hide OnVersion, MigratedFirst, Migrated;
    FirstNone(rows, embed, oldVersion, newVersion);
    if rows == [] {
    } else {
      var n := |OnVersion(rows, oldVersion)|;
      OnVersionHead(rows, oldVersion);
      FirstIsAll(rows[1..], embed, oldVersion, newVersion);
      MigratedHead(rows, embed, oldVersion, newVersion);
      if n == 0 {
        FirstNone(rows[1..], embed, oldVersion, newVersion);
        assert rows == [rows[0]] + rows[1..];
      } else {
        FirstHead(rows, n, embed, oldVersion, newVersion);
      }
    }
  }

  lemma {:induction false} FirstIsPartly(rows: seq<StoredRow>, n: nat, embed: Embedding, oldVersion: string, newVersion: string)
    ensures PartlyMigrated(rows, MigratedFirst(rows, n, embed, oldVersion, newVersion), embed, oldVersion, newVersion)
  {
    hide MigratedFirst;
    FirstNone(rows, embed, oldVersion, newVersion);
    if rows != [] && n > 0 {
      FirstHead(rows, n, embed, oldVersion, newVersion);
      FirstIsPartly(rows[1..], n, embed, oldVersion, newVersion);
      FirstIsPartly(rows[1..], n - 1, embed, oldVersion, newVersion);
    }
  }

  lemma BatchLeaves(rows: seq<StoredRow>, n: nat, embed: Embedding, oldVersion: string, newVersion: string)
    requires DistinctKeys(rows) && n <= |OnVersion(rows, oldVersion)|
    ensures var now := MigratedFirst(rows, n, embed, oldVersion, newVersion);
      && DistinctKeys(now) && PartlyMigrated(rows, now, embed, oldVersion, newVersion)
      && (newVersion != oldVersion ==> |OnVersion(now, oldVersion)| == |OnVersion(rows, oldVersion)| - n)
      && (n == |OnVersion(rows, oldVersion)| ==> now == Migrated(rows, embed, oldVersion, newVersion))
  {
    hide OnVersion, MigratedFirst;
    FirstIsPartly(rows, n, embed, oldVersion, newVersion);
    FirstLeaves(rows, n, embed, oldVersion, newVersion);
    FirstIsAll(rows, embed, oldVersion, newVersion);
  }

  lemma PartlyTwice(a: seq<StoredRow>, b: seq<StoredRow>, c: seq<StoredRow>, embed: Embedding, oldVersion: string, newVersion: string)
    requires PartlyMigrated(a, b, embed, oldVersion, newVersion) && PartlyMigrated(b, c, embed, oldVersion, newVersion)
    ensures PartlyMigrated(a, c, embed, oldVersion, newVersion)
  {
  }

  lemma DoneIsMigrated(rows: seq<StoredRow>, embed: Embedding, oldVersion: string, newVersion: string)
    requires OnVersion(rows, oldVersion) == []
    ensures Migrated(rows, embed, oldVersion, newVersion) == rows
  {
    hide OnVersion, MigratedFirst;
    FirstIsAll(rows, embed, oldVersion, newVersion);
    FirstNone(rows, embed, oldVersion, newVersion);
  }

  /** Otherwise it does not end: a pass leaves as many rows as it found, and still more than a batch. */
  lemma StuckOtherwise(rows: seq<StoredRow>, embed: Embedding, oldVersion: string, newVersion: string, batchSize: nat)
    requires !Ends(rows, oldVersion, newVersion, batchSize)
    ensures var after := MigratedFirst(rows, batchSize, embed, oldVersion, newVersion);
      && |OnVersion(rows, oldVersion)| > batchSize
      && |OnVersion(after, oldVersion)| == |OnVersion(rows, oldVersion)| && !Ends(after, oldVersion, newVersion, batchSize)
  {
    hide OnVersion, MigratedFirst;
    FirstLeaves(rows, batchSize, embed, oldVersion, newVersion);
    FirstNone(rows, embed, oldVersion, newVersion);
  }

  // ---- what the migrated table is -------------------------------------------------

  /** No row is left behind, every row keeps what governs and identifies it, and other rows are untouched. */
  lemma MigratedFacts(rows: seq<StoredRow>, embed: Embedding, oldVersion: string, newVersion: string)
    ensures var after := Migrated(rows, embed, oldVersion, newVersion);
      && (newVersion != oldVersion ==> OnVersion(after, oldVersion) == [])
      && forall i :: 0 <= i < |rows| ==>
        && after[i].key == rows[i].key && after[i].cls == rows[i].cls && after[i].level == rows[i].level
        && after[i].assetId == rows[i].assetId && after[i].text == rows[i].text
        && (if rows[i].version == Some(oldVersion)
            then after[i].version == Some(newVersion)
              && after[i].vec == Some(embed(if rows[i].text.Some? then rows[i].text.value else ""))
              && after[i].extras == map[]
            else after[i] == rows[i])
  {
    hide OnVersion, MigratedFirst;
    FirstIsAll(rows, embed, oldVersion, newVersion);
    FirstLeaves(rows, |OnVersion(rows, oldVersion)|, embed, oldVersion, newVersion);
  }

  /** Wherever a run stopped, running again ends at the table an undisturbed run would have reached. */
  lemma ResumeReachesTheSameTable(rows: seq<StoredRow>, now: seq<StoredRow>, embed: Embedding, oldVersion: string, newVersion: string)
    requires PartlyMigrated(rows, now, embed, oldVersion, newVersion)
    ensures Migrated(now, embed, oldVersion, newVersion) == Migrated(rows, embed, oldVersion, newVersion)
  {
  }
}
