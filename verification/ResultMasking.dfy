/**
 Masking of warehouse rows by the source of each projection
 (src/rag_engine/texttosql/result_masking.py), and exactly when it hides the masked columns.
 */
module ResultMasking {
  import opened Schemas
  import opened AstGate
  import Masking

  datatype ColumnPolicy = ColumnPolicy(name: string, pii: bool, masked: bool, maskReason: string)

  datatype Redaction = FailClosed | By(column: ColumnPolicy)

  type Policies = map<string, ColumnPolicy>
  type Redactions = map<string, Redaction>

  /** The masked columns by folded name; of two spellings of one name the later policy stands. */
  function MaskedByName(columns: seq<ColumnPolicy>): Policies {
    if columns == [] then map[]
    else
      var last := columns[|columns| - 1];
      var before := MaskedByName(columns[..|columns| - 1]);
      if last.masked then before[Fold(last.name) := last] else before
  }

  /** The first source column that is masked. */
  function FirstHit(sources: seq<string>, masked: Policies): (r: Option<ColumnPolicy>)
    ensures r.Some? <==> Reads(sources, masked.Keys)
    ensures r.Some? ==> exists i :: 0 <= i < |sources| && Fold(sources[i]) in masked && r.value == masked[Fold(sources[i])]
  {
    if sources == [] then None
    else if Fold(sources[0]) in masked then
      assert Fold(sources[0]) in masked.Keys;
      Some(masked[Fold(sources[0])])
    else
      assert forall i :: 0 < i < |sources| ==> sources[1..][i - 1] == sources[i];
      FirstHit(sources[1..], masked)
  }

  /** What one projection asks to be redacted. */
  function RedactionFor(p: ProjectionSource, masked: Policies): Option<Redaction> {
    if p.isStar then None
    else if !p.resolvable then Some(FailClosed)
    else match FirstHit(p.sourceColumns, masked)
         case Some(column) => Some(By(column))
         case None => None
  }

  function RedactedKeys(projections: seq<ProjectionSource>, masked: Policies): Redactions {
    if projections == [] then map[]
    else
      var last := projections[|projections| - 1];
      var before := RedactedKeys(projections[..|projections| - 1], masked);
      match RedactionFor(last, masked)
      case Some(r) => before[Fold(last.outputKey) := r]
      case None => before
  }

  function ReasonToken(column: ColumnPolicy): string {
    Masking.ReasonToken(Fold(column.maskReason))
  }

  function Token(r: Redaction): string {
    match r
    case FailClosed => Masking.PII_TOKEN
    case By(column) => ReasonToken(column)
  }

  function MaskCell(key: string, value: Value, redact: Redactions, masked: Policies): Value {
    var k := Fold(key);
    if k in redact then Text(Token(redact[k]))
    else if k in masked then Text(ReasonToken(masked[k]))
    else value
  }

  function MaskRow(row: Row, redact: Redactions, masked: Policies): Row {
    map key | key in row :: MaskCell(key, row[key], redact, masked)
  }

  /** The redactions in force; without a syntax tree only the result key itself can be matched. */
  function InForce(projections: Option<seq<ProjectionSource>>, masked: Policies): Redactions {
    if masked == map[] || projections.None? then map[] else RedactedKeys(projections.value, masked)
  }

  function Masked(rows: seq<Row>, columns: seq<ColumnPolicy>, mask: bool, projections: Option<seq<ProjectionSource>>): (r: seq<Row>)
    ensures |r| == |rows|
  {
    if !mask then rows
    else
      var masked := MaskedByName(columns);
      var redact := InForce(projections, masked);
      seq(|rows|, i requires 0 <= i < |rows| => MaskRow(rows[i], redact, masked))
  }

  // ---- the loops ----------------------------------------------------------------

  method CollectRedactions(projections: seq<ProjectionSource>, masked: Policies) returns (redact: Redactions)
    ensures redact == RedactedKeys(projections, masked)
  {
    redact := map[];
    for i := 0 to |projections|
      invariant redact == RedactedKeys(projections[..i], masked)
    {
      var p := projections[i];
      assert projections[..i + 1][..i] == projections[..i];
      if p.isStar {
        continue;
      }
      if !p.resolvable {
        redact := redact[Fold(p.outputKey) := FailClosed];
        continue;
      }
      var hit := FirstHit(p.sourceColumns, masked);
      if hit.Some? {
        redact := redact[Fold(p.outputKey) := By(hit.value)];
      }
    }
    assert projections[..|projections|] == projections;
  }

  method OverwriteCells(row: Row, redact: Redactions, masked: Policies) returns (out: Row)
    ensures out == MaskRow(row, redact, masked)
  {
    out := row;
    var keys := row.Keys;
    while keys != {}
      invariant keys <= row.Keys && out.Keys == row.Keys
      invariant forall key :: key in row ==>
        out[key] == if key in keys then row[key] else MaskCell(key, row[key], redact, masked)
    {
      var key :| key in keys;
      var k := Fold(key);
      if k in redact {
        out := out[key := Text(Token(redact[k]))];
      } else if k in masked {
        out := out[key := Text(ReasonToken(masked[k]))];
      }
      keys := keys - {key};
    }
  }

  lemma NothingMasked(row: Row)
    ensures MaskRow(row, map[], map[]) == row
  {
  }

  method MaskRows(rows: seq<Row>, columns: seq<ColumnPolicy>, mask: bool, projections: Option<seq<ProjectionSource>>)
    returns (out: seq<Row>)
    ensures out == Masked(rows, columns, mask, projections)
  {
    if !mask {
      return rows;
    }
    var masked := MaskedByName(columns);
    if masked == map[] {
      forall i | 0 <= i < |rows| ensures MaskRow(rows[i], map[], masked) == rows[i] {
        NothingMasked(rows[i]);
      }
      return rows;
    }
    var redact: Redactions := map[];
    if projections.Some? {
      redact := CollectRedactions(projections.value, masked);
    }
    out := [];
    for i := 0 to |rows|
      invariant |out| == i && forall j :: 0 <= j < i ==> out[j] == MaskRow(rows[j], redact, masked)
    {
      var row := OverwriteCells(rows[i], redact, masked);
      out := out + [row];
    }
  }

  // ---- what masking hides ---------------------------------------------------------

  /** A result key no raw value can stand under. */
  predicate Hidden(key: string, redact: Redactions, masked: Policies) {
    Fold(key) in redact || Fold(key) in masked
  }

  /**
   What a caller can check before running the query: each projection computed from a masked
   column puts its value under a hidden key. A star needs no check.
   */
  ghost predicate Covered(query: seq<Projection>, schema: seq<string>, redact: Redactions, masked: Policies) {
    forall i, key :: (0 <= i < |query| && !query[i].Star? && !query[i].TableStar?
      && Reads(ProjectionColumns(query[i]), masked.Keys) && key in Keys(query[i], schema)) ==> Hidden(key, redact, masked)
  }

  /** Two raw rows alike wherever the key is not hidden. */
  ghost predicate AlikeOutside(x: Row, y: Row, redact: Redactions, masked: Policies) {
    x.Keys == y.Keys && forall key :: key in x && !Hidden(key, redact, masked) ==> x[key] == y[key]
  }

  lemma AlikeMasksSame(x: Row, y: Row, redact: Redactions, masked: Policies)
    requires AlikeOutside(x, y, redact, masked)
    ensures MaskRow(x, redact, masked) == MaskRow(y, redact, masked)
  {
  }

  lemma CellsAlike(p: Projection, schema: seq<string>, interp: Interpretation, a: SourceRow, b: SourceRow,
                   redact: Redactions, masked: Policies)
    requires Covered([p], schema, redact, masked) && AgreeOutside(a, b, masked.Keys)
    ensures AlikeOutside(Cells(p, schema, interp, a), Cells(p, schema, interp, b), redact, masked)
  {
    hide Reads, Fold;
    var x, y := Cells(p, schema, interp, a), Cells(p, schema, interp, b);
    forall key | key in x && !Hidden(key, redact, masked)
      ensures x[key] == y[key]
    {
      assert [p][0] == p;
      assert key in Keys(p, schema);
      if !p.Star? && !p.TableStar? {
        assert !Reads(ProjectionColumns(p), masked.Keys);
        match p
        case Bare(column) => EvalAgrees(Column(column), interp, a, b, masked.Keys);
        case Aliased(expr, _) => EvalAgrees(expr, interp, a, b, masked.Keys);
        case Unnamed(expr, _, _) => EvalAgrees(expr, interp, a, b, masked.Keys);
        case _ =>
      }
    }
  }

  lemma {:induction false} RowsAlike(query: seq<Projection>, schema: seq<string>, interp: Interpretation,
                                     a: SourceRow, b: SourceRow, redact: Redactions, masked: Policies)
    requires Covered(query, schema, redact, masked) && AgreeOutside(a, b, masked.Keys)
    ensures AlikeOutside(ResultRow(query, schema, interp, a), ResultRow(query, schema, interp, b), redact, masked)
  {
    hide Cells, Keys, Reads, Hidden, AgreeOutside;
    if query != [] {
      var init, last := query[..|query| - 1], query[|query| - 1];
      assert forall i :: 0 <= i < |init| ==> init[i] == query[i];
      assert [last][0] == last;
      RowsAlike(init, schema, interp, a, b, redact, masked);
      CellsAlike(last, schema, interp, a, b, redact, masked);
    }
  }

  // ---- and exactly when --------------------------------------------------------------

  /** As a warehouse requires: no two projections put a value under the same key. */
  ghost predicate DistinctKeys(query: seq<Projection>, schema: seq<string>) {
    forall i, j :: 0 <= i < j < |query| ==> Keys(query[i], schema) !! Keys(query[j], schema)
  }

  lemma {:induction false} CellStands(query: seq<Projection>, schema: seq<string>, interp: Interpretation,
                                      source: SourceRow, i: nat, key: string)
    requires DistinctKeys(query, schema) && i < |query| && key in Keys(query[i], schema)
    ensures key in ResultRow(query, schema, interp, source)
    ensures ResultRow(query, schema, interp, source)[key] == CellAt(query[i], key, interp, source)
  {
    hide Keys, CellAt;
    var init := query[..|query| - 1];
    if i < |init| {
      assert forall j :: 0 <= j < |init| ==> init[j] == query[j];
      CellStands(init, schema, interp, source, i, key);
      assert Keys(query[i], schema) !! Keys(query[|init|], schema);
    }
  }

  /** Masked results are the same for any two runs whose base rows differ only in masked columns. */
  ghost predicate SameMasked(query: seq<Projection>, schema: seq<string>, columns: seq<ColumnPolicy>,
                             projections: Option<seq<ProjectionSource>>, interp: Interpretation,
                             a: seq<SourceRow>, b: seq<SourceRow>) {
    Masked(Results(query, schema, interp, a), columns, true, projections)
    == Masked(Results(query, schema, interp, b), columns, true, projections)
  }

  ghost predicate DifferOnlyInMasked(a: seq<SourceRow>, b: seq<SourceRow>, columns: seq<ColumnPolicy>) {
    |a| == |b| && forall i :: 0 <= i < |a| ==> AgreeOutside(a[i], b[i], MaskedByName(columns).Keys)
  }

  ghost predicate Noninterfering(query: seq<Projection>, schema: seq<string>, columns: seq<ColumnPolicy>,
                                 projections: Option<seq<ProjectionSource>>) {
    forall interp: Interpretation, a, b ::
      DifferOnlyInMasked(a, b, columns) ==> SameMasked(query, schema, columns, projections, interp, a, b)
  }

  lemma CoveredHides(query: seq<Projection>, schema: seq<string>, columns: seq<ColumnPolicy>,
                     projections: Option<seq<ProjectionSource>>, interp: Interpretation,
                     a: seq<SourceRow>, b: seq<SourceRow>)
    requires Covered(query, schema, InForce(projections, MaskedByName(columns)), MaskedByName(columns))
    requires DifferOnlyInMasked(a, b, columns)
    ensures SameMasked(query, schema, columns, projections, interp, a, b)
  {
    hide Covered, InForce, ResultRow, AlikeOutside, MaskRow, AgreeOutside, MaskedByName;
    var masked := MaskedByName(columns);
    var redact := InForce(projections, masked);
    forall i | 0 <= i < |a|
      ensures MaskRow(ResultRow(query, schema, interp, a[i]), redact, masked)
           == MaskRow(ResultRow(query, schema, interp, b[i]), redact, masked)
    {
      RowsAlike(query, schema, interp, a[i], b[i], redact, masked);
      AlikeMasksSame(ResultRow(query, schema, interp, a[i]), ResultRow(query, schema, interp, b[i]), redact, masked);
    }
  }

  lemma SingleCellApart(column: string, v: Value, w: Value, secret: set<string>)
    requires column in secret
    ensures AgreeOutside(map[column := v], map[column := w], secret)
  {
  }

  /** A projection that is not covered shows, under some reading of its functions, a change in a masked column. */
  lemma UncoveredShows(query: seq<Projection>, schema: seq<string>, columns: seq<ColumnPolicy>,
                       projections: Option<seq<ProjectionSource>>)
    requires DistinctKeys(query, schema)
    requires !Covered(query, schema, InForce(projections, MaskedByName(columns)), MaskedByName(columns))
    ensures !Noninterfering(query, schema, columns, projections)
  {
    hide Fold, ResultRow, DistinctKeys, InForce, MaskedByName, AgreeOutside, CellAt;
    var masked := MaskedByName(columns);
    var redact := InForce(projections, masked);
    var i, key :| 0 <= i < |query| && !query[i].Star? && !query[i].TableStar?
      && Reads(ProjectionColumns(query[i]), masked.Keys) && key in Keys(query[i], schema) && !Hidden(key, redact, masked);
    var read := ProjectionColumns(query[i]);
    var c :| 0 <= c < |read| && Fold(read[c]) in masked.Keys;
    var column := Fold(read[c]);
    assert Reads(read, {column});
    var x, y: SourceRow := map[column := Number(0.0)], map[column := Number(1.0)];
    ProjectionDepends(query[i], key, column, Number(0.0), Number(1.0));
    CellStands(query, schema, Free(), x, i, key);
    CellStands(query, schema, Free(), y, i, key);
    assert DifferOnlyInMasked([x], [y], columns) by {
      SingleCellApart(column, Number(0.0), Number(1.0), masked.Keys);
    }
    var before := Masked(Results(query, schema, Free(), [x]), columns, true, projections);
    var after := Masked(Results(query, schema, Free(), [y]), columns, true, projections);
    assert before[0][key] == CellAt(query[i], key, Free(), x);
    assert after[0][key] == CellAt(query[i], key, Free(), y);
    assert !SameMasked(query, schema, columns, projections, Free(), [x], [y]);
  }

  lemma ProjectionDepends(p: Projection, key: string, column: string, v: Value, w: Value)
    requires !p.Star? && !p.TableStar? && Reads(ProjectionColumns(p), {column}) && v != w
    ensures CellAt(p, key, Free(), map[column := v]) != CellAt(p, key, Free(), map[column := w])
  {
    hide Reads, Fold;
    match p
    case Bare(name) => EvalDepends(Column(name), column, v, w);
    case Aliased(expr, _) => EvalDepends(expr, column, v, w);
    case Unnamed(expr, _, _) => EvalDepends(expr, column, v, w);
    case _ =>
  }

  /** Masking hides the masked columns exactly when every projection computed from one is covered. */
  lemma MaskingHidesExactly(query: seq<Projection>, schema: seq<string>, columns: seq<ColumnPolicy>,
                            projections: Option<seq<ProjectionSource>>)
    requires DistinctKeys(query, schema)
    ensures Noninterfering(query, schema, columns, projections)
       <==> Covered(query, schema, InForce(projections, MaskedByName(columns)), MaskedByName(columns))
  {
    hide Covered, InForce, DifferOnlyInMasked, SameMasked, DistinctKeys, MaskedByName;
    if Covered(query, schema, InForce(projections, MaskedByName(columns)), MaskedByName(columns)) {
      forall interp: Interpretation, a, b | DifferOnlyInMasked(a, b, columns)
        ensures SameMasked(query, schema, columns, projections, interp, a, b)
      {
        CoveredHides(query, schema, columns, projections, interp, a, b);
      }
    } else {
      UncoveredShows(query, schema, columns, projections);
    }
  }

  // ---- queries that are always covered -------------------------------------------------

  /** The name the parser reads off a projection is the key its value comes back under. */
  predicate NamedAlike(p: Projection) {
    p.Unnamed? ==> Fold(p.parserName) == Fold(p.resultName)
  }

  lemma {:induction false} RedactionStands(ds: seq<ProjectionSource>, masked: Policies, i: nat)
    requires i < |ds| && RedactionFor(ds[i], masked).Some?
    ensures Fold(ds[i].outputKey) in RedactedKeys(ds, masked)
  {
    hide RedactionFor, Fold;
    if i < |ds| - 1 {
      assert ds[..|ds| - 1][i] == ds[i];
      RedactionStands(ds[..|ds| - 1], masked, i);
    }
  }

  lemma ReadsRedacts(d: ProjectionSource, p: Projection, masked: Policies)
    requires Describes(d, p) && !p.Star? && Reads(ProjectionColumns(p), masked.Keys)
    ensures RedactionFor(d, masked).Some?
  {
    hide Fold;
    var read := ProjectionColumns(p);
    var c :| 0 <= c < |read| && Fold(read[c]) in masked.Keys;
    assert read[c] in read;
    var j :| 0 <= j < |d.sourceColumns| && d.sourceColumns[j] == read[c];
    assert Reads(d.sourceColumns, masked.Keys);
  }

  /**
   With the syntax tree at hand, aliases, spelling, expressions and stars never get a masked
   value through, as long as every computed column comes back under the name the parser gave it:
   always so when each is aliased.
   */
  lemma NamedQueriesHide(query: seq<Projection>, schema: seq<string>, columns: seq<ColumnPolicy>,
                         ds: seq<ProjectionSource>, interp: Interpretation, a: seq<SourceRow>, b: seq<SourceRow>)
    requires DescribesAll(ds, query)
    requires forall i :: 0 <= i < |query| ==> NamedAlike(query[i])
    requires DifferOnlyInMasked(a, b, columns)
    ensures SameMasked(query, schema, columns, Some(ds), interp, a, b)
  {
    var masked := MaskedByName(columns);
    var redact := InForce(Some(ds), masked);
    assert Covered(query, schema, redact, masked) by {
      hide Fold, Reads, Describes, MaskedByName, RedactionFor, RedactedKeys;
      forall i, key | 0 <= i < |query| && !query[i].Star? && !query[i].TableStar?
        && Reads(ProjectionColumns(query[i]), masked.Keys) && key in Keys(query[i], schema)
        ensures Hidden(key, redact, masked)
      {
        NamedKeyHidden(query[i], ds, schema, masked, i, key);
      }
    }
    hide *;
    CoveredHides(query, schema, columns, Some(ds), interp, a, b);
  }

  lemma NamedKeyHidden(p: Projection, ds: seq<ProjectionSource>, schema: seq<string>, masked: Policies, i: nat, key: string)
    requires i < |ds| && Describes(ds[i], p) && NamedAlike(p) && !p.Star? && !p.TableStar?
    requires Reads(ProjectionColumns(p), masked.Keys) && key in Keys(p, schema)
    ensures Hidden(key, InForce(Some(ds), masked), masked)
  {
    hide Fold, RedactedKeys, RedactionFor;
    ReadsRedacts(ds[i], p, masked);
    RedactionStands(ds, masked, i);
    assert masked.Keys != {};
  }

  const CALL := Apply("UPPER", [Column("customer_email")])
  const EMAIL := ColumnPolicy("customer_email", true, true, "PII_MASK")

  lemma CallUncovered(ds: seq<ProjectionSource>)
    requires DescribesAll(ds, [Unnamed(CALL, "", "f0_")])
    ensures var masked := MaskedByName([EMAIL]);
      !Covered([Unnamed(CALL, "", "f0_")], ["customer_email"], InForce(Some(ds), masked), masked)
  {
    hide Fold, RedactionFor;
    var p := Unnamed(CALL, "", "f0_");
    var masked := MaskedByName([EMAIL]);
    assert masked == map[Fold("customer_email") := EMAIL] by {
      var columns := [EMAIL];
      assert columns[..|columns| - 1] == [];
      assert MaskedByName(columns) == MaskedByName([])[Fold(EMAIL.name) := EMAIL];
    }
    assert Columns(CALL) == ["customer_email"] by {
      assert CALL.args[..0] == [];
      assert Columns(Column("customer_email")) == ["customer_email"];
    }
    assert Reads(Columns(CALL), masked.Keys) by {
      assert Fold(Columns(CALL)[0]) in masked.Keys;
    }
    assert ds[..0] == [];
    assert Describes(ds[0], [p][0]);
    assert RedactedKeys(ds, masked).Keys <= {Fold("")};
    assert [p][0] == p && "f0_" in Keys(p, ["customer_email"]);
    assert !Hidden("f0_", InForce(Some(ds), masked), masked);
  }

  /** An unaliased call comes back under the warehouse's own name for it, which the gate cannot know. */
  lemma UnnamedCallShows(ds: seq<ProjectionSource>)
    requires DescribesAll(ds, [Unnamed(CALL, "", "f0_")])
    ensures !Noninterfering([Unnamed(CALL, "", "f0_")], ["customer_email"], [EMAIL], Some(ds))
  {
    hide Covered, Noninterfering, InForce, MaskedByName, DescribesAll;
    CallUncovered(ds);
    UncoveredShows([Unnamed(CALL, "", "f0_")], ["customer_email"], [EMAIL], Some(ds));
  }

  /** Masking changes neither the number of rows nor their keys, and a masked cell holds one of the two tokens. */
  lemma MaskingKeepsShape(rows: seq<Row>, columns: seq<ColumnPolicy>, mask: bool, projections: Option<seq<ProjectionSource>>, i: nat)
    requires i < |rows|
    ensures var row := Masked(rows, columns, mask, projections)[i];
      && row.Keys == rows[i].Keys
      && forall key :: key in row ==> row[key] in {rows[i][key], Text(Masking.PII_TOKEN), Text(Masking.FIELD_ACL_TOKEN)}
  {
  }

  // ---- one cell ------------------------------------------------------------------------

  /** Column c is masked and, letter case aside, bears the name. */
  predicate MaskedUnder(column: ColumnPolicy, name: string) {
    column.masked && Fold(column.name) == Fold(name)
  }

  ghost predicate NamesMasked(columns: seq<ColumnPolicy>, name: string) {
    exists c :: 0 <= c < |columns| && MaskedUnder(columns[c], name)
  }

  /** A projection, not a star, that puts its value under the key and is unresolvable or reads a masked column. */
  ghost predicate Taints(p: ProjectionSource, columns: seq<ColumnPolicy>, key: string) {
    && !p.isStar && Fold(p.outputKey) == Fold(key)
    && (!p.resolvable || exists s :: 0 <= s < |p.sourceColumns| && NamesMasked(columns, p.sourceColumns[s]))
  }

  /** Column c is the last of those masked under the name. */
  ghost predicate LastUnder(columns: seq<ColumnPolicy>, name: string, c: nat) {
    c < |columns| && MaskedUnder(columns[c], name) && forall d :: c < d < |columns| ==> !MaskedUnder(columns[d], name)
  }

  lemma {:induction false} MaskedNames(columns: seq<ColumnPolicy>, name: string)
    ensures Fold(name) in MaskedByName(columns) <==> NamesMasked(columns, name)
    ensures NamesMasked(columns, name) ==>
      exists c: nat :: LastUnder(columns, name, c) && MaskedByName(columns)[Fold(name)] == columns[c]
  {
    hide Fold;
    if columns != [] {
      var n := |columns| - 1;
      MaskedNames(columns[..n], name);
      assert forall c :: 0 <= c < n ==> columns[..n][c] == columns[c];
      if MaskedUnder(columns[n], name) {
        assert LastUnder(columns, name, n) && MaskedByName(columns)[Fold(name)] == columns[n];
      } else if NamesMasked(columns[..n], name) {
        var c: nat :| LastUnder(columns[..n], name, c) && MaskedByName(columns[..n])[Fold(name)] == columns[..n][c];
        assert LastUnder(columns, name, c) && MaskedByName(columns)[Fold(name)] == columns[c];
      }
    }
  }

  lemma TaintsRedacts(p: ProjectionSource, columns: seq<ColumnPolicy>, key: string)
    ensures Taints(p, columns, key) <==> Fold(p.outputKey) == Fold(key) && RedactionFor(p, MaskedByName(columns)).Some?
    ensures Taints(p, columns, key) && !p.resolvable ==> RedactionFor(p, MaskedByName(columns)) == Some(FailClosed)
  {
    hide Fold, MaskedByName, NamesMasked;
    var masked := MaskedByName(columns);
    forall s | 0 <= s < |p.sourceColumns|
      ensures Fold(p.sourceColumns[s]) in masked.Keys <==> NamesMasked(columns, p.sourceColumns[s])
    {
      MaskedNames(columns, p.sourceColumns[s]);
    }
  }

  /** Projection p is the last that taints the key. */
  ghost predicate LastTaint(ps: seq<ProjectionSource>, columns: seq<ColumnPolicy>, key: string, p: nat) {
    p < |ps| && Taints(ps[p], columns, key) && forall q :: p < q < |ps| ==> !Taints(ps[q], columns, key)
  }

  lemma {:induction false} RedactedExactly(ps: seq<ProjectionSource>, columns: seq<ColumnPolicy>, key: string)
    ensures var redact := RedactedKeys(ps, MaskedByName(columns));
      if Fold(key) in redact then
        exists p: nat :: LastTaint(ps, columns, key, p) && Some(redact[Fold(key)]) == RedactionFor(ps[p], MaskedByName(columns))
      else forall p :: 0 <= p < |ps| ==> !Taints(ps[p], columns, key)
  {
    hide Fold, MaskedByName, Taints, RedactionFor;
    if ps != [] {
      var n, masked := |ps| - 1, MaskedByName(columns);
      RedactedExactly(ps[..n], columns, key);
      TaintsRedacts(ps[n], columns, key);
      assert forall p :: 0 <= p < n ==> ps[..n][p] == ps[p];
      if Taints(ps[n], columns, key) {
        assert LastTaint(ps, columns, key, n);
        assert Some(RedactedKeys(ps, masked)[Fold(key)]) == RedactionFor(ps[n], masked);
      } else if Fold(key) in RedactedKeys(ps[..n], masked) {
        var p: nat :| LastTaint(ps[..n], columns, key, p)
          && Some(RedactedKeys(ps[..n], masked)[Fold(key)]) == RedactionFor(ps[..n][p], masked);
        assert LastTaint(ps, columns, key, p);
        assert Some(RedactedKeys(ps, masked)[Fold(key)]) == RedactionFor(ps[p], masked);
      }
    }
  }

  /** What a masked column's cell shows. */
  function TokenOf(column: ColumnPolicy): string {
    if Fold(column.maskReason) == "field_acl_mask" then "[RESTRICTED]" else "[REDACTED]"
  }

  /**
   When a cell is replaced, and by what: its key names a masked column, or some projection's value
   under the key is unresolvable or read from one. A call without the mask flag changes nothing.
   */
  lemma CellExactly(rows: seq<Row>, columns: seq<ColumnPolicy>, mask: bool, projections: Option<seq<ProjectionSource>>,
                    i: nat, key: string)
    requires i < |rows| && key in rows[i]
    ensures
      var row := Masked(rows, columns, mask, projections)[i];
      var some := exists c :: 0 <= c < |columns| && columns[c].masked;
      var tainted := some && projections.Some? && exists p :: 0 <= p < |projections.value| && Taints(projections.value[p], columns, key);
      && key in row
      && (mask && tainted ==> exists p: nat :: (LastTaint(projections.value, columns, key, p)
            && if !projections.value[p].resolvable then row[key] == Text("[REDACTED]")
               else exists c :: 0 <= c < |columns| && columns[c].masked && row[key] == Text(TokenOf(columns[c]))))
      && (mask && !tainted && NamesMasked(columns, key) ==>
            exists c: nat :: LastUnder(columns, key, c) && row[key] == Text(TokenOf(columns[c])))
      && (!mask || (!tainted && !NamesMasked(columns, key)) ==> row[key] == rows[i][key])
  {
    hide Fold, MaskedByName, Taints, RedactionFor, RedactedKeys, NamesMasked;
    var masked := MaskedByName(columns);
    MaskedNames(columns, key);
    AnyMasked(columns);
    if projections.Some? && masked != map[] {
      var ps := projections.value;
      RedactedExactly(ps, columns, key);
      if Fold(key) in RedactedKeys(ps, masked) {
        var p: nat :| LastTaint(ps, columns, key, p) && Some(RedactedKeys(ps, masked)[Fold(key)]) == RedactionFor(ps[p], masked);
        TaintsRedacts(ps[p], columns, key);
        RedactionIsMasked(ps[p], columns);
      }
    }
  }

  lemma {:induction false} AnyMasked(columns: seq<ColumnPolicy>)
    ensures MaskedByName(columns) == map[] <==> !exists c :: 0 <= c < |columns| && columns[c].masked
  {
    hide Fold;
    if columns != [] {
      var n := |columns| - 1;
      AnyMasked(columns[..n]);
      assert forall c :: 0 <= c < n ==> columns[..n][c] == columns[c];
      if columns[n].masked {
        assert Fold(columns[n].name) in MaskedByName(columns);
      }
    }
  }

  /** A redaction that names a column names one of the masked ones. */
  lemma RedactionIsMasked(p: ProjectionSource, columns: seq<ColumnPolicy>)
    ensures var r := RedactionFor(p, MaskedByName(columns));
      && (r.Some? ==> (r.value.FailClosed? <==> !p.resolvable))
      && (r.Some? && r.value.By? ==> exists c :: 0 <= c < |columns| && columns[c].masked && columns[c] == r.value.column)
  {
    hide Fold, MaskedByName, NamesMasked;
    var r := RedactionFor(p, MaskedByName(columns));
    if r.Some? && r.value.By? {
      var s :| 0 <= s < |p.sourceColumns| && Fold(p.sourceColumns[s]) in MaskedByName(columns)
        && r.value.column == MaskedByName(columns)[Fold(p.sourceColumns[s])];
      MaskedNames(columns, p.sourceColumns[s]);
    }
  }
}
