/**
 The projection list of a validated SELECT (src/rag_engine/sql/ast_gate.py), and what
 a warehouse returns for it: one dictionary a row.
 */
module AstGate {
  import opened Schemas

  datatype Expr = Column(name: string) | Literal(value: Value) | Apply(fn: string, args: seq<Expr>)

  /**
   One projection. An unnamed one has no alias and is not a bare column: `parserName` is
   the name the parser reads off it, `resultName` the key the warehouse invents for it.
   */
  datatype Projection =
    | Star
    | TableStar
    | Bare(column: string)
    | Aliased(expr: Expr, alias: string)
    | Unnamed(expr: Expr, parserName: string, resultName: string)

  /** `sourceColumns` is listed in the order the frozen set happens to be iterated. */
  datatype ProjectionSource = ProjectionSource(outputKey: string, sourceColumns: seq<string>, isStar: bool, resolvable: bool)

  // ---- what the gate reads off the tree ---------------------------------------

  function LowerChar(c: char): char {
    if 'A' <= c <= 'Z' then (c as int + 32) as char else c
  }

  function Fold(s: string): (r: string)
    ensures |r| == |s|
  {
    if s == "" then "" else [LowerChar(s[0])] + Fold(s[1..])
  }

  /** Folding moves the letters A to Z and nothing else. */
  lemma {:induction false} FoldMeans(s: string, i: nat)
    requires i < |s|
    ensures 'A' <= s[i] <= 'Z' ==> Fold(s)[i] as int == s[i] as int + 32
    ensures !('A' <= s[i] <= 'Z') ==> Fold(s)[i] == s[i]
  {
    if i > 0 {
      FoldMeans(s[1..], i - 1);
    }
  }

  function Columns(e: Expr): seq<string> {
    match e
    case Column(name) => [name]
    case Literal(_) => []
    case Apply(_, args) => ColumnsOfAll(args)
  }

  function ColumnsOfAll(es: seq<Expr>): seq<string> {
    if es == [] then [] else ColumnsOfAll(es[..|es| - 1]) + Columns(es[|es| - 1])
  }

  function ProjectionColumns(p: Projection): seq<string> {
    match p
    case Star => []
    case TableStar => ["*"]
    case Bare(column) => [column]
    case Aliased(expr, _) => Columns(expr)
    case Unnamed(expr, _, _) => Columns(expr)
  }

  function AliasOrName(p: Projection): string {
    match p
    case Star => "*"
    case TableStar => "*"
    case Bare(column) => column
    case Aliased(_, alias) => alias
    case Unnamed(_, parserName, _) => parserName
  }

  /** A description of one projection, whatever the order of its source columns. */
  ghost predicate Describes(d: ProjectionSource, p: Projection) {
    && d.outputKey == AliasOrName(p)
    && (forall c :: c in d.sourceColumns <==> c in ProjectionColumns(p))
    && d.isStar == p.Star?
    && d.resolvable == (p.Star? || ProjectionColumns(p) != [])
  }

  ghost predicate DescribesAll(ds: seq<ProjectionSource>, query: seq<Projection>) {
    |ds| == |query| && forall i :: 0 <= i < |query| ==> Describes(ds[i], query[i])
  }

  method ProjectionSources(query: seq<Projection>) returns (out: seq<ProjectionSource>)
    ensures DescribesAll(out, query)
  {
    out := [];
    for i := 0 to |query|
      invariant |out| == i && forall j :: 0 <= j < i ==> Describes(out[j], query[j])
    {
      var p := query[i];
      if p.Star? {
        out := out + [ProjectionSource("*", [], true, true)];
      } else {
        var cols := ProjectionColumns(p);
        out := out + [ProjectionSource(AliasOrName(p), cols, false, cols != [])];
      }
    }
  }

  // ---- what the warehouse computes --------------------------------------------

  /** A base row, by folded column name: identifiers ignore case. A missing cell reads as NULL. */
  type SourceRow = map<string, Value>
  type Row = map<string, Value>
  type Interpretation = (string, seq<Value>) -> Value

  function Cell(source: SourceRow, column: string): Value {
    if Fold(column) in source then source[Fold(column)] else Null
  }

  function Eval(e: Expr, interp: Interpretation, source: SourceRow): Value {
    match e
    case Column(name) => Cell(source, name)
    case Literal(value) => value
    case Apply(fn, args) => interp(fn, EvalAll(args, interp, source))
  }

  function EvalAll(es: seq<Expr>, interp: Interpretation, source: SourceRow): (vs: seq<Value>)
    ensures |vs| == |es|
  {
    if es == [] then []
    else EvalAll(es[..|es| - 1], interp, source) + [Eval(es[|es| - 1], interp, source)]
  }

  /** The keys a projection adds to a result row; a star adds the table's own columns. */
  function Keys(p: Projection, schema: seq<string>): set<string> {
    match p
    case Star => Elements(schema)
    case TableStar => Elements(schema)
    case Bare(column) => {column}
    case Aliased(_, alias) => {alias}
    case Unnamed(_, _, resultName) => {resultName}
  }

  function CellAt(p: Projection, key: string, interp: Interpretation, source: SourceRow): Value {
    match p
    case Star => Cell(source, key)
    case TableStar => Cell(source, key)
    case Bare(column) => Cell(source, column)
    case Aliased(expr, _) => Eval(expr, interp, source)
    case Unnamed(expr, _, _) => Eval(expr, interp, source)
  }

  function Cells(p: Projection, schema: seq<string>, interp: Interpretation, source: SourceRow): Row {
    map key | key in Keys(p, schema) :: CellAt(p, key, interp, source)
  }

  /** One result row: the projections in order, a later one overwriting an earlier one of the same key. */
  function ResultRow(query: seq<Projection>, schema: seq<string>, interp: Interpretation, source: SourceRow): Row {
    if query == [] then map[]
    else ResultRow(query[..|query| - 1], schema, interp, source) + Cells(query[|query| - 1], schema, interp, source)
  }

  /** The result of a query over the base rows its WHERE clause picked. */
  function Results(query: seq<Projection>, schema: seq<string>, interp: Interpretation, picked: seq<SourceRow>): (r: seq<Row>)
    ensures |r| == |picked|
  {
    seq(|picked|, i requires 0 <= i < |picked| => ResultRow(query, schema, interp, picked[i]))
  }

  // ---- what an expression depends on ------------------------------------------

  ghost predicate Reads(columns: seq<string>, secret: set<string>) {
    exists i :: 0 <= i < |columns| && Fold(columns[i]) in secret
  }

  /** Two base rows alike on every column outside `secret`. */
  ghost predicate AgreeOutside(a: SourceRow, b: SourceRow, secret: set<string>) {
    forall column: string :: Fold(column) !in secret ==> Cell(a, column) == Cell(b, column)
  }

  lemma {:induction false} EvalAgrees(e: Expr, interp: Interpretation, a: SourceRow, b: SourceRow, secret: set<string>)
    requires AgreeOutside(a, b, secret) && !Reads(Columns(e), secret)
    ensures Eval(e, interp, a) == Eval(e, interp, b)
    decreases e
  {
    match e
    case Column(name) =>
      assert Columns(e)[0] == name;
    case Literal(_) =>
    case Apply(_, args) =>
      EvalAllAgrees(args, interp, a, b, secret);
  }

  lemma {:induction false} EvalAllAgrees(es: seq<Expr>, interp: Interpretation, a: SourceRow, b: SourceRow, secret: set<string>)
    requires AgreeOutside(a, b, secret) && !Reads(ColumnsOfAll(es), secret)
    ensures EvalAll(es, interp, a) == EvalAll(es, interp, b)
    decreases es
  {
    if es != [] {
      var init, last := es[..|es| - 1], es[|es| - 1];
      var before, after := ColumnsOfAll(init), Columns(last);
      assert forall i :: 0 <= i < |before| ==> ColumnsOfAll(es)[i] == before[i];
      assert forall i :: 0 <= i < |after| ==> ColumnsOfAll(es)[|before| + i] == after[i];
      EvalAllAgrees(init, interp, a, b, secret);
      EvalAgrees(last, interp, a, b, secret);
    }
  }

  /** The reading of function names that forgets nothing: a call is the list of its arguments. */
  function Free(): Interpretation {
    (fn: string, args: seq<Value>) => Items(args)
  }

  /** Under it, an expression that reads a column tells apart any two values of that column. */
  lemma {:induction false} EvalDepends(e: Expr, column: string, v: Value, w: Value)
    requires Reads(Columns(e), {column}) && v != w
    ensures Eval(e, Free(), map[column := v]) != Eval(e, Free(), map[column := w])
    decreases e
  {
    match e
    case Column(name) =>
    case Literal(_) =>
    case Apply(_, args) =>
      EvalAllDepends(args, column, v, w);
  }

  lemma {:induction false} EvalAllDepends(es: seq<Expr>, column: string, v: Value, w: Value)
    requires Reads(ColumnsOfAll(es), {column}) && v != w
    ensures EvalAll(es, Free(), map[column := v]) != EvalAll(es, Free(), map[column := w])
    decreases es
  {
    var init, last := es[..|es| - 1], es[|es| - 1];
    var before, after := ColumnsOfAll(init), Columns(last);
    var i :| 0 <= i < |before + after| && Fold((before + after)[i]) in {column};
    var x, y := EvalAll(es, Free(), map[column := v]), EvalAll(es, Free(), map[column := w]);
    if i < |before| {
      assert before[i] == (before + after)[i];
      EvalAllDepends(init, column, v, w);
      assert x[..|es| - 1] == EvalAll(init, Free(), map[column := v]);
      assert y[..|es| - 1] == EvalAll(init, Free(), map[column := w]);
    } else {
      assert after[i - |before|] == (before + after)[i];
      EvalDepends(last, column, v, w);
      assert x[|es| - 1] != y[|es| - 1];
    }
  }
}
