/** What a query means: cross product, filter, group, project, over the full tables. */
module Semantics {
  import opened Wrappers
  import opened Bytes
  import opened Cursor
  import opened BlitzFooter
  import opened BlitzReader
  import opened BlitzChunks
  import opened LateScan
  import opened Rows
  import opened Permutations
  import opened Plan
  import A = Aggregate

  /** One row of each table. */
  type JoinedRow = seq<Row>

  predicate HasCell(j: JoinedRow, c: Place) {
    c.scan < |j| && c.col < |j[c.scan]|
  }

  function CellOf(j: JoinedRow, c: Place): Cell {
    if HasCell(j, c) then j[c.scan][c.col] else I(0)
  }

  /** Rows have one cell per field, of the field's type. */
  ghost predicate Fits(rows: seq<Row>, fields: seq<FieldDef>) {
    forall i :: 0 <= i < |rows| ==> RowFits(rows[i], fields)
  }

  ghost predicate RowFits(row: Row, fields: seq<FieldDef>) {
    |row| == |fields| && forall c :: 0 <= c < |fields| ==> (row[c].I? <==> fields[c].dtype == Int64)
  }

  function FileRows(f: DataFile): seq<Row> {
    Flatten(f.groups)
  }

  function TableRowsOf(files: seq<DataFile>): seq<Row> {
    Flatten(Map(FileRows, files))
  }

  // ---- from, join, where ----

  predicate Satisfies(q: Query, j: JoinedRow) {
    && (forall p :: p in q.preds ==> CellHit(CellOf(j, p.c), p.op, p.lit))
    && (q.join.Some? ==> CellOf(j, q.join.value.0) == CellOf(j, q.join.value.1))
  }

  function Single(r: Row): JoinedRow {
    [r]
  }

  function Beside(r: Row): Row -> JoinedRow {
    (l: Row) => [l, r]
  }

  /** `right` outside, `left` inside. */
  function Cross(left: seq<Row>, right: seq<Row>): seq<JoinedRow> {
    if right == [] then [] else
    var r := right[|right| - 1];
    Cross(left, right[..|right| - 1]) + Map(Beside(r), left)
  }

  function Product(tables: seq<seq<Row>>): seq<JoinedRow> {
    if |tables| == 1 then Map(Single, tables[0])
    else if |tables| == 2 then Cross(tables[0], tables[1])
    else []
  }

  function Filter(q: Query, js: seq<JoinedRow>): seq<JoinedRow> {
    if js == [] then [] else
    var n := |js| - 1;
    Filter(q, js[..n]) + if Satisfies(q, js[n]) then [js[n]] else []
  }

  function NaiveJoin(q: Query, tables: seq<seq<Row>>): seq<JoinedRow> {
    Filter(q, Product(tables))
  }

  // ---- select, group by ----

  datatype Val = VI(i: i64) | VS(s: Text) | VF(f: real)

  function ValOf(c: Cell): Val {
    match c
    case I(v) => VI(v)
    case S(s) => VS(s)
  }

  predicate HasAgg(select: seq<Item>) {
    exists i :: 0 <= i < |select| && !select[i].ItemCol?
  }

  /** What one row hands to an aggregate: a value, or nothing but its presence. */
  function Input(it: Item, j: JoinedRow): Option<i64> {
    if it.ItemAgg? && CellOf(j, it.c).I? then Some(CellOf(j, it.c).i) else None
  }

  function KeyOf(groupBy: seq<Place>, j: JoinedRow): (k: seq<Cell>)
    ensures |k| == |groupBy| && forall i :: 0 <= i < |k| ==> k[i] == CellOf(j, groupBy[i])
  {
    seq(|groupBy|, i requires 0 <= i < |groupBy| => CellOf(j, groupBy[i]))
  }

  function PlainRow(select: seq<Item>, j: JoinedRow): (r: seq<Val>)
    ensures |r| == |select|
    ensures forall i :: 0 <= i < |r| && select[i].ItemCol? ==> r[i] == ValOf(CellOf(j, select[i].c))
  {
    seq(|select|, i requires 0 <= i < |select| => if select[i].ItemCol? then ValOf(CellOf(j, select[i].c)) else VI(0))
  }

  function Group(groupBy: seq<Place>, js: seq<JoinedRow>, key: seq<Cell>): seq<JoinedRow> {
    if js == [] then [] else
    var n := |js| - 1;
    Group(groupBy, js[..n], key) + if KeyOf(groupBy, js[n]) == key then [js[n]] else []
  }

  function MinOf(vals: seq<i64>): i64 {
    if vals == [] then I64_MAX else MinI(MinOf(vals[..|vals| - 1]), vals[|vals| - 1])
  }

  function MaxOf(vals: seq<i64>): i64 {
    if vals == [] then I64_MIN else MaxI(MaxOf(vals[..|vals| - 1]), vals[|vals| - 1])
  }

  /** An aggregate over the rows of a group; sums and counts wrap, and AVG is the quotient of the two. */
  function AggValue(f: AggFn, inputs: seq<Option<i64>>): Val {
    var vals := A.Values(inputs);
    var sum, count := Wrap64(A.SumOf(vals)), Wrap64(|inputs|);
    match f
    case Sum => VI(sum)
    case Count => VI(count)
    case Min => VI(MinOf(vals))
    case Max => VI(MaxOf(vals))
    case Avg => VF(if count == 0 then 0.0 else sum as real / count as real)
  }

  function InputsOf(it: Item, js: seq<JoinedRow>): seq<Option<i64>> {
    Map((j: JoinedRow) => Input(it, j), js)
  }

  /** The row of one group: plain columns from its first row, aggregates over all its rows. */
  function GroupRow(select: seq<Item>, rows: seq<JoinedRow>): (r: seq<Val>)
    requires rows != []
    ensures |r| == |select|
    ensures forall i :: 0 <= i < |r| ==>
      r[i] == if select[i].ItemCol? then ValOf(CellOf(rows[0], select[i].c)) else AggValue(select[i].f, InputsOf(select[i], rows))
  {
    seq(|select|, i requires 0 <= i < |select| =>
      if select[i].ItemCol? then ValOf(CellOf(rows[0], select[i].c)) else AggValue(select[i].f, InputsOf(select[i], rows)))
  }

  /** `keys` lists every key that occurs, once. */
  ghost predicate ListsKeys(keys: seq<seq<Cell>>, groupBy: seq<Place>, js: seq<JoinedRow>) {
    && (forall k :: k in keys <==> Group(groupBy, js, k) != [])
    && forall i, j :: 0 <= i < j < |keys| ==> keys[i] != keys[j]
  }

  ghost function GroupRows(select: seq<Item>, groupBy: seq<Place>, js: seq<JoinedRow>, keys: seq<seq<Cell>>): (rows: seq<seq<Val>>)
    requires forall i :: 0 <= i < |keys| ==> Group(groupBy, js, keys[i]) != []
    ensures |rows| == |keys|
    ensures forall i :: 0 <= i < |rows| ==> rows[i] == GroupRow(select, Group(groupBy, js, keys[i]))
  {
    seq(|keys|, i requires 0 <= i < |keys| => GroupRow(select, Group(groupBy, js, keys[i])))
  }

  /** `rows` is what SELECT and GROUP BY make of the joined rows: their projections in any order, or one row for
      each key that occurs, in any order of the keys. */
  ghost predicate IsOutput(select: seq<Item>, groupBy: seq<Place>, js: seq<JoinedRow>, rows: seq<seq<Val>>) {
    if HasAgg(select) then
      exists keys :: ListsKeys(keys, groupBy, js) && rows == GroupRows(select, groupBy, js, keys)
    else
      multiset(rows) == multiset(Map((j: JoinedRow) => PlainRow(select, j), js))
  }

  /** A result of the query before ORDER BY and LIMIT. */
  ghost predicate IsResult(q: Query, tables: seq<seq<Row>>, rows: seq<seq<Val>>) {
    IsOutput(q.select, q.groupBy, NaiveJoin(q, tables), rows)
  }
}
