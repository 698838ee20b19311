/** ORDER BY and LIMIT. */
module TopN {
  import opened Wrappers
  import opened Bytes
  import opened Cursor
  import opened BlitzFooter
  import opened BlitzChunks
  import opened LateScan
  import opened Rows
  import opened Permutations
  import opened Plan
  import Planner
  import opened Semantics
  import opened EngineRun
  import opened EngineTheorem

  /** `val_cmp`, as "is less than"; values of different kinds are equal, and so neither is less. */
  predicate Lower(a: Val, b: Val) {
    match (a, b)
    case (VI(x), VI(y)) => x < y
    case (VS(x), VS(y)) => Less(x, y)
    case (VF(x), VF(y)) => x < y
    case (VI(x), VF(y)) => x as real < y
    case (VF(x), VI(y)) => x < y as real
    case _ => false
  }

  /** Row `a` must not come after row `b`'s place: the comparison of the sort, direction included. */
  predicate Precedes(a: seq<Val>, b: seq<Val>, pos: nat, desc: bool)
    requires pos < |a| && pos < |b|
  {
    if desc then Lower(b[pos], a[pos]) else Lower(a[pos], b[pos])
  }

  /** Every row has the column, and its values are all strings or all numbers. */
  ghost predicate Uniform(rows: seq<seq<Val>>, pos: nat) {
    && (forall i :: 0 <= i < |rows| ==> pos < |rows[i]|)
    && ((forall i :: 0 <= i < |rows| ==> rows[i][pos].VS?) || (forall i :: 0 <= i < |rows| ==> !rows[i][pos].VS?))
  }

  /** Numbers by value, strings bytewise. */
  ghost predicate AtMost(a: Val, b: Val) {
    if a.VS? && b.VS? then TextAtMost(a.s, b.s) else !a.VS? && !b.VS? && NumberOf(a) <= NumberOf(b)
  }

  ghost function NumberOf(v: Val): real
    requires !v.VS?
  {
    if v.VI? then v.i as real else v.f
  }

  /** The column rises, or falls if that is asked for. */
  ghost predicate Sorted(rows: seq<seq<Val>>, pos: nat, desc: bool)
    requires forall i :: 0 <= i < |rows| ==> pos < |rows[i]|
  {
    forall i, j :: 0 <= i < j < |rows| ==> if desc then AtMost(rows[j][pos], rows[i][pos]) else AtMost(rows[i][pos], rows[j][pos])
  }

  lemma LowerIs(a: Val, b: Val)
    requires a.VS? <==> b.VS?
    ensures Lower(a, b) <==> !AtMost(b, a)
  {
    if a.VS? {
      LessIs(a.s, b.s);
    }
  }

  ghost predicate NoInversion(rows: seq<seq<Val>>, pos: nat, desc: bool)
    requires forall i :: 0 <= i < |rows| ==> pos < |rows[i]|
  {
    forall i, j :: 0 <= i < j < |rows| ==> !Precedes(rows[j], rows[i], pos, desc)
  }

  lemma NoInversionIsSorted(rows: seq<seq<Val>>, pos: nat, desc: bool)
    requires Uniform(rows, pos) && NoInversion(rows, pos, desc)
    ensures Sorted(rows, pos, desc)
  {
    hide Lower, AtMost;
    forall i, j | 0 <= i < j < |rows|
      ensures if desc then AtMost(rows[j][pos], rows[i][pos]) else AtMost(rows[i][pos], rows[j][pos])
    {
      LowerIs(rows[i][pos], rows[j][pos]);
      LowerIs(rows[j][pos], rows[i][pos]);
    }
  }

  lemma UniformPermutes(a: seq<seq<Val>>, b: seq<seq<Val>>, pos: nat)
    requires Uniform(a, pos) && multiset(a) == multiset(b)
    ensures Uniform(b, pos)
  {
    forall j | 0 <= j < |b| ensures b[j] in a {
      assert b[j] in multiset(b);
    }
  }

  lemma LowerTransitive(a: Val, b: Val, c: Val)
    requires (a.VS? <==> b.VS?) && (b.VS? <==> c.VS?)
    requires !Lower(a, b) && !Lower(b, c)
    ensures !Lower(a, c)
  {
    if a.VS? {
      LessTransitive(a.s, b.s, c.s);
    }
  }

  lemma LowerAsymmetric(a: Val, b: Val)
    requires Lower(a, b)
    ensures !Lower(b, a)
  {
    if a.VS? {
      LessAsymmetric(a.s, b.s);
    }
  }

  /** Where a row goes: before the first one it precedes. */
  method PlaceFor(sorted: seq<seq<Val>>, row: seq<Val>, pos: nat, desc: bool) returns (k: nat)
    requires pos < |row| && forall i :: 0 <= i < |sorted| ==> pos < |sorted[i]|
    ensures k <= |sorted| && (forall i :: 0 <= i < k ==> !Precedes(row, sorted[i], pos, desc))
    ensures k < |sorted| ==> Precedes(row, sorted[k], pos, desc)
  {
    k := 0;
    while k < |sorted| && !Precedes(row, sorted[k], pos, desc)
      invariant k <= |sorted| && forall i :: 0 <= i < k ==> !Precedes(row, sorted[i], pos, desc)
    {
      k := k + 1;
    }
  }

  lemma Inserted(sorted: seq<seq<Val>>, row: seq<Val>, k: nat, pos: nat, desc: bool)
    requires Uniform(sorted + [row], pos) && k <= |sorted|
    requires (forall i :: 0 <= i < |sorted| ==> pos < |sorted[i]|) && pos < |row| && NoInversion(sorted, pos, desc)
    requires forall i :: 0 <= i < k ==> !Precedes(row, sorted[i], pos, desc)
    requires k < |sorted| ==> Precedes(row, sorted[k], pos, desc)
    ensures var r := sorted[..k] + [row] + sorted[k..];
            && (forall i :: 0 <= i < |r| ==> pos < |r[i]|) && NoInversion(r, pos, desc)
  {
    hide Lower;
    var r := sorted[..k] + [row] + sorted[k..];
    var all := sorted + [row];
    assert all[|sorted|] == row && forall i :: 0 <= i < |sorted| ==> all[i] == sorted[i];
    forall i | k <= i < |sorted| ensures !Precedes(sorted[i], row, pos, desc) {
      var a, b, c := sorted[i][pos], sorted[k][pos], row[pos];
      if desc {
        LowerAsymmetric(b, c);
        if i > k {
          LowerTransitive(c, b, a);
        }
      } else {
        LowerAsymmetric(c, b);
        if i > k {
          LowerTransitive(a, b, c);
        }
      }
    }
    forall i | 0 <= i < |r| ensures pos < |r[i]| && r[i] == (if i < k then sorted[i] else if i == k then row else sorted[i - 1]) {
    }
  }

  method SortRows(rows: seq<seq<Val>>, pos: nat, desc: bool) returns (sorted: seq<seq<Val>>)
    requires Uniform(rows, pos)
    ensures multiset(sorted) == multiset(rows) && (forall i :: 0 <= i < |sorted| ==> pos < |sorted[i]|)
    ensures Sorted(sorted, pos, desc)
  {
    hide NoInversion, Precedes, Sorted;
    sorted := [];
    NothingInverted(pos, desc);
    for i := 0 to |rows|
      invariant multiset(sorted) == multiset(rows[..i])
      invariant (forall j :: 0 <= j < |sorted| ==> pos < |sorted[j]|) && NoInversion(sorted, pos, desc)
    {
      var k := PlaceFor(sorted, rows[i], pos, desc);
      UniformPart(rows, i, sorted, pos);
      Inserted(sorted, rows[i], k, pos, desc);
      InsertedMultiset(sorted, rows[i], k);
      assert rows[..i + 1] == rows[..i] + [rows[i]];
      sorted := sorted[..k] + [rows[i]] + sorted[k..];
    }
    assert rows[..|rows|] == rows;
    UniformPermutes(rows, sorted, pos);
    NoInversionIsSorted(sorted, pos, desc);
  }

  lemma InsertedMultiset(sorted: seq<seq<Val>>, row: seq<Val>, k: nat)
    requires k <= |sorted|
    ensures multiset(sorted[..k] + [row] + sorted[k..]) == multiset(sorted) + multiset{row}
  {
    assert sorted == sorted[..k] + sorted[k..];
  }

  lemma NothingInverted(pos: nat, desc: bool)
    ensures NoInversion([], pos, desc)
  {
  }

  lemma UniformPart(rows: seq<seq<Val>>, i: nat, part: seq<seq<Val>>, pos: nat)
    requires Uniform(rows, pos) && i < |rows| && multiset(part) == multiset(rows[..i])
    ensures Uniform(part + [rows[i]], pos)
  {
    forall j | 0 <= j < |part| ensures part[j] in rows {
      assert part[j] in multiset(part);
      assert part[j] in rows[..i];
    }
  }

  /** An order of the rows that ORDER BY permits. */
  ghost predicate IsOrder(sorted: seq<seq<Val>>, all: seq<seq<Val>>, orderBy: Option<(nat, bool)>) {
    && multiset(sorted) == multiset(all)
    && match orderBy
       case None => sorted == all
       case Some((pos, desc)) => (forall i :: 0 <= i < |sorted| ==> pos < |sorted[i]|) && Sorted(sorted, pos, desc)
  }

  /** `rows` is a prefix, as long as the limit allows, of such an order. */
  ghost predicate IsTopN(rows: seq<seq<Val>>, all: seq<seq<Val>>, orderBy: Option<(nat, bool)>, limit: Option<nat>) {
    exists sorted :: IsOrder(sorted, all, orderBy)
      && rows == (if limit.Some? && limit.value < |sorted| then sorted[..limit.value] else sorted)
  }

  /** The tail of `execute`. */
  method OrderAndLimit(all: seq<seq<Val>>, orderBy: Option<(nat, bool)>, limit: Option<nat>) returns (rows: seq<seq<Val>>)
    requires orderBy.Some? ==> Uniform(all, orderBy.value.0)
    ensures IsTopN(rows, all, orderBy, limit)
  {
    rows := all;
    if orderBy.Some? {
      rows := SortRows(all, orderBy.value.0, orderBy.value.1);
    }
    ghost var sorted := rows;
    assert IsOrder(sorted, all, orderBy);
    if limit.Some? && limit.value < |rows| {
      rows := rows[..limit.value];
    }
  }

  // ---- the results of a query can be ordered by any of its columns ----

  lemma CellKind(q: Query, catalog: map<string, TableData>, j: JoinedRow, c: Place)
    requires Resolved(q, catalog) && GoodCatalog(catalog) && HasPlace(q.binds, c) && j in NaiveJoin(q, DataOf(q, catalog))
    ensures CellOf(j, c).S? <==> TypeAt(q.binds, c) == Utf8
  {
    hide NaiveJoin, GoodTable, TableRowsOf;
    var b := q.binds[c.scan];
    assert b in q.binds;
    NaiveMembers(q, DataOf(q, catalog), j);
    TableFits(catalog[b.table].files, b.fields);
    assert RowFits(j[c.scan], b.fields);
  }

  lemma {:induction false} GroupMembers(groupBy: seq<Place>, js: seq<JoinedRow>, key: seq<Cell>)
    ensures forall j :: j in Group(groupBy, js, key) ==> j in js
  {
    hide KeyOf;
    if js != [] {
      GroupMembers(groupBy, js[..|js| - 1], key);
    }
  }

  /** Whether a column of the output holds strings. */
  ghost predicate IsText(q: Query, it: Item) {
    it.ItemCol? && HasPlace(q.binds, it.c) && TypeAt(q.binds, it.c) == Utf8
  }

  lemma PlainKind(q: Query, catalog: map<string, TableData>, js: seq<JoinedRow>, r: seq<Val>, pos: nat)
    requires Resolved(q, catalog) && GoodCatalog(catalog) && js == NaiveJoin(q, DataOf(q, catalog))
    requires pos < |q.select| && r in Map((j: JoinedRow) => PlainRow(q.select, j), js)
    ensures |r| == |q.select| && (r[pos].VS? <==> IsText(q, q.select[pos]))
  {
    hide NaiveJoin, CellOf, Resolved, GoodCatalog;
    var f := (j: JoinedRow) => PlainRow(q.select, j);
    var i :| 0 <= i < |js| && Map(f, js)[i] == r;
    assert r == f(js[i]);
    if q.select[pos].ItemCol? {
      SelectBound(q, catalog, pos);
      CellKind(q, catalog, js[i], q.select[pos].c);
    }
  }

  lemma SelectBound(q: Query, catalog: map<string, TableData>, pos: nat)
    requires Resolved(q, catalog) && pos < |q.select| && q.select[pos].ItemCol?
    ensures HasPlace(q.binds, q.select[pos].c)
  {
    assert q.select[pos] in q.select;
    assert Planner.ItemBound(q.binds, q.select[pos]);
  }

  lemma GroupKind(q: Query, catalog: map<string, TableData>, js: seq<JoinedRow>, key: seq<Cell>, pos: nat)
    requires Resolved(q, catalog) && GoodCatalog(catalog) && js == NaiveJoin(q, DataOf(q, catalog))
    requires pos < |q.select| && Group(q.groupBy, js, key) != []
    ensures GroupRow(q.select, Group(q.groupBy, js, key))[pos].VS? <==> IsText(q, q.select[pos])
  {
    hide NaiveJoin, CellOf, Resolved, GoodCatalog, Group;
    var rows := Group(q.groupBy, js, key);
    GroupMembers(q.groupBy, js, key);
    assert rows[0] in js;
    if q.select[pos].ItemCol? {
      SelectBound(q, catalog, pos);
      CellKind(q, catalog, rows[0], q.select[pos].c);
    }
  }

  lemma ResultUniform(q: Query, catalog: map<string, TableData>, rows: seq<seq<Val>>, pos: nat)
    requires Resolved(q, catalog) && GoodCatalog(catalog) && pos < |q.select| && IsResult(q, DataOf(q, catalog), rows)
    ensures Uniform(rows, pos)
  {
    hide NaiveJoin, Resolved, GoodCatalog, GroupRow, PlainRow, IsText, HasAgg;
    var js := NaiveJoin(q, DataOf(q, catalog));
    forall i | 0 <= i < |rows| ensures |rows[i]| == |q.select| && (rows[i][pos].VS? <==> IsText(q, q.select[pos])) {
      if HasAgg(q.select) {
        var keys :| ListsKeys(keys, q.groupBy, js) && rows == GroupRows(q.select, q.groupBy, js, keys);
        GroupKind(q, catalog, js, keys[i], pos);
      } else {
        assert rows[i] in multiset(rows);
        PlainKind(q, catalog, js, rows[i], pos);
      }
    }
  }

  /** The whole of a query: the first rows, in the order asked for, of a result of its naive meaning. ORDER BY
      names a column of the select list. */
  method RunOrdered(ast: Ast, catalog: map<string, TableData>, leftBuilds: bool, broadcast: bool, timing: Planner.PhysicalPlan -> Timing)
    returns (r: Result<seq<seq<Val>>, Error>, ghost all: seq<seq<Val>>)
    requires GoodCatalog(catalog)
    requires forall q :: Asks(catalog, ast, q) ==> Meaningful(q)
    requires ast.orderBy.Some? ==> ast.orderBy.value.0 < |ast.select|
    requires forall p: Planner.PhysicalPlan :: Executable(p) ==> Possible(p, timing(p))
    ensures !Answerable(catalog, ast) ==> r.Err? && Refused(catalog, ast, r.error)
    ensures forall q :: Asks(catalog, ast, q) ==>
      && (r.Ok? ==> IsResult(q, DataOf(q, catalog), all) && IsTopN(r.value, all, ast.orderBy, ast.limit))
      && (r.Err? ==> r == Err(ShortBound) && Planner.SomeShortBound(catalog, q.binds))
  {
    hide Asks, Refused, IsResult, GoodCatalog, Meaningful, Executable, Possible, IsTopN, Planner.SomeShortBound, Resolved, Uniform;
    r := RunQuery(ast, catalog, leftBuilds, broadcast, timing);
    all := [];
    if r.Ok? {
      ghost var q :| Asks(catalog, ast, q);
      all := r.value;
      ResolveResolves(catalog, ast, q);
      SelectSize(catalog, ast, q);
      if ast.orderBy.Some? {
        ResultUniform(q, catalog, all, ast.orderBy.value.0);
      }
      var rows := OrderAndLimit(r.value, ast.orderBy, ast.limit);
      r := Ok(rows);
    }
  }

  lemma SelectSize(catalog: map<string, TableData>, ast: Ast, q: Query)
    requires Asks(catalog, ast, q)
    ensures |q.select| == |ast.select|
  {
  }
}
