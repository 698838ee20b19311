/** Names bound, and physical plans. */
module Plan {
  import opened Wrappers
  import opened Bytes
  import opened Bounds
  import opened Cursor
  import opened BlitzFooter
  import opened BlitzChunks
  import opened BlitzReader
  import opened LateScan
  import opened Rows

  // ---- tables ----

  datatype FieldDef = FieldDef(name: string, id: int, dtype: DataType)

  /** A data file: the bounds its manifest entry has, its bytes, and the rows its row groups were written with, which
      only specifications look at. */
  datatype DataFile = DataFile(bounds: seq<Bound>, bytes: seq<byte>, groups: seq<seq<Row>>)

  datatype TableData = TableData(fields: seq<FieldDef>, files: seq<DataFile>)

  // ---- queries as written ----

  datatype AggFn = Sum | Count | Min | Max | Avg

  datatype ColRef = ColRef(qual: string, name: string)

  datatype SelectItem = SelectCol(c: ColRef) | SelectAgg(f: AggFn, c: ColRef)

  datatype AstPred = AstPred(c: ColRef, op: Op, lit: Literal)

  datatype AstJoin = AstJoin(table: string, alias: string, left: ColRef, right: ColRef)

  datatype Ast = Ast(
    select: seq<SelectItem>, table: string, alias: string, joins: seq<AstJoin>, preds: seq<AstPred>,
    groupBy: seq<ColRef>, orderBy: Option<(nat, bool)>, limit: Option<nat>)

  datatype Error =
    | TableNotFound | UnknownAlias | ColumnNotFound | Ambiguous | ColumnNotInTable
    | ManyJoins | KeyNotInt64 | AggNotInt64 | ShortBound

  // ---- names ----

  datatype Binding = Binding(table: string, alias: string, fields: seq<FieldDef>)

  function HasField(fields: seq<FieldDef>, name: string): bool {
    exists i :: 0 <= i < |fields| && fields[i].name == name
  }

  function AliasAt(binds: seq<Binding>, qual: string, from: nat): Option<nat>
    decreases |binds| - from
  {
    if from >= |binds| then None
    else if binds[from].alias == qual || binds[from].table == qual then Some(from)
    else AliasAt(binds, qual, from + 1)
  }

  function Hits(binds: seq<Binding>, name: string): seq<nat> {
    if binds == [] then [] else
    var n := |binds| - 1;
    Hits(binds[..n], name) + if HasField(binds[n].fields, name) then [n] else []
  }

  /** `find_scan`: by alias or table name, or the one table that has the column. */
  function FindScan(binds: seq<Binding>, c: ColRef): Result<nat, Error> {
    if c.qual != "" then
      match AliasAt(binds, c.qual, 0)
      case Some(s) => Ok(s)
      case None => Err(UnknownAlias)
    else
      var hits := Hits(binds, c.name);
      if |hits| == 1 then Ok(hits[0]) else if hits == [] then Err(ColumnNotFound) else Err(Ambiguous)
  }

  function FieldAt(fields: seq<FieldDef>, name: string, from: nat): Option<nat>
    decreases |fields| - from
  {
    if from >= |fields| then None else if fields[from].name == name then Some(from) else FieldAt(fields, name, from + 1)
  }

  /** A column of the query: which scan, and which column of its schema. */
  datatype Place = Place(scan: nat, col: nat)

  /** The place is the first column of the asked name, in the first table that goes by the asked qualifier, or without
      one in the only table that has such a column. */
  ghost predicate Names(binds: seq<Binding>, c: ColRef, p: Place) {
    && HasPlace(binds, p) && binds[p.scan].fields[p.col].name == c.name
    && (forall i :: 0 <= i < p.col ==> binds[p.scan].fields[i].name != c.name)
    && if c.qual != "" then FirstBy(binds, c.qual, p.scan)
       else forall s :: 0 <= s < |binds| ==> (HasField(binds[s].fields, c.name) <==> s == p.scan)
  }

  predicate GoesBy(b: Binding, qual: string) {
    b.alias == qual || b.table == qual
  }

  /** The first table that goes by a qualifier. */
  ghost predicate FirstBy(binds: seq<Binding>, qual: string, s: nat) {
    s < |binds| && GoesBy(binds[s], qual) && forall t :: 0 <= t < s ==> !GoesBy(binds[t], qual)
  }

  /** Why a name is not bound. */
  ghost predicate Unbound(binds: seq<Binding>, c: ColRef, e: Error) {
    match e
    case UnknownAlias => c.qual != "" && forall s :: 0 <= s < |binds| ==> !GoesBy(binds[s], c.qual)
    case ColumnNotFound => c.qual == "" && forall s :: 0 <= s < |binds| ==> !HasField(binds[s].fields, c.name)
    case Ambiguous =>
      c.qual == "" && exists s, t :: 0 <= s < t < |binds| && HasField(binds[s].fields, c.name) && HasField(binds[t].fields, c.name)
    case ColumnNotInTable =>
      c.qual != "" && exists s :: 0 <= s < |binds| && FirstBy(binds, c.qual, s) && !HasField(binds[s].fields, c.name)
    case _ => false
  }

  /** `find_scan` then `col_meta`. */
  function Bind(binds: seq<Binding>, c: ColRef): (r: Result<Place, Error>)
    ensures r.Ok? ==> HasPlace(binds, r.value)
    ensures match r case Ok(p) => Names(binds, c, p) case Err(e) => Unbound(binds, c, e)
  {
    FindScanFinds(binds, c);
    match FindScan(binds, c)
    case Err(e) => Err(e)
    case Ok(s) =>
      FieldAtFinds(binds[s].fields, c.name, 0);
      match FieldAt(binds[s].fields, c.name, 0)
      case None => Err(ColumnNotInTable)
      case Some(i) => Ok(Place(s, i))
  }

  predicate HasPlace(binds: seq<Binding>, c: Place) {
    c.scan < |binds| && c.col < |binds[c.scan].fields|
  }

  lemma AliasAtFinds(binds: seq<Binding>, qual: string, from: nat)
    ensures match AliasAt(binds, qual, from)
            case None => forall s :: from <= s < |binds| ==> !GoesBy(binds[s], qual)
            case Some(s) => from <= s < |binds| && GoesBy(binds[s], qual) && forall t :: from <= t < s ==> !GoesBy(binds[t], qual)
    decreases |binds| - from
  {
  }

  /** The hits are the tables that have the column, in order. */
  lemma HitsAre(binds: seq<Binding>, name: string)
    ensures forall i :: 0 <= i < |Hits(binds, name)| ==>
      Hits(binds, name)[i] < |binds| && HasField(binds[Hits(binds, name)[i]].fields, name)
    ensures forall i, j :: 0 <= i < j < |Hits(binds, name)| ==> Hits(binds, name)[i] < Hits(binds, name)[j]
    ensures forall s :: 0 <= s < |binds| && HasField(binds[s].fields, name) ==> s in Hits(binds, name)
  {
    hide HasField;
  }

  lemma FindScanFinds(binds: seq<Binding>, c: ColRef)
    ensures match FindScan(binds, c)
            case Err(e) => !e.ColumnNotInTable? && Unbound(binds, c, e)
            case Ok(s) =>
              && s < |binds|
              && if c.qual != "" then GoesBy(binds[s], c.qual) && forall t :: 0 <= t < s ==> !GoesBy(binds[t], c.qual)
                 else forall t :: 0 <= t < |binds| ==> (HasField(binds[t].fields, c.name) <==> t == s)
  {
    hide HasField;
    if c.qual != "" {
      AliasAtFinds(binds, c.qual, 0);
    } else {
      HitsAre(binds, c.name);
      var hits := Hits(binds, c.name);
      if |hits| == 1 {
        assert hits[0] in hits;
      } else if hits != [] {
        assert hits[0] < hits[1];
      }
    }
  }

  lemma FieldAtFinds(fields: seq<FieldDef>, name: string, from: nat)
    ensures match FieldAt(fields, name, from)
            case None => forall i :: from <= i < |fields| ==> fields[i].name != name
            case Some(i) => from <= i < |fields| && fields[i].name == name && forall j :: from <= j < i ==> fields[j].name != name
    decreases |fields| - from
  {
  }

  function TypeAt(binds: seq<Binding>, c: Place): DataType
    requires HasPlace(binds, c)
  {
    binds[c.scan].fields[c.col].dtype
  }

  // ---- the query, bound: what it asks for, before any planning ----

  datatype QueryPred = QueryPred(c: Place, op: Op, lit: Literal)

  datatype Item = ItemCol(c: Place) | ItemAgg(f: AggFn, c: Place) | ItemStar(f: AggFn)

  datatype Query = Query(
    binds: seq<Binding>, preds: seq<QueryPred>, join: Option<(Place, Place)>, select: seq<Item>, groupBy: seq<Place>)

  /** Each element in order, up to the first error. */
  function Traverse<A, B>(f: A -> Result<B, Error>, xs: seq<A>): Result<seq<B>, Error> {
    if xs == [] then Ok([]) else
    var n := |xs| - 1;
    match Traverse(f, xs[..n])
    case Err(e) => Err(e)
    case Ok(ys) =>
      match f(xs[n])
      case Err(e) => Err(e)
      case Ok(y) => Ok(ys + [y])
  }

  lemma {:induction false} TraverseStops<A, B>(f: A -> Result<B, Error>, xs: seq<A>, i: nat)
    requires i <= |xs|
    ensures Traverse(f, xs[..i]).Err? ==> Traverse(f, xs) == Traverse(f, xs[..i])
    decreases |xs|
  {
    if i < |xs| {
      var n := |xs| - 1;
      TraverseStops(f, xs[..n], i);
      assert xs[..n][..i] == xs[..i];
    } else {
      assert xs[..i] == xs;
    }
  }

  lemma TraverseNext<A, B>(f: A -> Result<B, Error>, xs: seq<A>, i: nat)
    requires i < |xs| && Traverse(f, xs[..i]).Ok?
    ensures match f(xs[i])
            case Err(e) => Traverse(f, xs) == Err(e)
            case Ok(y) => Traverse(f, xs[..i + 1]) == Ok(Traverse(f, xs[..i]).value + [y])
  {
    assert xs[..i + 1][..i] == xs[..i];
    TraverseStops(f, xs, i + 1);
  }

  // ---- what name resolution has to give, without saying how ----

  ghost predicate TableAsked(catalog: map<string, TableData>, table: string, alias: string, b: Binding) {
    table in catalog && b.table == table && b.alias == alias && b.fields == catalog[table].fields
  }

  /** The FROM table, then the joined ones in order. */
  ghost predicate TablesAsked(catalog: map<string, TableData>, ast: Ast, binds: seq<Binding>) {
    && |binds| == 1 + |ast.joins| && TableAsked(catalog, ast.table, ast.alias, binds[0])
    && forall i :: 0 <= i < |ast.joins| ==> TableAsked(catalog, ast.joins[i].table, ast.joins[i].alias, binds[i + 1])
  }

  ghost predicate PredAsked(binds: seq<Binding>, p: AstPred, q: QueryPred) {
    Names(binds, p.c, q.c) && q.op == p.op && q.lit == p.lit
  }

  ghost predicate PredsAsked(binds: seq<Binding>, preds: seq<AstPred>, qs: seq<QueryPred>) {
    |qs| == |preds| && forall i :: 0 <= i < |preds| ==> PredAsked(binds, preds[i], qs[i])
  }

  ghost predicate ItemAsked(binds: seq<Binding>, it: SelectItem, item: Item) {
    match it
    case SelectCol(c) => item.ItemCol? && Names(binds, c, item.c)
    case SelectAgg(f, c) =>
      if c.name == "*" then item.ItemStar? && item.f == f
      else item.ItemAgg? && item.f == f && Names(binds, c, item.c) && TypeAt(binds, item.c) == Int64
  }

  ghost predicate ItemsAsked(binds: seq<Binding>, select: seq<SelectItem>, items: seq<Item>) {
    |items| == |select| && forall i :: 0 <= i < |select| ==> ItemAsked(binds, select[i], items[i])
  }

  ghost predicate GroupAsked(binds: seq<Binding>, cols: seq<ColRef>, places: seq<Place>) {
    |places| == |cols| && forall i :: 0 <= i < |cols| ==> Names(binds, cols[i], places[i])
  }

  ghost predicate JoinAsked(binds: seq<Binding>, joins: seq<AstJoin>, on: Option<(Place, Place)>) {
    match on
    case None => joins == []
    case Some((l, r)) =>
      && |joins| == 1 && Names(binds, joins[0].left, l) && Names(binds, joins[0].right, r)
      && TypeAt(binds, l) == Int64 && TypeAt(binds, r) == Int64
  }

  /** The query that the text asks for: the same functions, operators and literals, over the columns it names. */
  ghost predicate Asks(catalog: map<string, TableData>, ast: Ast, q: Query) {
    && TablesAsked(catalog, ast, q.binds) && PredsAsked(q.binds, ast.preds, q.preds) && JoinAsked(q.binds, ast.joins, q.join)
    && ItemsAsked(q.binds, ast.select, q.select) && GroupAsked(q.binds, ast.groupBy, q.groupBy)
  }

  ghost predicate Answerable(catalog: map<string, TableData>, ast: Ast) {
    exists q :: Asks(catalog, ast, q)
  }

  // ---- and why it gives nothing: the first problem, in the order tables, predicates, join, select, group by ----

  ghost predicate TablesKnown(catalog: map<string, TableData>, ast: Ast) {
    ast.table in catalog && forall i :: 0 <= i < |ast.joins| ==> ast.joins[i].table in catalog
  }

  ghost predicate Named(binds: seq<Binding>, c: ColRef) {
    exists p :: Names(binds, c, p)
  }

  ghost predicate PredsRefused(binds: seq<Binding>, preds: seq<AstPred>, e: Error) {
    exists i :: 0 <= i < |preds| && Unbound(binds, preds[i].c, e) && forall j :: 0 <= j < i ==> Named(binds, preds[j].c)
  }

  ghost predicate GroupRefused(binds: seq<Binding>, cols: seq<ColRef>, e: Error) {
    exists i :: 0 <= i < |cols| && Unbound(binds, cols[i], e) && forall j :: 0 <= j < i ==> Named(binds, cols[j])
  }

  ghost predicate ItemRefused(binds: seq<Binding>, it: SelectItem, e: Error) {
    match it
    case SelectCol(c) => Unbound(binds, c, e)
    case SelectAgg(_, c) =>
      c.name != "*" && (Unbound(binds, c, e) || (e == AggNotInt64 && exists p :: Names(binds, c, p) && TypeAt(binds, p) != Int64))
  }

  ghost predicate ItemBindable(binds: seq<Binding>, it: SelectItem) {
    exists item :: ItemAsked(binds, it, item)
  }

  ghost predicate ItemsRefused(binds: seq<Binding>, select: seq<SelectItem>, e: Error) {
    exists i :: 0 <= i < |select| && ItemRefused(binds, select[i], e)
      && forall j :: 0 <= j < i ==> ItemBindable(binds, select[j])
  }

  /** Of the two sides of ON, tables are looked for before columns, and the left side before the right. */
  ghost predicate JoinRefused(binds: seq<Binding>, joins: seq<AstJoin>, e: Error) {
    if |joins| != 1 then joins != [] && e == ManyJoins else
    var l, r := joins[0].left, joins[0].right;
    if !HasTable(binds, l) then Unbound(binds, l, e) else
    if !HasTable(binds, r) then Unbound(binds, r, e) else
    if !Named(binds, l) then Unbound(binds, l, e) else
    if !Named(binds, r) then Unbound(binds, r, e) else
    e == KeyNotInt64 && exists p, q :: Names(binds, l, p) && Names(binds, r, q) && (TypeAt(binds, p) != Int64 || TypeAt(binds, q) != Int64)
  }

  /** A name's table is known, whether or not it has the column. */
  ghost predicate HasTable(binds: seq<Binding>, c: ColRef) {
    Named(binds, c) || Unbound(binds, c, ColumnNotInTable)
  }

  ghost predicate BoundRefused(binds: seq<Binding>, ast: Ast, e: Error) {
    || PredsRefused(binds, ast.preds, e)
    || ((exists qs :: PredsAsked(binds, ast.preds, qs))
        && (|| JoinRefused(binds, ast.joins, e)
            || ((exists on :: JoinAsked(binds, ast.joins, on))
                && (|| ItemsRefused(binds, ast.select, e)
                    || ((exists items :: ItemsAsked(binds, ast.select, items)) && GroupRefused(binds, ast.groupBy, e))))))
  }

  ghost predicate Refused(catalog: map<string, TableData>, ast: Ast, e: Error) {
    if TablesKnown(catalog, ast) then exists binds :: TablesAsked(catalog, ast, binds) && BoundRefused(binds, ast, e)
    else e == TableNotFound
  }

  // ---- name resolution ----

  function BindTable(catalog: map<string, TableData>, name: string, alias: string): Result<Binding, Error> {
    if name in catalog then Ok(Binding(name, alias, catalog[name].fields)) else Err(TableNotFound)
  }

  function TableBinder(catalog: map<string, TableData>): AstJoin -> Result<Binding, Error> {
    (j: AstJoin) => BindTable(catalog, j.table, j.alias)
  }

  function BindTables(catalog: map<string, TableData>, ast: Ast): Result<seq<Binding>, Error> {
    match BindTable(catalog, ast.table, ast.alias)
    case Err(e) => Err(e)
    case Ok(b) =>
      match Traverse(TableBinder(catalog), ast.joins)
      case Err(e) => Err(e)
      case Ok(bs) => Ok([b] + bs)
  }

  function BindPred(binds: seq<Binding>, p: AstPred): (r: Result<QueryPred, Error>)
    ensures match r case Ok(q) => PredAsked(binds, p, q) case Err(e) => Unbound(binds, p.c, e)
  {
    match Bind(binds, p.c)
    case Err(e) => Err(e)
    case Ok(c) => Ok(QueryPred(c, p.op, p.lit))
  }

  function PredBinder(binds: seq<Binding>): AstPred -> Result<QueryPred, Error> {
    (p: AstPred) => BindPred(binds, p)
  }

  function BindJoin(binds: seq<Binding>, joins: seq<AstJoin>): Result<Option<(Place, Place)>, Error> {
    if joins == [] then Ok(None) else
    if |joins| > 1 then Err(ManyJoins) else
    match (FindScan(binds, joins[0].left), FindScan(binds, joins[0].right))
    case (Err(e), _) => Err(e)
    case (_, Err(e)) => Err(e)
    case _ =>
      match (Bind(binds, joins[0].left), Bind(binds, joins[0].right))
      case (Err(e), _) => Err(e)
      case (_, Err(e)) => Err(e)
      case (Ok(l), Ok(r)) =>
        if TypeAt(binds, l) != Int64 || TypeAt(binds, r) != Int64 then Err(KeyNotInt64) else Ok(Some((l, r)))
  }

  function BindItem(binds: seq<Binding>, it: SelectItem): (r: Result<Item, Error>)
    ensures match r case Ok(item) => ItemAsked(binds, it, item) case Err(e) => ItemRefused(binds, it, e)
  {
    match it
    case SelectCol(c) =>
      (match Bind(binds, c)
       case Err(e) => Err(e)
       case Ok(q) => Ok(ItemCol(q)))
    case SelectAgg(f, c) =>
      if c.name == "*" then Ok(ItemStar(f)) else
      match Bind(binds, c)
      case Err(e) => Err(e)
      case Ok(q) => if TypeAt(binds, q) != Int64 then Err(AggNotInt64) else Ok(ItemAgg(f, q))
  }

  function ItemBinder(binds: seq<Binding>): SelectItem -> Result<Item, Error> {
    (it: SelectItem) => BindItem(binds, it)
  }

  function ColBinder(binds: seq<Binding>): ColRef -> Result<Place, Error> {
    (c: ColRef) => Bind(binds, c)
  }

  /** Names resolved, nothing planned: the first problem in the order tables, predicates, join, select, group by. */
  function Resolve(catalog: map<string, TableData>, ast: Ast): Result<Query, Error> {
    match BindTables(catalog, ast)
    case Err(e) => Err(e)
    case Ok(binds) =>
      match Traverse(PredBinder(binds), ast.preds)
      case Err(e) => Err(e)
      case Ok(preds) =>
        match BindJoin(binds, ast.joins)
        case Err(e) => Err(e)
        case Ok(join) =>
          match Traverse(ItemBinder(binds), ast.select)
          case Err(e) => Err(e)
          case Ok(select) =>
            match Traverse(ColBinder(binds), ast.groupBy)
            case Err(e) => Err(e)
            case Ok(group) => Ok(Query(binds, preds, join, select, group))
  }
}
