/** The planner. */
module Planner {
  import opened Wrappers
  import opened Bytes
  import opened Bounds
  import opened Cursor
  import opened BlitzFooter
  import opened BlitzChunks
  import opened BlitzReader
  import opened LateScan
  import opened Rows
  import opened Plan
  import opened Resolution

  datatype ScanNode = ScanNode(bind: Binding, cols: seq<nat>, preds: seq<Pred>, files: seq<DataFile>)

  datatype Strategy = Broadcast | Shuffle(partitions: nat)

  datatype JoinNode = JoinNode(build: nat, probe: nat, buildKey: nat, probeKey: nat, strategy: Strategy)

  /** A column of a scan's output: which scan, and the position in its `cols`. */
  datatype OutExpr = OutCol(s: nat, p: nat) | OutAgg(f: AggFn, s: nat, p: nat) | OutStar(f: AggFn)

  datatype PhysicalPlan = PhysicalPlan(
    scans: seq<ScanNode>, join: Option<JoinNode>, output: seq<OutExpr>, groupBy: seq<(nat, nat)>,
    orderBy: Option<(nat, bool)>, limit: Option<nat>)

  // ---- what a plan has to do with its query ----

  /** The predicates of the query on scan `s`, in order. */
  function PredsOn(preds: seq<QueryPred>, s: nat): seq<Pred> {
    if preds == [] then [] else
    var q := preds[|preds| - 1];
    PredsOn(preds[..|preds| - 1], s) + if q.c.scan == s then [Pred(q.c.col, q.op, q.lit)] else []
  }

  /** Position `p` of scan `s` carries the place `c`. */
  ghost predicate Carries(scans: seq<ScanNode>, s: nat, p: nat, c: Place) {
    s == c.scan && s < |scans| && p < |scans[s].cols| && scans[s].cols[p] == c.col
  }

  ghost predicate CarriesItem(scans: seq<ScanNode>, o: OutExpr, it: Item) {
    match (o, it)
    case (OutCol(s, p), ItemCol(c)) => Carries(scans, s, p, c)
    case (OutAgg(f, s, p), ItemAgg(g, c)) => f == g && Carries(scans, s, p, c)
    case (OutStar(f), ItemStar(g)) => f == g
    case _ => false
  }

  /** Each scan reads existing columns, each once. */
  ghost predicate GoodScan(scan: ScanNode) {
    && (forall i :: 0 <= i < |scan.cols| ==> scan.cols[i] < |scan.bind.fields|)
    && forall i, j :: 0 <= i < j < |scan.cols| ==> scan.cols[i] != scan.cols[j]
  }

  ghost predicate Scans(scans: seq<ScanNode>, binds: seq<Binding>) {
    |scans| == |binds| && forall s :: 0 <= s < |scans| ==> scans[s].bind == binds[s] && GoodScan(scans[s])
  }

  ghost predicate Pushed(scans: seq<ScanNode>, preds: seq<QueryPred>) {
    forall s :: 0 <= s < |scans| ==> scans[s].preds == PredsOn(preds, s)
  }

  ghost predicate Selects(scans: seq<ScanNode>, output: seq<OutExpr>, select: seq<Item>) {
    |output| == |select| && forall i :: 0 <= i < |output| ==> CarriesItem(scans, output[i], select[i])
  }

  ghost predicate GroupsBy(scans: seq<ScanNode>, groupBy: seq<(nat, nat)>, cols: seq<Place>) {
    |groupBy| == |cols| && forall i :: 0 <= i < |groupBy| ==> Carries(scans, groupBy[i].0, groupBy[i].1, cols[i])
  }

  ghost predicate JoinsOn(scans: seq<ScanNode>, j: JoinNode, l: Place, r: Place) {
    || (Carries(scans, j.build, j.buildKey, l) && Carries(scans, j.probe, j.probeKey, r))
    || (Carries(scans, j.build, j.buildKey, r) && Carries(scans, j.probe, j.probeKey, l))
  }

  ghost predicate Joined(scans: seq<ScanNode>, join: Option<JoinNode>, on: Option<(Place, Place)>) {
    match (join, on)
    case (None, None) => true
    case (Some(j), Some((l, r))) => JoinsOn(scans, j, l, r) && (j.strategy.Shuffle? ==> j.strategy.partitions > 0)
    case _ => false
  }

  // ---- file pruning ----

  /** `file_prunes`. */
  function FilePrunes(f: DataFile, id: int, dtype: DataType, op: Op, lit: Literal): Option<bool> {
    match FindBound(f.bounds, id)
    case None => Some(false)
    case Some(b) =>
      match (dtype, lit)
      case (Int64, Int(l)) =>
        var lo :- DeLong(b.lo);
        var hi :- DeLong(b.hi);
        Some(ZonePrunes(lo, hi, op, l))
      case (Utf8, Str(s)) => Some(op == Eq && (Less(s, b.lo) || Less(b.hi, s)))
      case _ => Some(false)
  }

  /** Whether some cell within a bound could pass the predicate. */
  ghost predicate MayPass(b: Bound, op: Op, lit: Literal) {
    match lit
    case Int(l) =>
      DeLong(b.lo).Some? && DeLong(b.hi).Some? && exists v: i64 :: DeLong(b.lo).value <= v <= DeLong(b.hi).value && Hit(v, op, l)
    case Str(s) => TextAtMost(b.lo, s) && TextAtMost(s, b.hi)
  }

  /** A file is ruled out exactly if its bound for the column is legible and leaves nothing that could pass. */
  lemma FilePrunesIff(f: DataFile, id: int, dtype: DataType, op: Op, lit: Literal)
    requires Comparable(dtype, op, lit)
    ensures match FindBound(f.bounds, id)
            case None => FilePrunes(f, id, dtype, op, lit) == Some(false)
            case Some(b) =>
              && (FilePrunes(f, id, dtype, op, lit) == None <==> dtype == Int64 && (DeLong(b.lo) == None || DeLong(b.hi) == None))
              && (FilePrunes(f, id, dtype, op, lit).Some? && (dtype == Int64 ==> DeLong(b.lo).value <= DeLong(b.hi).value)
                  ==> (FilePrunes(f, id, dtype, op, lit).value <==> !MayPass(b, op, lit)))
  {
    hide FindBound, DeLong, Less, TextAtMost, Hit, ZonePrunes;
    var found := FindBound(f.bounds, id);
    if found.Some? {
      var lo, hi := DeLong(found.value.lo), DeLong(found.value.hi);
      if lit.Str? {
        LessIs(lit.s, found.value.lo);
        LessIs(found.value.hi, lit.s);
      } else if lo.Some? && hi.Some? && lo.value <= hi.value {
        ZonePrunesIff(lo.value, hi.value, op, lit.i);
      }
    }
  }

  /** The type of the first field with an id. */
  function TypeOfId(fields: seq<FieldDef>, id: int): Option<DataType> {
    if fields == [] then None else if fields[0].id == id then Some(fields[0].dtype) else TypeOfId(fields[1..], id)
  }

  /** Some predicate of the scan rules the file out; a predicate after the first that does is not tried. */
  function RuledOut(f: DataFile, fields: seq<FieldDef>, preds: seq<Pred>): Option<bool> {
    if preds == [] then Some(false) else
    var n := |preds| - 1;
    var before :- RuledOut(f, fields, preds[..n]);
    if before then Some(true) else
    if preds[n].col >= |fields| then None else
    var id := fields[preds[n].col].id;
    var dtype :- TypeOfId(fields, id);
    FilePrunes(f, id, dtype, preds[n].op, preds[n].lit)
  }

  function Retain(files: seq<DataFile>, fields: seq<FieldDef>, preds: seq<Pred>): Option<seq<DataFile>> {
    if files == [] then Some([]) else
    var n := |files| - 1;
    var before :- Retain(files[..n], fields, preds);
    var out :- RuledOut(files[n], fields, preds);
    Some(if out then before else before + [files[n]])
  }

  /** The predicate's column has no bound in the file, or one that leaves something that could pass. */
  ghost predicate Leaves(f: DataFile, fields: seq<FieldDef>, p: Pred) {
    p.col < |fields| &&
    match FindBound(f.bounds, fields[p.col].id)
    case None => true
    case Some(b) => MayPass(b, p.op, p.lit)
  }

  ghost predicate InOrder(b: Option<Bound>, lit: Literal) {
    b.Some? && lit.Int? && DeLong(b.value.lo).Some? && DeLong(b.value.hi).Some? ==> DeLong(b.value.lo).value <= DeLong(b.value.hi).value
  }

  /** A predicate on a column of its literal's type, the first with its id, with a bound that is not the wrong way round. */
  ghost predicate Boundable(f: DataFile, fields: seq<FieldDef>, p: Pred) {
    && p.col < |fields| && (forall k :: 0 <= k < p.col ==> fields[k].id != fields[p.col].id)
    && Comparable(fields[p.col].dtype, p.op, p.lit) && InOrder(FindBound(f.bounds, fields[p.col].id), p.lit)
  }

  lemma {:induction false} TypeOfFirst(fields: seq<FieldDef>, c: nat)
    requires c < |fields| && forall k :: 0 <= k < c ==> fields[k].id != fields[c].id
    ensures TypeOfId(fields, fields[c].id) == Some(fields[c].dtype)
    decreases |fields|
  {
    if c > 0 {
      TypeOfFirst(fields[1..], c - 1);
    }
  }

  ghost predicate AllBoundable(f: DataFile, fields: seq<FieldDef>, preds: seq<Pred>) {
    forall i :: 0 <= i < |preds| ==> Boundable(f, fields, preds[i])
  }

  lemma LeavesIff(f: DataFile, fields: seq<FieldDef>, p: Pred)
    requires Boundable(f, fields, p)
    requires FilePrunes(f, fields[p.col].id, fields[p.col].dtype, p.op, p.lit).Some?
    ensures FilePrunes(f, fields[p.col].id, fields[p.col].dtype, p.op, p.lit).value <==> !Leaves(f, fields, p)
  {
    hide FindBound, FilePrunes, MayPass, DeLong;
    FilePrunesIff(f, fields[p.col].id, fields[p.col].dtype, p.op, p.lit);
  }

  lemma {:induction false} RuledOutIff(f: DataFile, fields: seq<FieldDef>, preds: seq<Pred>)
    requires RuledOut(f, fields, preds).Some? && AllBoundable(f, fields, preds)
    ensures RuledOut(f, fields, preds).value <==> exists i :: 0 <= i < |preds| && !Leaves(f, fields, preds[i])
    decreases |preds|
  {
    hide Leaves, FilePrunes;
    if preds != [] {
      var n := |preds| - 1;
      assert preds == preds[..n] + [preds[n]];
      RuledOutIff(f, fields, preds[..n]);
      assert Boundable(f, fields, preds[n]);
      TypeOfFirst(fields, preds[n].col);
      hide Boundable, TypeOfId;
      if !RuledOut(f, fields, preds[..n]).value {
        LeavesIff(f, fields, preds[n]);
      }
    }
  }

  /** Exactly the files stay for which every predicate leaves something that could pass. */
  lemma {:induction false} RetainIff(files: seq<DataFile>, fields: seq<FieldDef>, preds: seq<Pred>)
    requires Retain(files, fields, preds).Some?
    requires forall f :: f in files ==> AllBoundable(f, fields, preds)
    ensures forall f :: f in Retain(files, fields, preds).value <==> f in files && forall i :: 0 <= i < |preds| ==> Leaves(f, fields, preds[i])
    decreases |files|
  {
    hide RuledOut, Leaves, AllBoundable;
    if files != [] {
      var n := |files| - 1;
      assert files == files[..n] + [files[n]];
      RetainIff(files[..n], fields, preds);
      RuledOutIff(files[n], fields, preds);
    }
  }

  // ---- the planner ----

  /** Scans change only by reading more columns. */
  ghost predicate Grown(before: seq<ScanNode>, after: seq<ScanNode>) {
    && |before| == |after|
    && forall s :: 0 <= s < |before| ==>
         && before[s].bind == after[s].bind && before[s].preds == after[s].preds && before[s].files == after[s].files
         && before[s].cols <= after[s].cols
  }

  method PositionOf(cols: seq<nat>, col: nat) returns (p: Option<nat>)
    ensures match p
            case None => forall i :: 0 <= i < |cols| ==> cols[i] != col
            case Some(i) => i < |cols| && cols[i] == col
  {
    for i := 0 to |cols|
      invariant forall j :: 0 <= j < i ==> cols[j] != col
    {
      if cols[i] == col {
        return Some(i);
      }
    }
    p := None;
  }

  /** `need_col`: the position of a column in a scan's output, added to it if it is not there yet. */
  method NeedCol(scans: seq<ScanNode>, c: Place, ghost binds: seq<Binding>) returns (after: seq<ScanNode>, p: nat)
    requires Scans(scans, binds) && HasPlace(binds, c)
    ensures Scans(after, binds) && Grown(scans, after) && Carries(after, c.scan, p, c)
  {
    var scan := scans[c.scan];
    var found := PositionOf(scan.cols, c.col);
    match found {
      case Some(i) =>
        after, p := scans, i;
      case None =>
        p := |scan.cols|;
        after := scans[c.scan := scan.(cols := scan.cols + [c.col])];
        assert GoodScan(scan);
    }
  }

  lemma GrownCarries(before: seq<ScanNode>, after: seq<ScanNode>, s: nat, p: nat, c: Place)
    requires Grown(before, after) && Carries(before, s, p, c)
    ensures Carries(after, s, p, c)
  {
  }

  lemma GrownItems(before: seq<ScanNode>, after: seq<ScanNode>, output: seq<OutExpr>, select: seq<Item>)
    requires Grown(before, after) && Selects(before, output, select)
    ensures Selects(after, output, select)
  {
    forall i | 0 <= i < |output| ensures CarriesItem(after, output[i], select[i]) {
      assert CarriesItem(before, output[i], select[i]);
    }
  }

  lemma GrownGroups(before: seq<ScanNode>, after: seq<ScanNode>, groupBy: seq<(nat, nat)>, cols: seq<Place>)
    requires Grown(before, after) && GroupsBy(before, groupBy, cols)
    ensures GroupsBy(after, groupBy, cols)
  {
    forall i | 0 <= i < |groupBy| ensures Carries(after, groupBy[i].0, groupBy[i].1, cols[i]) {
      GrownCarries(before, after, groupBy[i].0, groupBy[i].1, cols[i]);
    }
  }

  lemma GrownTrans(a: seq<ScanNode>, b: seq<ScanNode>, c: seq<ScanNode>)
    requires Grown(a, b) && Grown(b, c)
    ensures Grown(a, c)
  {
  }

  // ---- plan, stage by stage ----

  ghost predicate Unplanned(scans: seq<ScanNode>, binds: seq<Binding>) {
    Scans(scans, binds) && forall s :: 0 <= s < |scans| ==> scans[s].preds == [] && scans[s].cols == []
  }

  /** The files of each scan are still all the files of its table. */
  ghost predicate AllFiles(scans: seq<ScanNode>, catalog: map<string, TableData>) {
    forall s :: 0 <= s < |scans| ==>
      scans[s].bind.table in catalog && scans[s].files == catalog[scans[s].bind.table].files
  }

  method BindScans(catalog: map<string, TableData>, ast: Ast) returns (r: Result<seq<ScanNode>, Error>)
    ensures match BindTables(catalog, ast)
            case Err(e) => r == Err(e)
            case Ok(binds) => r.Ok? && Unplanned(r.value, binds) && AllFiles(r.value, catalog)
    ensures r.Ok? ==> exists binds :: TablesAsked(catalog, ast, binds) && Unplanned(r.value, binds)
    ensures r.Err? ==> r.error == TableNotFound && !TablesKnown(catalog, ast)
  {
    hide Traverse, TablesAsked, TablesKnown;
    TablesResolve(catalog, ast);
    if ast.table !in catalog {
      return Err(TableNotFound);
    }
    var table := catalog[ast.table];
    var scans := [ScanNode(Binding(ast.table, ast.alias, table.fields), [], [], table.files)];
    ghost var f := TableBinder(catalog);
    TraverseNone(f, ast.joins);
    for i := 0 to |ast.joins|
      invariant Traverse(f, ast.joins[..i]).Ok? && |scans| == i + 1 && AllFiles(scans, catalog)
      invariant Unplanned(scans, [scans[0].bind] + Traverse(f, ast.joins[..i]).value)
      invariant scans[0].bind == Binding(ast.table, ast.alias, table.fields)
    {
      var j := ast.joins[i];
      TraverseNext(f, ast.joins, i);
      if j.table !in catalog {
        return Err(TableNotFound);
      }
      scans := scans + [ScanNode(Binding(j.table, j.alias, catalog[j.table].fields), [], [], catalog[j.table].files)];
    }
    assert ast.joins[..|ast.joins|] == ast.joins;
    r := Ok(scans);
  }

  lemma TraverseNone<A, B>(f: A -> Result<B, Error>, xs: seq<A>)
    ensures Traverse(f, xs[..0]) == Ok([])
  {
  }

  /** Pushing one predicate into its scan. */
  method PushPred(scans: seq<ScanNode>, q: QueryPred, ghost binds: seq<Binding>, ghost qs: seq<QueryPred>)
    returns (after: seq<ScanNode>)
    requires Scans(scans, binds) && HasPlace(binds, q.c) && Pushed(scans, qs)
    ensures Scans(after, binds) && Pushed(after, qs + [q])
    ensures |after| == |scans| && forall s :: 0 <= s < |scans| ==> after[s].files == scans[s].files
  {
    hide PredsOn;
    var p;
    after, p := NeedCol(scans, q.c, binds);
    var s := q.c.scan;
    forall t ensures PredsOn(qs + [q], t) == PredsOn(qs, t) + if s == t then [Pred(q.c.col, q.op, q.lit)] else [] {
      PredsOnSnoc(qs, q, t);
    }
    after := after[s := after[s].(preds := after[s].preds + [Pred(q.c.col, q.op, q.lit)])];
  }

  lemma PredsOnSnoc(qs: seq<QueryPred>, q: QueryPred, s: nat)
    ensures PredsOn(qs + [q], s) == PredsOn(qs, s) + if q.c.scan == s then [Pred(q.c.col, q.op, q.lit)] else []
  {
    assert (qs + [q])[..|qs|] == qs;
  }

  method PushPreds(scans: seq<ScanNode>, preds: seq<AstPred>, binds: seq<Binding>) returns (r: Result<seq<ScanNode>, Error>)
    requires Scans(scans, binds) && Pushed(scans, [])
    ensures match Traverse(PredBinder(binds), preds)
            case Err(e) => r == Err(e)
            case Ok(qs) =>
              && r.Ok? && Scans(r.value, binds) && Pushed(r.value, qs)
              && forall s :: 0 <= s < |scans| ==> r.value[s].files == scans[s].files
    ensures r.Ok? ==> exists qs :: PredsAsked(binds, preds, qs) && Pushed(r.value, qs)
    ensures r.Err? ==> PredsRefused(binds, preds, r.error)
  {
    hide Traverse, Scans, Pushed, PredBinder, PredsAsked, PredsRefused;
    PredsResolve(binds, preds);
    var after := scans;
    ghost var f := PredBinder(binds);
    TraverseNone(f, preds);
    ScansSize(scans, binds);
    for i := 0 to |preds|
      invariant Traverse(f, preds[..i]).Ok? && Scans(after, binds) && Pushed(after, Traverse(f, preds[..i]).value)
      invariant |after| == |scans| && forall s :: 0 <= s < |scans| ==> after[s].files == scans[s].files
    {
      TraverseNext(f, preds, i);
      PredBinderIs(binds, preds[i]);
      var c := Bind(binds, preds[i].c);
      if c.Err? {
        return Err(c.error);
      }
      after := PushPred(after, QueryPred(c.value, preds[i].op, preds[i].lit), binds, Traverse(f, preds[..i]).value);
    }
    assert preds[..|preds|] == preds;
    ScansSize(after, binds);
    r := Ok(after);
  }

  lemma PredBinderIs(binds: seq<Binding>, p: AstPred)
    ensures PredBinder(binds)(p) == BindPred(binds, p)
  {
  }

  lemma ScansSize(scans: seq<ScanNode>, binds: seq<Binding>)
    requires Scans(scans, binds)
    ensures |scans| == |binds|
  {
  }

  method PlanSelect(scans: seq<ScanNode>, select: seq<SelectItem>, binds: seq<Binding>)
    returns (r: Result<(seq<ScanNode>, seq<OutExpr>), Error>)
    requires Scans(scans, binds)
    ensures match Traverse(ItemBinder(binds), select)
            case Err(e) => r == Err(e)
            case Ok(items) => r.Ok? && Scans(r.value.0, binds) && Grown(scans, r.value.0) && Selects(r.value.0, r.value.1, items)
    ensures r.Ok? ==> exists items :: ItemsAsked(binds, select, items) && Selects(r.value.0, r.value.1, items)
    ensures r.Err? ==> ItemsRefused(binds, select, r.error)
  {
    hide Traverse, Scans, ItemBinder, Selects, Grown, ItemsAsked, ItemsRefused;
    ItemsResolve(binds, select);
    var after, output := scans, [];
    ghost var f := ItemBinder(binds);
    TraverseNone(f, select);
    NothingGrown(scans);
    for i := 0 to |select|
      invariant Traverse(f, select[..i]).Ok? && Scans(after, binds) && Grown(scans, after)
      invariant Selects(after, output, Traverse(f, select[..i]).value)
    {
      TraverseNext(f, select, i);
      ItemBinderIs(binds, select[i]);
      var it := BindItem(binds, select[i]);
      if it.Err? {
        return Err(it.error);
      }
      var o;
      ghost var before := after;
      after, o := PlanItem(after, it.value, binds);
      GrownTrans(scans, before, after);
      GrownItems(before, after, output, Traverse(f, select[..i]).value);
      SelectsSnoc(after, output, Traverse(f, select[..i]).value, o, it.value);
      output := output + [o];
    }
    assert select[..|select|] == select;
    r := Ok((after, output));
  }

  lemma ItemBinderIs(binds: seq<Binding>, it: SelectItem)
    ensures ItemBinder(binds)(it) == BindItem(binds, it)
    ensures BindItem(binds, it).Ok? ==> ItemBound(binds, BindItem(binds, it).value)
  {
  }

  ghost predicate ItemBound(binds: seq<Binding>, it: Item) {
    it.ItemStar? || HasPlace(binds, it.c)
  }

  lemma NothingGrown(scans: seq<ScanNode>)
    ensures Grown(scans, scans) && Selects(scans, [], []) && GroupsBy(scans, [], [])
  {
  }

  lemma SelectsSnoc(scans: seq<ScanNode>, output: seq<OutExpr>, items: seq<Item>, o: OutExpr, it: Item)
    requires Selects(scans, output, items) && CarriesItem(scans, o, it)
    ensures Selects(scans, output + [o], items + [it])
  {
  }

  method PlanItem(scans: seq<ScanNode>, it: Item, ghost binds: seq<Binding>) returns (after: seq<ScanNode>, o: OutExpr)
    requires Scans(scans, binds) && ItemBound(binds, it)
    ensures Scans(after, binds) && Grown(scans, after) && CarriesItem(after, o, it)
  {
    hide Scans;
    var p;
    match it {
      case ItemCol(c) =>
        after, p := NeedCol(scans, c, binds);
        o := OutCol(c.scan, p);
      case ItemAgg(f, c) =>
        after, p := NeedCol(scans, c, binds);
        o := OutAgg(f, c.scan, p);
      case ItemStar(f) =>
        after, o := scans, OutStar(f);
        NothingGrown(scans);
    }
  }

  method PlanGroup(scans: seq<ScanNode>, cols: seq<ColRef>, binds: seq<Binding>)
    returns (r: Result<(seq<ScanNode>, seq<(nat, nat)>), Error>)
    requires Scans(scans, binds)
    ensures match Traverse(ColBinder(binds), cols)
            case Err(e) => r == Err(e)
            case Ok(places) => r.Ok? && Scans(r.value.0, binds) && Grown(scans, r.value.0) && GroupsBy(r.value.0, r.value.1, places)
    ensures r.Ok? ==> exists places :: GroupAsked(binds, cols, places) && GroupsBy(r.value.0, r.value.1, places)
    ensures r.Err? ==> GroupRefused(binds, cols, r.error)
  {
    hide Traverse, Scans, ColBinder, GroupsBy, Grown, GroupAsked, GroupRefused;
    GroupResolve(binds, cols);
    var after, groupBy := scans, [];
    ghost var f := ColBinder(binds);
    TraverseNone(f, cols);
    NothingGrown(scans);
    for i := 0 to |cols|
      invariant Traverse(f, cols[..i]).Ok? && Scans(after, binds) && Grown(scans, after)
      invariant GroupsBy(after, groupBy, Traverse(f, cols[..i]).value)
    {
      TraverseNext(f, cols, i);
      ColBinderIs(binds, cols[i]);
      var c := Bind(binds, cols[i]);
      if c.Err? {
        return Err(c.error);
      }
      var p;
      ghost var before := after;
      after, p := NeedCol(after, c.value, binds);
      GrownTrans(scans, before, after);
      GrownGroups(before, after, groupBy, Traverse(f, cols[..i]).value);
      GroupsSnoc(after, groupBy, Traverse(f, cols[..i]).value, (c.value.scan, p), c.value);
      groupBy := groupBy + [(c.value.scan, p)];
    }
    assert cols[..|cols|] == cols;
    r := Ok((after, groupBy));
  }

  lemma ColBinderIs(binds: seq<Binding>, c: ColRef)
    ensures ColBinder(binds)(c) == Bind(binds, c)
  {
  }

  lemma GroupsSnoc(scans: seq<ScanNode>, groupBy: seq<(nat, nat)>, cols: seq<Place>, g: (nat, nat), c: Place)
    requires GroupsBy(scans, groupBy, cols) && Carries(scans, g.0, g.1, c)
    ensures GroupsBy(scans, groupBy + [g], cols + [c])
  {
  }

  method PruneFiles(scans: seq<ScanNode>) returns (r: Result<seq<ScanNode>, Error>)
    ensures r.Err? ==> r == Err(ShortBound) && exists s :: 0 <= s < |scans| && Retain(scans[s].files, scans[s].bind.fields, scans[s].preds) == None
    ensures r.Ok? ==> |r.value| == |scans| && forall s :: 0 <= s < |scans| ==>
      Retain(scans[s].files, scans[s].bind.fields, scans[s].preds) == Some(r.value[s].files) && r.value[s] == scans[s].(files := r.value[s].files)
  {
    hide Retain;
    var after: seq<ScanNode> := [];
    for s := 0 to |scans|
      invariant |after| == s
      invariant forall t :: 0 <= t < s ==>
        Retain(scans[t].files, scans[t].bind.fields, scans[t].preds) == Some(after[t].files) && after[t] == scans[t].(files := after[t].files)
    {
      var files := RetainFiles(scans[s].files, scans[s].bind.fields, scans[s].preds);
      if files.None? {
        return Err(ShortBound);
      }
      after := after + [scans[s].(files := files.value)];
    }
    r := Ok(after);
  }

  method RetainFiles(files: seq<DataFile>, fields: seq<FieldDef>, preds: seq<Pred>) returns (r: Option<seq<DataFile>>)
    ensures r == Retain(files, fields, preds)
  {
    hide RuledOut;
    var kept := [];
    for i := 0 to |files|
      invariant Retain(files[..i], fields, preds) == Some(kept)
    {
      assert files[..i + 1][..i] == files[..i];
      var out := RuledOut(files[i], fields, preds);
      if out.None? {
        RetainStops(files, fields, preds, i + 1);
        return None;
      }
      if !out.value {
        kept := kept + [files[i]];
      }
    }
    assert files[..|files|] == files;
    r := Some(kept);
  }

  lemma {:induction false} RetainStops(files: seq<DataFile>, fields: seq<FieldDef>, preds: seq<Pred>, i: nat)
    requires i <= |files|
    ensures Retain(files[..i], fields, preds) == None ==> Retain(files, fields, preds) == None
    decreases |files|
  {
    if i < |files| {
      var n := |files| - 1;
      RetainStops(files[..n], fields, preds, i);
      assert files[..n][..i] == files[..i];
    } else {
      assert files[..i] == files;
    }
  }

  // ---- the whole plan ----

  /** The files of each scan are the table's files that no predicate of the scan rules out. */
  ghost predicate FilesRetained(scans: seq<ScanNode>, catalog: map<string, TableData>) {
    forall s :: 0 <= s < |scans| ==>
      && scans[s].bind.table in catalog
      && Retain(catalog[scans[s].bind.table].files, scans[s].bind.fields, scans[s].preds) == Some(scans[s].files)
  }

  /** A physical plan for a bound query: every part of the query is carried by some scan. */
  ghost predicate Implements(p: PhysicalPlan, q: Query, catalog: map<string, TableData>) {
    && Scans(p.scans, q.binds) && Pushed(p.scans, q.preds) && FilesRetained(p.scans, catalog)
    && Joined(p.scans, p.join, q.join) && Selects(p.scans, p.output, q.select) && GroupsBy(p.scans, p.groupBy, q.groupBy)
  }

  /** Pruning some table's files would read a bound of fewer than eight bytes as a long. */
  ghost predicate SomeShortBound(catalog: map<string, TableData>, binds: seq<Binding>) {
    exists b: Binding, preds ::
      b in binds && b.table in catalog && Retain(catalog[b.table].files, b.fields, preds) == None
  }

  /** Key positions of the two sides of ON, before a build side is chosen. */
  method PlanJoin(scans: seq<ScanNode>, joins: seq<AstJoin>, binds: seq<Binding>)
    returns (r: Result<(seq<ScanNode>, Option<((nat, nat), (nat, nat))>), Error>)
    requires Scans(scans, binds)
    ensures match BindJoin(binds, joins)
            case Err(e) => r == Err(e)
            case Ok(on) =>
              && r.Ok? && Scans(r.value.0, binds) && Grown(scans, r.value.0)
              && match (on, r.value.1)
                 case (None, None) => true
                 case (Some((l, rr)), Some((lp, rp))) => Carries(r.value.0, lp.0, lp.1, l) && Carries(r.value.0, rp.0, rp.1, rr)
                 case _ => false
    ensures r.Ok? ==> exists on :: JoinAsked(binds, joins, on) && (on.Some? <==> r.value.1.Some?)
    ensures r.Err? ==> JoinRefused(binds, joins, r.error)
  {
    hide Scans, FindScan, Grown, JoinAsked, JoinRefused;
    JoinResolves(binds, joins);
    NothingGrown(scans);
    if joins == [] {
      return Ok((scans, None));
    }
    if |joins| > 1 {
      return Err(ManyJoins);
    }
    var j := joins[0];
    var ls := FindScan(binds, j.left);
    if ls.Err? {
      return Err(ls.error);
    }
    var rs := FindScan(binds, j.right);
    if rs.Err? {
      return Err(rs.error);
    }
    var l := Bind(binds, j.left);
    if l.Err? {
      return Err(l.error);
    }
    var rr := Bind(binds, j.right);
    if rr.Err? {
      return Err(rr.error);
    }
    if TypeAt(binds, l.value) != Int64 || TypeAt(binds, rr.value) != Int64 {
      return Err(KeyNotInt64);
    }
    var after, lp := NeedCol(scans, l.value, binds);
    var last, rp := NeedCol(after, rr.value, binds);
    GrownTrans(scans, after, last);
    GrownCarries(after, last, l.value.scan, lp, l.value);
    r := Ok((last, Some(((l.value.scan, lp), (rr.value.scan, rp)))));
  }

  lemma PrunedScans(scans: seq<ScanNode>, after: seq<ScanNode>, binds: seq<Binding>)
    requires Scans(scans, binds) && |after| == |scans|
    requires forall s :: 0 <= s < |scans| ==> after[s] == scans[s].(files := after[s].files)
    ensures Scans(after, binds)
    ensures forall qs :: Pushed(scans, qs) ==> Pushed(after, qs)
    ensures forall s, p, c :: Carries(scans, s, p, c) ==> Carries(after, s, p, c)
  {
    hide PredsOn;
    forall s | 0 <= s < |scans| ensures after[s].bind == scans[s].bind && after[s].cols == scans[s].cols && after[s].preds == scans[s].preds {
    }
  }

  lemma PrunedParts(scans: seq<ScanNode>, after: seq<ScanNode>, output: seq<OutExpr>, items: seq<Item>, groupBy: seq<(nat, nat)>, cols: seq<Place>)
    requires forall s, p, c :: Carries(scans, s, p, c) ==> Carries(after, s, p, c)
    requires Selects(scans, output, items) && GroupsBy(scans, groupBy, cols)
    ensures Selects(after, output, items) && GroupsBy(after, groupBy, cols)
  {
    hide Carries;
    forall i | 0 <= i < |output| ensures CarriesItem(after, output[i], items[i]) {
      assert CarriesItem(scans, output[i], items[i]);
    }
  }

  lemma GrownPushed(scans: seq<ScanNode>, after: seq<ScanNode>, qs: seq<QueryPred>)
    requires Grown(scans, after) && Pushed(scans, qs)
    ensures Pushed(after, qs)
  {
    hide PredsOn;
  }

  /** The chosen side builds, and the chosen strategy is used. */
  ghost predicate JoinsBy(p: PhysicalPlan, on: (Place, Place), leftBuilds: bool, broadcast: bool) {
    && p.join.Some? && (p.join.value.strategy == if broadcast then Broadcast else Shuffle(16))
    && Carries(p.scans, p.join.value.build, p.join.value.buildKey, if leftBuilds then on.0 else on.1)
  }

  /** `plan`. The build side and the strategy, which the source takes from cardinality estimates, are arguments. */
  method MakePlan(ast: Ast, catalog: map<string, TableData>, leftBuilds: bool, broadcast: bool)
    returns (r: Result<PhysicalPlan, Error>)
    ensures !Answerable(catalog, ast) ==> r.Err? && Refused(catalog, ast, r.error)
    ensures forall q :: Asks(catalog, ast, q) ==>
      && (r.Err? ==> r == Err(ShortBound) && SomeShortBound(catalog, q.binds))
      && (r.Ok? ==> Implements(r.value, q, catalog) && r.value.orderBy == ast.orderBy && r.value.limit == ast.limit)
      && (r.Ok? && q.join.Some? ==> JoinsBy(r.value, q.join.value, leftBuilds, broadcast))
  {
    hide Traverse, BindTables, Scans, Pushed, Grown, Selects, GroupsBy, BindJoin, Retain, Carries, Asks, Refused,
      TablesAsked, PredsAsked, PredsRefused, JoinAsked, JoinRefused, ItemsAsked, ItemsRefused, GroupAsked, GroupRefused, TablesKnown;
    ResolveIff(catalog, ast);
    assert Answerable(catalog, ast) <==> Resolve(catalog, ast).Ok?;
    var bound := BindScans(catalog, ast);
    if bound.Err? {
      return Err(bound.error);
    }
    ghost var q := BindTables(catalog, ast);
    var binds := Bindings(bound.value);
    FreshScans(bound.value, q.value, binds);
    var pushed := PushPreds(bound.value, ast.preds, binds);
    if pushed.Err? {
      return Err(pushed.error);
    }
    ghost var qs := Traverse(PredBinder(binds), ast.preds).value;
    var joined := PlanJoin(pushed.value, ast.joins, binds);
    if joined.Err? {
      return Err(joined.error);
    }
    var selected := PlanSelect(joined.value.0, ast.select, binds);
    if selected.Err? {
      return Err(selected.error);
    }
    var grouped := PlanGroup(selected.value.0, ast.groupBy, binds);
    if grouped.Err? {
      return Err(grouped.error);
    }
    var scans := grouped.value.0;
    GrownTrans(pushed.value, joined.value.0, selected.value.0);
    GrownTrans(pushed.value, selected.value.0, scans);
    GrownTrans(joined.value.0, selected.value.0, scans);
    GrownPushed(pushed.value, scans, qs);
    GrownItems(selected.value.0, scans, selected.value.1, Traverse(ItemBinder(binds), ast.select).value);
    SameFiles(bound.value, pushed.value, scans, binds, catalog);
    var pruned := PruneFiles(scans);
    if pruned.Err? {
      ShortSomewhere(scans, catalog, binds);
      return Err(ShortBound);
    }
    PrunedScans(scans, pruned.value, binds);
    PrunedParts(scans, pruned.value, selected.value.1, Traverse(ItemBinder(binds), ast.select).value,
                grouped.value.1, Traverse(ColBinder(binds), ast.groupBy).value);
    var join: Option<JoinNode> := None;
    if joined.value.1.Some? {
      var (l, rr) := joined.value.1.value;
      ghost var on := BindJoin(binds, ast.joins).value.value;
      GrownCarries(joined.value.0, scans, l.0, l.1, on.0);
      GrownCarries(joined.value.0, scans, rr.0, rr.1, on.1);
      var strategy := if broadcast then Broadcast else Shuffle(16);
      join := Some(if leftBuilds then JoinNode(l.0, rr.0, l.1, rr.1, strategy) else JoinNode(rr.0, l.0, rr.1, l.1, strategy));
    }
    r := Ok(PhysicalPlan(pruned.value, join, selected.value.1, grouped.value.1, ast.orderBy, ast.limit));
  }

  function Bindings(scans: seq<ScanNode>): (bs: seq<Binding>)
    ensures |bs| == |scans| && forall s :: 0 <= s < |scans| ==> bs[s] == scans[s].bind
  {
    seq(|scans|, s requires 0 <= s < |scans| => scans[s].bind)
  }

  lemma FreshScans(scans: seq<ScanNode>, binds: seq<Binding>, bs: seq<Binding>)
    requires Unplanned(scans, binds) && bs == Bindings(scans)
    ensures bs == binds && Scans(scans, binds) && Pushed(scans, [])
  {
  }

  lemma SameFiles(bound: seq<ScanNode>, pushed: seq<ScanNode>, scans: seq<ScanNode>, binds: seq<Binding>, catalog: map<string, TableData>)
    requires AllFiles(bound, catalog) && Grown(pushed, scans) && Scans(bound, binds) && Scans(pushed, binds)
    requires forall s :: 0 <= s < |bound| && s < |pushed| ==> pushed[s].files == bound[s].files
    ensures AllFiles(scans, catalog)
  {
  }

  lemma ShortSomewhere(scans: seq<ScanNode>, catalog: map<string, TableData>, binds: seq<Binding>)
    requires AllFiles(scans, catalog) && Scans(scans, binds)
    requires exists s :: 0 <= s < |scans| && Retain(scans[s].files, scans[s].bind.fields, scans[s].preds) == None
    ensures SomeShortBound(catalog, binds)
  {
    hide Retain;
    var s :| 0 <= s < |scans| && Retain(scans[s].files, scans[s].bind.fields, scans[s].preds) == None;
    assert binds[s] in binds;
  }
}
