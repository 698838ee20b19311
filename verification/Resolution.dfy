/** What name resolution gives. */
module Resolution {
  /* Resolving a query gives exactly the query its text asks for, or the first problem. */

  import opened Wrappers
  import opened BlitzFooter
  import opened Plan

  // ---- names ----

  lemma OnePlace(binds: seq<Binding>, c: ColRef, p: Place, q: Place)
    requires Names(binds, c, p) && Names(binds, c, q)
    ensures p == q
  {
    assert HasField(binds[p.scan].fields, c.name) && HasField(binds[q.scan].fields, c.name);
    hide HasField;
  }

  lemma NotBoth(binds: seq<Binding>, c: ColRef, p: Place, e: Error)
    requires Names(binds, c, p)
    ensures !Unbound(binds, c, e)
  {
    assert HasField(binds[p.scan].fields, c.name);
    hide HasField;
  }

  lemma BindNames(binds: seq<Binding>, c: ColRef)
    ensures Named(binds, c) <==> Bind(binds, c).Ok?
    ensures forall p :: Names(binds, c, p) <==> Bind(binds, c) == Ok(p)
  {
    hide Names, Unbound, HasField;
    var r := Bind(binds, c);
    forall p | Names(binds, c, p) ensures r == Ok(p) {
      if r.Ok? {
        OnePlace(binds, c, p, r.value);
      } else {
        NotBoth(binds, c, p, r.error);
      }
    }
  }

  lemma FindScanIs(binds: seq<Binding>, c: ColRef)
    ensures FindScan(binds, c).Ok? <==> HasTable(binds, c)
    ensures FindScan(binds, c).Err? ==> Bind(binds, c) == Err(FindScan(binds, c).error)
    ensures Bind(binds, c).Err? ==> Unbound(binds, c, Bind(binds, c).error)
  {
    hide HasField, Names;
    BindNames(binds, c);
    FindScanFinds(binds, c);
  }

  lemma JoinResolves(binds: seq<Binding>, joins: seq<AstJoin>)
    ensures BindJoin(binds, joins).Ok? ==> JoinAsked(binds, joins, BindJoin(binds, joins).value)
    ensures BindJoin(binds, joins).Err? ==> JoinRefused(binds, joins, BindJoin(binds, joins).error)
    ensures forall on :: JoinAsked(binds, joins, on) ==> BindJoin(binds, joins) == Ok(on)
  {
    hide Names, Unbound, Bind, FindScan, HasTable, Named;
    if |joins| == 1 {
      BindNames(binds, joins[0].left);
      BindNames(binds, joins[0].right);
      FindScanIs(binds, joins[0].left);
      FindScanIs(binds, joins[0].right);
    }
  }

  // ---- lists of names ----

  lemma {:induction false} TraverseAll<X, Y>(f: X -> Result<Y, Error>, xs: seq<X>)
    ensures match Traverse(f, xs)
            case Err(e) => exists i :: 0 <= i < |xs| && f(xs[i]) == Err(e) && forall j :: 0 <= j < i ==> f(xs[j]).Ok?
            case Ok(ys) => |ys| == |xs| && forall i :: 0 <= i < |xs| ==> f(xs[i]) == Ok(ys[i])
  {
    if xs != [] {
      var n := |xs| - 1;
      TraverseAll(f, xs[..n]);
      if Traverse(f, xs[..n]).Err? {
        var i :| 0 <= i < n && f(xs[..n][i]) == Err(Traverse(f, xs).error) && forall j :: 0 <= j < i ==> f(xs[..n][j]).Ok?;
        assert f(xs[i]) == Err(Traverse(f, xs).error) && forall j :: 0 <= j < i ==> xs[j] == xs[..n][j];
      }
    }
  }

  lemma {:induction false} TraverseGives<X, Y>(f: X -> Result<Y, Error>, xs: seq<X>, ys: seq<Y>)
    requires |ys| == |xs| && forall i :: 0 <= i < |xs| ==> f(xs[i]) == Ok(ys[i])
    ensures Traverse(f, xs) == Ok(ys)
    decreases |xs|
  {
    if xs != [] {
      var n := |xs| - 1;
      TraverseGives(f, xs[..n], ys[..n]);
      assert ys == ys[..n] + [ys[n]];
    }
  }

  lemma TablesResolve(catalog: map<string, TableData>, ast: Ast)
    ensures BindTables(catalog, ast).Ok? ==> TablesAsked(catalog, ast, BindTables(catalog, ast).value)
    ensures BindTables(catalog, ast).Err? ==> BindTables(catalog, ast).error == TableNotFound
    ensures TablesKnown(catalog, ast) <==> BindTables(catalog, ast).Ok?
    ensures forall binds :: TablesAsked(catalog, ast, binds) ==> BindTables(catalog, ast) == Ok(binds)
  {
    hide Traverse;
    var f := TableBinder(catalog);
    TraverseAll(f, ast.joins);
    forall binds | TablesAsked(catalog, ast, binds) ensures BindTables(catalog, ast) == Ok(binds) {
      TraverseGives(f, ast.joins, binds[1..]);
      assert binds == [binds[0]] + binds[1..];
    }
  }

  lemma PredsResolve(binds: seq<Binding>, preds: seq<AstPred>)
    ensures Traverse(PredBinder(binds), preds).Ok? ==> PredsAsked(binds, preds, Traverse(PredBinder(binds), preds).value)
    ensures Traverse(PredBinder(binds), preds).Err? ==> PredsRefused(binds, preds, Traverse(PredBinder(binds), preds).error)
    ensures forall qs :: PredsAsked(binds, preds, qs) ==> Traverse(PredBinder(binds), preds) == Ok(qs)
  {
    hide Traverse, Names, Unbound, Bind;
    var f := PredBinder(binds);
    forall p ensures f(p) == BindPred(binds, p) && (forall q :: PredAsked(binds, p, q) <==> f(p) == Ok(q)) {
      BindNames(binds, p.c);
    }
    TraverseAll(f, preds);
    if Traverse(f, preds).Err? {
      var e := Traverse(f, preds).error;
      var i :| 0 <= i < |preds| && f(preds[i]) == Err(e) && forall j :: 0 <= j < i ==> f(preds[j]).Ok?;
      forall j | 0 <= j < i ensures Named(binds, preds[j].c) {
        assert PredAsked(binds, preds[j], f(preds[j]).value);
      }
    }
    forall qs | PredsAsked(binds, preds, qs) ensures Traverse(f, preds) == Ok(qs) {
      TraverseGives(f, preds, qs);
    }
  }

  lemma GroupResolve(binds: seq<Binding>, cols: seq<ColRef>)
    ensures Traverse(ColBinder(binds), cols).Ok? ==> GroupAsked(binds, cols, Traverse(ColBinder(binds), cols).value)
    ensures Traverse(ColBinder(binds), cols).Err? ==> GroupRefused(binds, cols, Traverse(ColBinder(binds), cols).error)
    ensures forall ps :: GroupAsked(binds, cols, ps) ==> Traverse(ColBinder(binds), cols) == Ok(ps)
  {
    hide Traverse, Names, Unbound, Bind;
    var f := ColBinder(binds);
    forall c ensures f(c) == Bind(binds, c) && (Named(binds, c) <==> f(c).Ok?) && (forall p :: Names(binds, c, p) <==> f(c) == Ok(p)) {
      BindNames(binds, c);
    }
    TraverseAll(f, cols);
    forall ps | GroupAsked(binds, cols, ps) ensures Traverse(f, cols) == Ok(ps) {
      TraverseGives(f, cols, ps);
    }
  }

  lemma ItemResolves(binds: seq<Binding>, it: SelectItem)
    ensures forall item :: ItemAsked(binds, it, item) <==> BindItem(binds, it) == Ok(item)
    ensures BindItem(binds, it).Err? ==> ItemRefused(binds, it, BindItem(binds, it).error)
  {
    hide Names, Unbound, Bind;
    BindNames(binds, it.c);
  }

  lemma Bindable(binds: seq<Binding>, it: SelectItem, item: Item)
    requires ItemAsked(binds, it, item)
    ensures ItemBindable(binds, it)
  {
  }

  lemma ItemsResolve(binds: seq<Binding>, select: seq<SelectItem>)
    ensures Traverse(ItemBinder(binds), select).Ok? ==> ItemsAsked(binds, select, Traverse(ItemBinder(binds), select).value)
    ensures Traverse(ItemBinder(binds), select).Err? ==> ItemsRefused(binds, select, Traverse(ItemBinder(binds), select).error)
    ensures forall items :: ItemsAsked(binds, select, items) ==> Traverse(ItemBinder(binds), select) == Ok(items)
  {
    hide Traverse, ItemAsked, ItemRefused, ItemBindable;
    var f := ItemBinder(binds);
    forall it ensures f(it) == BindItem(binds, it) && (forall item :: ItemAsked(binds, it, item) <==> f(it) == Ok(item))
      && (f(it).Err? ==> ItemRefused(binds, it, f(it).error)) {
      ItemResolves(binds, it);
      hide BindItem;
    }
    hide BindItem;
    TraverseAll(f, select);
    if Traverse(f, select).Err? {
      var e := Traverse(f, select).error;
      var i :| 0 <= i < |select| && f(select[i]) == Err(e) && forall j :: 0 <= j < i ==> f(select[j]).Ok?;
      forall j | 0 <= j < i ensures ItemBindable(binds, select[j]) {
        Bindable(binds, select[j], f(select[j]).value);
      }
    }
    forall items | ItemsAsked(binds, select, items) ensures Traverse(f, select) == Ok(items) {
      TraverseGives(f, select, items);
    }
  }

  // ---- the whole query ----

  /** Resolving succeeds with exactly the query that is asked for; otherwise it gives the first problem. */
  lemma ResolveIff(catalog: map<string, TableData>, ast: Ast)
    ensures forall q :: Resolve(catalog, ast) == Ok(q) <==> Asks(catalog, ast, q)
    ensures Resolve(catalog, ast).Err? ==> Refused(catalog, ast, Resolve(catalog, ast).error)
  {
    hide Traverse, TablesAsked, TablesKnown, PredsAsked, PredsRefused, JoinAsked, JoinRefused, ItemsAsked, ItemsRefused, GroupAsked, GroupRefused,
      BindTables, BindJoin;
    TablesResolve(catalog, ast);
    if BindTables(catalog, ast).Ok? {
      var binds := BindTables(catalog, ast).value;
      PredsResolve(binds, ast.preds);
      JoinResolves(binds, ast.joins);
      ItemsResolve(binds, ast.select);
      GroupResolve(binds, ast.groupBy);
      assert Resolve(catalog, ast).Err? ==> BoundRefused(binds, ast, Resolve(catalog, ast).error);
    }
  }

  /** A text asks for one query only. */
  lemma OneQuery(catalog: map<string, TableData>, ast: Ast, q: Query)
    requires Asks(catalog, ast, q)
    ensures forall p :: Asks(catalog, ast, p) ==> p == q
  {
    hide Asks;
    ResolveIff(catalog, ast);
  }
}
