/**
  The order of the models of a converted document, seen from the way back (convert/model.go,
  convertModel and convertModelsPass; revert/model.go, sortByRoutes).

  The converter opens a route group when the first model asks for it, lists the models of a group
  in document order, and emits the HTTP groups ahead of the WebSocket groups. The reverter takes
  the leaders of successive routes to be in document order. They are, except possibly where the
  WebSocket routes begin.
 */
module DocumentOrder {
  import opened Sequences
  import opened ModelOrder

  /** A route group, by its key. The key of a WebSocket group holds the model, so no other model is on it. */
  datatype Request = Request(key: string, websocket: bool)

  /** A model with one alias, and the groups that it asks for in order. */
  datatype Model = Model(alias: string, requests: seq<Request>)

  // ---------------------------------------------------------------------------------------------
  // What the converter emits
  // ---------------------------------------------------------------------------------------------

  /** The models among the first n that are on a group, in document order. */
  ghost function On(models: seq<Model>, n: nat, r: Request): seq<nat>
    requires n <= |models|
  {
    if n == 0 then [] else On(models, n - 1, r) + if r in models[n - 1].requests then [n - 1] else []
  }

  /** The groups with those that are requested added behind them, each once. */
  ghost function Opened(order: seq<Request>, requests: seq<Request>): seq<Request> {
    if requests == [] then order
    else
      var before, last := Opened(order, requests[..|requests| - 1]), requests[|requests| - 1];
      if last in before then before else before + [last]
  }

  /** The groups that the first n models open, in order. */
  ghost function Order(models: seq<Model>, n: nat): seq<Request>
    requires n <= |models|
  {
    if n == 0 then [] else Opened(Order(models, n - 1), models[n - 1].requests)
  }

  /** The groups of one protocol, in order. */
  ghost function Select(order: seq<Request>, websocket: bool): seq<Request> {
    if order == [] then []
    else
      var last := order[|order| - 1];
      Select(order[..|order| - 1], websocket) + if last.websocket == websocket then [last] else []
  }

  /** The groups in the order in which their routes are emitted. */
  ghost function Emitted(models: seq<Model>): seq<Request> {
    Select(Order(models, |models|), false) + Select(Order(models, |models|), true)
  }

  ghost function RoutesOf(models: seq<Model>, groups: seq<Request>): (routes: seq<seq<nat>>)
    ensures |routes| == |groups|
  {
    seq(|groups|, i requires 0 <= i < |groups| => On(models, |models|, groups[i]))
  }

  /** The models on each emitted route. */
  ghost function Routes(models: seq<Model>): seq<seq<nat>> {
    RoutesOf(models, Emitted(models))
  }

  /** The models on a group after n models and the first j requests of the next one. */
  ghost function OnTo(models: seq<Model>, n: nat, j: nat, r: Request): seq<nat>
    requires n < |models| && j <= |models[n].requests|
  {
    On(models, n, r) + if r in models[n].requests[..j] then [n] else []
  }

  /** The state after n models and the first j requests of the next one. */
  ghost predicate Grouped(models: seq<Model>, n: nat, j: nat, groups: map<Request, seq<nat>>, order: seq<Request>)
    requires n < |models| && j <= |models[n].requests|
  {
    order == Opened(Order(models, n), models[n].requests[..j]) && (forall r :: r in groups <==> r in order) &&
    forall r :: r in groups ==> groups[r] == OnTo(models, n, j, r)
  }

  /** Puts each model on its groups, and emits the routes of the groups. */
  method EmitRoutes(models: seq<Model>) returns (routes: seq<seq<nat>>)
    ensures routes == Routes(models)
  {
    var groups: map<Request, seq<nat>>, order: seq<Request> := map[], [];
    for n := 0 to |models|
      invariant order == Order(models, n) && forall r :: r in groups <==> r in order
      invariant forall r :: r in groups ==> groups[r] == On(models, n, r)
    {
      groups, order := JoinGroups(models, n, groups, order);
    }
    var http, websocket := SplitRoutes(models, groups, order);
    routes := http + websocket;
  }

  /** The routes of the groups in order, by protocol. */
  method SplitRoutes(models: seq<Model>, groups: map<Request, seq<nat>>, order: seq<Request>)
    returns (http: seq<seq<nat>>, websocket: seq<seq<nat>>)
    requires forall r :: r in order ==> r in groups && groups[r] == On(models, |models|, r)
    ensures http == RoutesOf(models, Select(order, false)) && websocket == RoutesOf(models, Select(order, true))
  {
    http, websocket := [], [];
    for i := 0 to |order|
      invariant http == RoutesOf(models, Select(order[..i], false))
      invariant websocket == RoutesOf(models, Select(order[..i], true))
    {
      assert order[..i + 1][..i] == order[..i];
      assert order[i] in order;
      if order[i].websocket {
        websocket := websocket + [groups[order[i]]];
      } else {
        http := http + [groups[order[i]]];
      }
    }
    TakeAll(order);
  }

  method JoinGroups(models: seq<Model>, n: nat, groups: map<Request, seq<nat>>, order: seq<Request>)
    returns (groups': map<Request, seq<nat>>, order': seq<Request>)
    requires n < |models| && order == Order(models, n) && forall r :: r in groups <==> r in order
    requires forall r :: r in groups ==> groups[r] == On(models, n, r)
    ensures order' == Order(models, n + 1) && forall r :: r in groups' <==> r in order'
    ensures forall r :: r in groups' ==> groups'[r] == On(models, n + 1, r)
  {
    groups', order' := groups, order;
    var requests := models[n].requests;
    for j := 0 to |requests|
      invariant Grouped(models, n, j, groups', order')
    {
      var r := requests[j];
      RequestJoins(models, n, j, groups', order', r);
      if r !in groups' {
        groups', order' := groups'[r := []], order' + [r];
      }
      if n !in groups'[r] {
        groups' := groups'[r := groups'[r] + [n]];
      }
    }
    TakeAll(requests);
  }

  lemma RequestJoins(models: seq<Model>, n: nat, j: nat, groups: map<Request, seq<nat>>, order: seq<Request>,
      r: Request)
    requires n < |models| && j < |models[n].requests| && r == models[n].requests[j]
    requires Grouped(models, n, j, groups, order)
    ensures var before := if r in groups then groups[r] else [];
            Grouped(models, n, j + 1, groups[r := if n in before then before else before + [n]],
                    if r in groups then order else order + [r])
  {
    OpensNext(models, n, j);
    var before := if r in groups then groups[r] else [];
    if r !in groups {
      NotOnTo(models, n, j, r);
    }
    assert before == OnTo(models, n, j, r);
    var groups' := groups[r := if n in before then before else before + [n]];
    forall q | q in groups' ensures groups'[q] == OnTo(models, n, j + 1, q) {
      OnToNext(models, n, j, q);
      assert q != r ==> groups'[q] == groups[q] == OnTo(models, n, j, q);
    }
  }

  lemma OpensNext(models: seq<Model>, n: nat, j: nat)
    requires n < |models| && j < |models[n].requests|
    ensures var order, r := Opened(Order(models, n), models[n].requests[..j]), models[n].requests[j];
            Opened(Order(models, n), models[n].requests[..j + 1]) == if r in order then order else order + [r]
  {
    assert models[n].requests[..j + 1][..j] == models[n].requests[..j];
  }

  lemma OnToNext(models: seq<Model>, n: nat, j: nat, q: Request)
    requires n < |models| && j < |models[n].requests|
    ensures OnTo(models, n, j + 1, q) ==
            if q == models[n].requests[j] && n !in OnTo(models, n, j, q) then OnTo(models, n, j, q) + [n]
            else OnTo(models, n, j, q)
  {
    TakeSnoc(models[n].requests, j);
    OnMeans(models, n, q);
  }

  lemma NotOnTo(models: seq<Model>, n: nat, j: nat, r: Request)
    requires n < |models| && j <= |models[n].requests|
    requires r !in Opened(Order(models, n), models[n].requests[..j])
    ensures OnTo(models, n, j, r) == []
  {
    OpenedMeans(Order(models, n), models[n].requests[..j]);
    NotOn(models, n, r);
  }

  // ---------------------------------------------------------------------------------------------
  // Where the leaders of the routes are in document order
  // ---------------------------------------------------------------------------------------------

  ghost predicate Increasing(s: seq<nat>) {
    forall i, j :: 0 <= i < j < |s| ==> s[i] < s[j]
  }

  lemma {:induction false} OnMeans(models: seq<Model>, n: nat, r: Request)
    requires n <= |models|
    ensures forall i: nat :: i in On(models, n, r) <==> i < n && r in models[i].requests
    ensures Increasing(On(models, n, r))
  {
    if n > 0 {
      OnMeans(models, n - 1, r);
      var before := On(models, n - 1, r);
      assert forall k :: 0 <= k < |before| ==> before[k] in before;
    }
  }

  lemma {:induction false} OpenedMeans(order: seq<Request>, requests: seq<Request>)
    ensures order <= Opened(order, requests)
    ensures forall r :: r in Opened(order, requests) <==> r in order || r in requests
  {
    if requests != [] {
      var init, last := requests[..|requests| - 1], requests[|requests| - 1];
      assert requests == init + [last];
      OpenedMeans(order, init);
    }
  }

  lemma {:induction false} OrderMeans(models: seq<Model>, n: nat)
    requires n <= |models|
    ensures forall r :: r in Order(models, n) <==> exists i :: 0 <= i < n && r in models[i].requests
  {
    if n > 0 {
      OrderMeans(models, n - 1);
      OpenedMeans(Order(models, n - 1), models[n - 1].requests);
    }
  }

  lemma NotOn(models: seq<Model>, n: nat, r: Request)
    requires n <= |models| && r !in Order(models, n)
    ensures On(models, n, r) == []
  {
    OrderMeans(models, n);
    OnMeans(models, n, r);
    if On(models, n, r) != [] {
      assert On(models, n, r)[0] in On(models, n, r);
    }
  }

  /** The model that opens a group, or -1. */
  ghost function Creator(models: seq<Model>, r: Request): int {
    var on := On(models, |models|, r);
    if on == [] then -1 else on[0]
  }

  /** The first model that asks for a group opens it. */
  lemma CreatorIs(models: seq<Model>, r: Request, i: nat)
    requires i < |models| && r in models[i].requests && forall k :: 0 <= k < i ==> r !in models[k].requests
    ensures Creator(models, r) == i
  {
    OnMeans(models, |models|, r);
    var on := On(models, |models|, r);
    assert i in on;
    var k :| 0 <= k < |on| && on[k] == i;
    assert on[0] in on;
  }

  /** The groups are in the order of the models that open them. */
  ghost predicate InCreationOrder(models: seq<Model>, groups: seq<Request>) {
    forall i, j :: 0 <= i < j < |groups| ==> Creator(models, groups[i]) <= Creator(models, groups[j])
  }

  ghost predicate OpenedBelow(models: seq<Model>, groups: seq<Request>, n: nat) {
    forall r :: r in groups ==> 0 <= Creator(models, r) < n
  }

  lemma {:induction false} OrderAscends(models: seq<Model>, n: nat)
    requires n <= |models|
    ensures InCreationOrder(models, Order(models, n)) && OpenedBelow(models, Order(models, n), n)
  {
    if n > 0 {
      var before, requests, after := Order(models, n - 1), models[n - 1].requests, Order(models, n);
      OrderAscends(models, n - 1);
      OpenedMeans(before, requests);
      OrderMeans(models, n - 1);
      forall r | r in requests && r !in before ensures Creator(models, r) == n - 1 {
        CreatorIs(models, r, n - 1);
      }
      OpenedLast(before, requests);
      forall i, j | 0 <= i < j < |after| ensures Creator(models, after[i]) <= Creator(models, after[j]) {
        if i < |before| {
          assert before[i] == after[i] && after[i] in before && after[j] in after;
        }
      }
    }
  }

  /** What is opened behind the groups that were there is requested and new. */
  lemma {:induction false} OpenedLast(order: seq<Request>, requests: seq<Request>)
    ensures |order| <= |Opened(order, requests)|
    ensures forall i :: |order| <= i < |Opened(order, requests)| ==>
              Opened(order, requests)[i] in requests && Opened(order, requests)[i] !in order
  {
    if requests != [] {
      var init, last := requests[..|requests| - 1], requests[|requests| - 1];
      assert requests == init + [last];
      OpenedLast(order, init);
      OpenedMeans(order, init);
    }
  }

  lemma {:induction false} SelectAscends(models: seq<Model>, order: seq<Request>, websocket: bool)
    requires InCreationOrder(models, order)
    ensures InCreationOrder(models, Select(order, websocket))
    ensures forall r :: r in Select(order, websocket) <==> r in order && r.websocket == websocket
  {
    if order != [] {
      var init, last := order[..|order| - 1], order[|order| - 1];
      assert order == init + [last];
      SelectAscends(models, init, websocket);
      forall r | r in init ensures Creator(models, r) <= Creator(models, last) {
        var i :| 0 <= i < |init| && init[i] == r;
        assert order[i] == r;
      }
      forall i | 0 <= i < |Select(init, websocket)| ensures Select(init, websocket)[i] in init {
        assert Select(init, websocket)[i] in Select(init, websocket);
      }
    }
  }

  /** No model opens an HTTP route behind a model with a WebSocket route. */
  ghost predicate Aligned(models: seq<Model>) {
    forall r, q :: r in Order(models, |models|) && q in Order(models, |models|) && !r.websocket && q.websocket ==>
      Creator(models, r) <= Creator(models, q)
  }

  lemma EmittedMeans(models: seq<Model>)
    ensures var order := Order(models, |models|);
            InCreationOrder(models, Select(order, false)) && InCreationOrder(models, Select(order, true)) &&
            (forall r :: r in Select(order, false) <==> r in order && !r.websocket) &&
            (forall r :: r in Select(order, true) <==> r in order && r.websocket)
    ensures forall r :: r in Emitted(models) <==> r in Order(models, |models|)
  {
    OrderAscends(models, |models|);
    SelectAscends(models, Order(models, |models|), false);
    SelectAscends(models, Order(models, |models|), true);
  }

  /** Two ascending lists make one exactly if no group of the first was opened behind one of the second. */
  lemma AscendingConcat(models: seq<Model>, a: seq<Request>, b: seq<Request>)
    requires InCreationOrder(models, a) && InCreationOrder(models, b)
    ensures InCreationOrder(models, a + b) <==>
            forall r, q :: r in a && q in b ==> Creator(models, r) <= Creator(models, q)
  {
    if InCreationOrder(models, a + b) {
      forall r, q | r in a && q in b ensures Creator(models, r) <= Creator(models, q) {
        var i :| 0 <= i < |a| && a[i] == r;
        var j :| 0 <= j < |b| && b[j] == q;
        assert (a + b)[i] == r && (a + b)[|a| + j] == q;
      }
    } else {
      var i, j :| 0 <= i < j < |a + b| && Creator(models, (a + b)[i]) > Creator(models, (a + b)[j]);
      assert i < |a| <= j;
      assert a[i] in a && b[j - |a|] in b;
    }
  }

  lemma EmittedAscends(models: seq<Model>)
    ensures InCreationOrder(models, Emitted(models)) <==> Aligned(models)
  {
    var order := Order(models, |models|);
    EmittedMeans(models);
    AscendingConcat(models, Select(order, false), Select(order, true));
  }

  /** Unless the groups ascend, two neighbours among them descend. */
  lemma {:induction false} Descent(models: seq<Model>, groups: seq<Request>) returns (i: nat)
    requires !InCreationOrder(models, groups)
    ensures i + 1 < |groups| && Creator(models, groups[i]) > Creator(models, groups[i + 1])
  {
    var n := |groups| - 1;
    if !InCreationOrder(models, groups[..n]) {
      i := Descent(models, groups[..n]);
    } else {
      i := n - 1;
      if Creator(models, groups[n - 1]) <= Creator(models, groups[n]) {
        assert forall k :: 0 <= k < n ==> groups[..n][k] == groups[k];
        forall a, b | 0 <= a < b < |groups| ensures Creator(models, groups[a]) <= Creator(models, groups[b]) {
          if b == n && a < n - 1 {
            assert Creator(models, groups[..n][a]) <= Creator(models, groups[..n][n - 1]);
          }
        }
      }
    }
  }

  /** Each route lists its models in document order, from the model that opened it. */
  lemma RouteShape(models: seq<Model>, k: nat)
    requires k < |Routes(models)|
    ensures Routes(models)[k] != [] && Routes(models)[k][0] == Creator(models, Emitted(models)[k])
    ensures Increasing(Routes(models)[k]) && forall i :: i in Routes(models)[k] ==> i < |models|
  {
    var r := Emitted(models)[k];
    EmittedMeans(models);
    assert r in Emitted(models);
    OnMeans(models, |models|, r);
    OrderAscends(models, |models|);
  }

  /** What the routes ask for is in document order exactly if the document is aligned. */
  lemma PairsExact(models: seq<Model>)
    ensures (forall a: nat, b: nat :: (a, b) in RoutePairs(Routes(models)) ==> a <= b) <==> Aligned(models)
  {
    var routes := Routes(models);
    EmittedAscends(models);
    if Aligned(models) {
      forall a: nat, b: nat | (a, b) in RoutePairs(routes) ensures a <= b {
        PairForward(models, a, b);
      }
    } else {
      var i := Descent(models, Emitted(models));
      RouteShape(models, i);
      RouteShape(models, i + 1);
      var a, b := routes[i][0], routes[i + 1][0];
      assert LeadAt(routes, i, i + 1, a, b);
      RoutePairsMean(routes, a, b);
      assert a > b;
    }
  }

  lemma PairForward(models: seq<Model>, a: nat, b: nat)
    requires InCreationOrder(models, Emitted(models)) && (a, b) in RoutePairs(Routes(models))
    ensures a <= b
  {
    var routes := Routes(models);
    RoutePairsMean(routes, a, b);
    if Neighbours(routes, a, b) {
      var r, i :| 0 <= r < |routes| && 0 <= i < |routes[r]| - 1 && routes[r][i] == a && routes[r][i + 1] == b;
      RouteShape(models, r);
    } else {
      var r, s :| LeadAt(routes, r, s, a, b);
      RouteShape(models, r);
      RouteShape(models, s);
    }
  }

  // ---------------------------------------------------------------------------------------------
  // Rows
  // ---------------------------------------------------------------------------------------------

  /** The aliases of the first n models, each once: the order of the ai_models rows. */
  ghost function Aliases(models: seq<Model>, n: nat): (aliases: seq<string>)
    requires n <= |models|
    ensures NoDup(aliases) && forall a :: a in aliases <==> exists i :: 0 <= i < n && models[i].alias == a
  {
    if n == 0 then []
    else
      var before, last := Aliases(models, n - 1), models[n - 1].alias;
      if last in before then before else before + [last]
  }

  /** The row of a model. */
  ghost function RowOf(models: seq<Model>, i: nat): int
    requires i < |models|
  {
    IndexOf(Aliases(models, |models|), models[i].alias)
  }

  lemma {:induction false} AliasesGrow(models: seq<Model>, m: nat, n: nat)
    requires m <= n <= |models|
    ensures Aliases(models, m) <= Aliases(models, n)
    decreases n
  {
    if m < n {
      AliasesGrow(models, m, n - 1);
    }
  }

  lemma IndexOnce<T>(s: seq<T>, i: nat)
    requires NoDup(s) && i < |s|
    ensures IndexOf(s, s[i]) == i
  {
    assert s[IndexOf(s, s[i])] == s[i];
  }

  /** The row of a model is at most the number of aliases of the models before it. */
  lemma RowBound(models: seq<Model>, p: nat)
    requires p < |models|
    ensures RowOf(models, p) <= |Aliases(models, p)|
  {
    var all, next := Aliases(models, |models|), Aliases(models, p + 1);
    AliasesGrow(models, p + 1, |models|);
    assert models[p].alias in next;
    var k :| 0 <= k < |next| && next[k] == models[p].alias;
    IndexOnce(all, k);
  }

  /** All smaller rows belong to earlier models. */
  lemma EarlierRow(models: seq<Model>, p: nat, r: nat)
    requires p < |models| && r < RowOf(models, p)
    ensures exists j :: 0 <= j < p && RowOf(models, j) == r
  {
    var all, before := Aliases(models, |models|), Aliases(models, p);
    RowBound(models, p);
    AliasesGrow(models, p, |models|);
    assert before[r] in before && all[r] == before[r];
    var j :| 0 <= j < p && models[j].alias == before[r];
    IndexOnce(all, r);
    assert RowOf(models, j) == r;
  }

  // ---------------------------------------------------------------------------------------------
  // The layout of a converted document
  // ---------------------------------------------------------------------------------------------

  /** l asks for what the routes and the rows of the document ask for, where model i has the key ks[i]. */
  ghost predicate LayoutFrom(models: seq<Model>, ks: seq<string>, l: Layout) {
    |ks| == |models| && NoDup(ks) &&
    (forall i: nat, j: nat :: i < |ks| && j < |ks| ==>
       ((ks[i], ks[j]) in l.before <==> i != j && (i, j) in RoutePairs(Routes(models)))) &&
    forall i :: 0 <= i < |ks| ==> l.Row(ks[i]) == RowOf(models, i)
  }

  /** The document order meets the layout exactly if the document is aligned. */
  lemma DocumentOrderExact(models: seq<Model>, ks: seq<string>, keys: seq<string>, l: Layout)
    requires LayoutFrom(models, ks, l) && IsPermutation(ks, keys)
    ensures l.Respects(keys, ks) <==> Aligned(models)
  {
    PairsExact(models);
    RowsInOrder(models, ks, l);
    if Aligned(models) {
      forall p: nat, q: nat | p < |ks| && q < |ks| && (ks[p], ks[q]) in l.before ensures p < q {
        assert (p, q) in RoutePairs(Routes(models));
      }
    } else {
      var a: nat, b: nat :| (a, b) in RoutePairs(Routes(models)) && a > b;
      PairBounds(models, a, b);
      assert (ks[a], ks[b]) in l.before;
    }
  }

  lemma PairBounds(models: seq<Model>, a: nat, b: nat)
    requires (a, b) in RoutePairs(Routes(models))
    ensures a < |models| && b < |models|
  {
    var routes := Routes(models);
    RoutePairsMean(routes, a, b);
    if Neighbours(routes, a, b) {
      var r, i :| 0 <= r < |routes| && 0 <= i < |routes[r]| - 1 && routes[r][i] == a && routes[r][i + 1] == b;
      RouteShape(models, r);
      assert a in routes[r] && b in routes[r];
    } else {
      var r, s :| LeadAt(routes, r, s, a, b);
      RouteShape(models, r);
      RouteShape(models, s);
      assert a in routes[r] && b in routes[s];
    }
  }

  lemma RowsInOrder(models: seq<Model>, ks: seq<string>, l: Layout)
    requires LayoutFrom(models, ks, l)
    ensures l.RowsAppearInOrder(ks)
  {
    forall p, r | 0 <= p < |ks| && 0 <= r < l.Row(ks[p]) ensures l.RowSeen(ks[..p], r) {
      EarlierRow(models, p, r);
      var j :| 0 <= j < p && RowOf(models, j) == r;
      assert ks[..p][j] == ks[j] && ks[j] in ks[..p];
    }
  }

  // ---------------------------------------------------------------------------------------------
  // The accumulator of a converted document
  // ---------------------------------------------------------------------------------------------

  /** The routes ds list what at gives for the routes cs. */
  ghost predicate Mapped<T>(at: seq<T>, cs: seq<seq<nat>>, ds: seq<seq<T>>) {
    |ds| == |cs| && (forall r :: 0 <= r < |cs| ==> |ds[r]| == |cs[r]|) &&
    forall r, i :: 0 <= r < |cs| && 0 <= i < |cs[r]| ==> cs[r][i] < |at| && ds[r][i] == at[cs[r][i]]
  }

  lemma MappedPairs<T>(at: seq<T>, cs: seq<seq<nat>>, ds: seq<seq<T>>, a: nat, b: nat)
    requires NoDup(at) && Mapped(at, cs, ds) && a < |at| && b < |at|
    ensures (at[a], at[b]) in RoutePairs(ds) <==> (a, b) in RoutePairs(cs)
  {
    RoutePairsMean(cs, a, b);
    RoutePairsMean(ds, at[a], at[b]);
    if r, i :| 0 <= r < |cs| && 0 <= i < |cs[r]| - 1 && cs[r][i] == a && cs[r][i + 1] == b {
      assert ds[r][i] == at[a] && ds[r][i + 1] == at[b];
    }
    if r, i :| 0 <= r < |ds| && 0 <= i < |ds[r]| - 1 && ds[r][i] == at[a] && ds[r][i + 1] == at[b] {
      assert cs[r][i] == a && cs[r][i + 1] == b;
    }
    if r, s :| LeadAt(cs, r, s, a, b) {
      assert LeadAt(ds, r, s, at[a], at[b]);
    }
    if r, s :| LeadAt(ds, r, s, at[a], at[b]) {
      assert LeadAt(cs, r, s, a, b);
    }
  }

  ghost function GroupsAt(acc: ModelAcc, ks: seq<string>): seq<ModelGroup>
    requires forall k :: k in ks ==> k in acc.groups
    reads acc
  {
    seq(|ks|, i requires 0 <= i < |ks| && ks[i] in acc.groups reads acc => acc.groups[ks[i]])
  }

  /**
    The reverter has recovered the models one by one, model i under the key ks[i]: its routes list the
    groups of the models, and the groups with a row own the aliases of the document in order.
   */
  ghost predicate Recovered(acc: ModelAcc, models: seq<Model>, ks: seq<string>, keys: seq<string>)
    reads acc, acc.members
  {
    acc.Valid() && |ks| == |models| && NoDup(ks) && IsPermutation(ks, keys) &&
    (forall k :: k in ks ==> k in acc.groups) && (forall k :: k in keys ==> k in acc.groups) &&
    Mapped(GroupsAt(acc, ks), Routes(models), acc.routeGroups) &&
    OwnAliases(acc, models, ks, acc.RowOwners(keys))
  }

  ghost predicate OwnAliases(acc: ModelAcc, models: seq<Model>, ks: seq<string>, owners: seq<string>)
    requires |ks| == |models| && forall k :: k in ks ==> k in acc.groups
    reads acc, acc.members
  {
    NoDup(owners) && |owners| == |Aliases(models, |models|)| &&
    forall i :: 0 <= i < |ks| ==> acc.FamilyKey(ks[i]) == owners[RowOf(models, i)]
  }

  /** The layout that the reverter sorts by is the one that the document gives. */
  lemma RecoveredLayout(acc: ModelAcc, models: seq<Model>, ks: seq<string>, keys: seq<string>)
    requires Recovered(acc, models, ks, keys)
    ensures LayoutFrom(models, ks, acc.LayoutOf(keys))
  {
    var at, l, owners := GroupsAt(acc, ks), acc.LayoutOf(keys), acc.RowOwners(keys);
    PermutationFacts(ks, keys);
    forall i, j | 0 <= i < j < |at| ensures at[i] != at[j] {
      assert at[i].key == ks[i] && at[j].key == ks[j];
    }
    forall i: nat, j: nat | i < |ks| && j < |ks|
      ensures (ks[i], ks[j]) in l.before <==> i != j && (i, j) in RoutePairs(Routes(models))
    {
      MappedPairs(at, Routes(models), acc.routeGroups, i, j);
      assert ks[i] in keys && ks[j] in keys && acc.groups[ks[i]] == at[i] && acc.groups[ks[j]] == at[j];
    }
    forall i | 0 <= i < |ks| ensures l.Row(ks[i]) == RowOf(models, i) {
      assert ks[i] in keys;
      IndexOnce(owners, RowOf(models, i));
    }
  }

  /** The order of the document is one that the sort looks for exactly if the document is aligned. */
  lemma DocumentOrderRespected(acc: ModelAcc, models: seq<Model>, ks: seq<string>, keys: seq<string>)
    requires Recovered(acc, models, ks, keys)
    ensures acc.LayoutOf(keys).Respects(keys, ks) <==> Aligned(models)
  {
    RecoveredLayout(acc, models, ks, keys);
    DocumentOrderExact(models, ks, keys, acc.LayoutOf(keys));
  }

  /** The sort is never stuck on an aligned document. */
  lemma AlignedIsSorted(acc: ModelAcc, models: seq<Model>, ks: seq<string>, keys: seq<string>, out: seq<string>)
    requires Recovered(acc, models, ks, keys) && Aligned(models)
    requires acc.LayoutOf(keys).BestOrder(keys, out)
    ensures acc.LayoutOf(keys).Respects(keys, out)
  {
    DocumentOrderRespected(acc, models, ks, keys);
  }

  // ---------------------------------------------------------------------------------------------
  // Documents that are not aligned
  // ---------------------------------------------------------------------------------------------

  const CHAT := Request("chat", false)
  const OTHER_CHAT := Request("chat-2", false)
  const REALTIME := Request("realtime", true)

  /** Two models share a row, and the first has a WebSocket route too. */
  const WITH_REALTIME: seq<Model> := [Model("gpt", [CHAT, REALTIME]), Model("gpt", [OTHER_CHAT])]

  /** Two models share a row, and the first has a WebSocket route only. */
  const REALTIME_FIRST: seq<Model> := [Model("gpt", [REALTIME]), Model("gpt", [CHAT])]

  lemma OpenedOne(order: seq<Request>, r: Request)
    ensures Opened(order, [r]) == if r in order then order else order + [r]
  {
    assert [r][..0] == [] && Opened(order, []) == order;
  }

  lemma OpenedTwo(order: seq<Request>, r: Request, q: Request)
    ensures Opened(order, [r, q]) == Opened(Opened(order, [r]), [q])
  {
    assert [r, q][..1] == [r];
    OpenedOne(Opened(order, [r]), q);
  }

  lemma DistinctRequests()
    ensures CHAT != OTHER_CHAT && CHAT != REALTIME && OTHER_CHAT != REALTIME
  {
    assert |CHAT.key| != |OTHER_CHAT.key|;
  }

  lemma WithRealtimeRoutes()
    ensures Routes(WITH_REALTIME) == [[0], [1], [0]]
  {
    var models := WITH_REALTIME;
    DistinctRequests();
    OpenedTwo([], CHAT, REALTIME);
    OpenedOne([], CHAT);
    OpenedOne([CHAT], REALTIME);
    OpenedOne([CHAT, REALTIME], OTHER_CHAT);
    assert Order(models, 0) == [] && Order(models, 1) == [CHAT, REALTIME];
    SelectThree(Order(models, 2));
    assert Emitted(models) == [CHAT, OTHER_CHAT, REALTIME];
    WithRealtimeOn();
  }

  lemma WithRealtimeOn()
    ensures On(WITH_REALTIME, 2, CHAT) == On(WITH_REALTIME, 2, REALTIME) == [0] &&
            On(WITH_REALTIME, 2, OTHER_CHAT) == [1]
  {
    DistinctRequests();
    OnTwo(WITH_REALTIME, CHAT);
    OnTwo(WITH_REALTIME, OTHER_CHAT);
    OnTwo(WITH_REALTIME, REALTIME);
  }

  lemma SelectThree(order: seq<Request>)
    requires |order| == 3 && !order[0].websocket && order[1].websocket && !order[2].websocket
    ensures Select(order, false) == [order[0], order[2]] && Select(order, true) == [order[1]]
  {
    assert order[..2][..1] == order[..1] && order[..1][..0] == [];
    assert Select(order[..1], false) == [order[0]] && Select(order[..1], true) == [];
    assert Select(order[..2], false) == [order[0]] && Select(order[..2], true) == [order[1]];
  }

  lemma OnTwo(models: seq<Model>, r: Request)
    requires |models| == 2
    ensures On(models, 2, r) == (if r in models[0].requests then [0] else []) +
            if r in models[1].requests then [1] else []
  {
    assert On(models, 0, r) == [];
    assert On(models, 1, r) == if r in models[0].requests then [0] else [];
  }

  /** The routes ask for both orders of the two models, so the sort gives up. */
  lemma RealtimeStopsTheSort(acc: ModelAcc, ks: seq<string>, keys: seq<string>, out: seq<string>)
    requires Recovered(acc, WITH_REALTIME, ks, keys) && acc.LayoutOf(keys).BestOrder(keys, out)
    ensures !acc.LayoutOf(keys).Orderable(keys) && out == keys
  {
    var l, routes := acc.LayoutOf(keys), Routes(WITH_REALTIME);
    RecoveredLayout(acc, WITH_REALTIME, ks, keys);
    WithRealtimeRoutes();
    assert LeadAt<nat>(routes, 0, 1, 0, 1) && LeadAt<nat>(routes, 1, 2, 1, 0);
    RoutePairsMean<nat>(routes, 0, 1);
    RoutePairsMean<nat>(routes, 1, 0);
    assert (ks[0], ks[1]) in l.before && (ks[1], ks[0]) in l.before;
    forall s | IsPermutation(s, keys) ensures !l.KeepsPrecedence(s) {
      PermutationFacts(ks, keys);
      PermutationFacts(s, keys);
      assert ks[0] in s && ks[1] in s;
      var p :| 0 <= p < |s| && s[p] == ks[0];
      var q :| 0 <= q < |s| && s[q] == ks[1];
      assert (s[p], s[q]) in l.before && (s[q], s[p]) in l.before;
    }
  }

  lemma RealtimeFirstRoutes()
    ensures Routes(REALTIME_FIRST) == [[1], [0]]
  {
    var models := REALTIME_FIRST;
    DistinctRequests();
    OpenedOne([], REALTIME);
    OpenedOne([REALTIME], CHAT);
    assert Order(models, 0) == [] && Order(models, 1) == [REALTIME] && Order(models, 2) == [REALTIME, CHAT];
    SelectTwo([REALTIME, CHAT]);
    assert Emitted(models) == [CHAT, REALTIME];
    OnTwo(models, CHAT);
    OnTwo(models, REALTIME);
    assert On(models, 2, CHAT) == [1] && On(models, 2, REALTIME) == [0];
  }

  lemma SelectTwo(order: seq<Request>)
    requires |order| == 2 && order[0].websocket && !order[1].websocket
    ensures Select(order, false) == [order[1]] && Select(order, true) == [order[0]]
  {
    assert order[..1][..0] == [];
    assert Select(order[..1], false) == [] && Select(order[..1], true) == [order[0]];
  }

  lemma OneRow(models: seq<Model>)
    requires |models| == 2 && models[0].alias == models[1].alias
    ensures |Aliases(models, 2)| == 1 && RowOf(models, 0) == RowOf(models, 1) == 0
  {
    assert Aliases(models, 0) == [] && Aliases(models, 1) == [models[0].alias];
    IndexOnce(Aliases(models, 2), 0);
  }

  lemma OnlyBackwards(l: Layout, ks: seq<string>)
    requires LayoutFrom(REALTIME_FIRST, ks, l)
    ensures |ks| == 2 && (ks[1], ks[0]) in l.before && (ks[0], ks[1]) !in l.before
    ensures (ks[0], ks[0]) !in l.before && (ks[1], ks[1]) !in l.before
    ensures l.RowsAppearInOrder([ks[1], ks[0]])
  {
    var routes := Routes(REALTIME_FIRST);
    RealtimeFirstRoutes();
    OneRow(REALTIME_FIRST);
    assert LeadAt<nat>(routes, 0, 1, 1, 0);
    RoutePairsMean<nat>(routes, 1, 0);
    RoutePairsMean<nat>(routes, 0, 1);
    var back := [ks[1], ks[0]];
    assert forall p :: 0 <= p < 2 ==> l.Row(back[p]) == 0;
  }

  lemma TwoOrders(a: string, b: string, s: seq<string>)
    requires IsPermutation(s, [a, b]) && a != b
    ensures s == [a, b] || s == [b, a]
  {
    PermutationFacts([a, b], s);
    PermutationFacts(s, [a, b]);
    assert s[0] in s && s[1] in s;
    assert s[0] in [a, b] && s[1] in [a, b];
    assert s == [s[0], s[1]];
  }

  /** The routes ask for the opposite of the document order, and the sort gives just that. */
  lemma RealtimeReverses(acc: ModelAcc, ks: seq<string>, keys: seq<string>, out: seq<string>)
    requires Recovered(acc, REALTIME_FIRST, ks, keys) && acc.LayoutOf(keys).BestOrder(keys, out)
    requires IsPermutation(out, keys)
    ensures out == [ks[1], ks[0]]
  {
    var l, back := acc.LayoutOf(keys), [ks[1], ks[0]];
    RecoveredLayout(acc, REALTIME_FIRST, ks, keys);
    OnlyBackwards(l, ks);
    assert ks == [ks[0], ks[1]];
    assert IsPermutation(back, keys) && l.Respects(keys, back);
    TwoOrders(ks[0], ks[1], out);
  }
  // ---------------------------------------------------------------------------------------------
  // Accumulators of these documents
  // ---------------------------------------------------------------------------------------------

  /** The groups of the routes, where model i has the group at[i]. */
  method MapRoutes(at: seq<ModelGroup>, routes: seq<seq<nat>>) returns (groups: seq<seq<ModelGroup>>)
    requires forall r, i :: 0 <= r < |routes| && 0 <= i < |routes[r]| ==> routes[r][i] < |at|
    ensures Mapped(at, routes, groups)
  {
    groups := [];
    for r := 0 to |routes|
      invariant Mapped(at, routes[..r], groups)
    {
      var listed: seq<ModelGroup> := [];
      for i := 0 to |routes[r]|
        invariant |listed| == i && forall j :: 0 <= j < i ==> listed[j] == at[routes[r][j]]
      {
        listed := listed + [at[routes[r][i]]];
      }
      groups := groups + [listed];
    }
    assert routes[..|routes|] == routes;
  }

  function Keys(owner: string, split: string, ownerFirst: bool): seq<string> {
    if ownerFirst then [owner, split] else [split, owner]
  }

  /** The accumulator of two models on one row: one of the two groups owns it, the other was split from that. */
  method Accumulate(routes: seq<seq<nat>>, owner: string, split: string, ownerFirst: bool, alias: string,
      ghost models: seq<Model>) returns (acc: ModelAcc)
    requires |models| == 2 && models[0].alias == models[1].alias == alias && routes == Routes(models) && owner != split
    requires forall r, i :: 0 <= r < |routes| && 0 <= i < |routes[r]| ==> routes[r][i] < 2
    ensures fresh(acc) && acc.order == [owner, split]
    ensures Recovered(acc, models, Keys(owner, split, ownerFirst), [owner, split])
  {
    var g := new ModelGroup(owner, owner, alias, [alias], [], false, "", false);
    g.hasEntry := true;
    var h := new ModelGroup(split, split, alias, [alias], [], true, owner, false);
    var at := if ownerFirst then [g, h] else [h, g];
    var routeGroups := MapRoutes(at, routes);
    acc := new ModelAcc(map[owner := g, split := h], [owner, split], true, routeGroups);
    assert acc.Valid();
    assert GroupsAt(acc, Keys(owner, split, ownerFirst)) == at;
    OneOwner(acc, owner, split);
    RecoveredTwo(acc, models, owner, split, ownerFirst);
  }

  lemma RecoveredTwo(acc: ModelAcc, models: seq<Model>, owner: string, split: string, ownerFirst: bool)
    requires |models| == 2 && models[0].alias == models[1].alias && owner != split && acc.Valid()
    requires owner in acc.groups && split in acc.groups && acc.RowOwners([owner, split]) == [owner]
    requires acc.FamilyKey(owner) == acc.FamilyKey(split) == owner
    requires Mapped(GroupsAt(acc, Keys(owner, split, ownerFirst)), Routes(models), acc.routeGroups)
    ensures Recovered(acc, models, Keys(owner, split, ownerFirst), [owner, split])
  {
    var ks, keys := Keys(owner, split, ownerFirst), [owner, split];
    KeysPermute(owner, split, ownerFirst);
    assert forall k :: k in ks || k in keys ==> k == owner || k == split;
    OwnsBoth(acc, models, ks, owner);
  }

  lemma OwnsBoth(acc: ModelAcc, models: seq<Model>, ks: seq<string>, owner: string)
    requires |models| == |ks| == 2 && models[0].alias == models[1].alias
    requires forall k :: k in ks ==> k in acc.groups
    requires forall i :: 0 <= i < 2 ==> acc.FamilyKey(ks[i]) == owner
    ensures OwnAliases(acc, models, ks, [owner])
  {
    OneRow(models);
    forall i | 0 <= i < 2 ensures acc.FamilyKey(ks[i]) == [owner][RowOf(models, i)] {
      assert RowOf(models, i) == 0;
    }
  }

  lemma KeysPermute(owner: string, split: string, ownerFirst: bool)
    ensures IsPermutation(Keys(owner, split, ownerFirst), [owner, split])
  {
  }

  lemma OneOwner(acc: ModelAcc, owner: string, split: string)
    requires acc.Closed() && owner in acc.groups && split in acc.groups && acc.OwnsRow(owner) && !acc.OwnsRow(split)
    ensures acc.RowOwners([owner, split]) == [owner]
  {
    assert [owner, split][..1] == [owner] && [owner][..0] == [];
    assert acc.RowOwners([owner]) == acc.RowOwners([]) + [owner];
  }

  method SortRecovered(acc: ModelAcc, keys: seq<string>, ghost models: seq<Model>, ghost ks: seq<string>)
    returns (out: seq<string>)
    requires Recovered(acc, models, ks, keys) && acc.Lists(keys)
    ensures IsPermutation(out, keys) && acc.LayoutOf(keys).BestOrder(keys, out)
  {
    out := acc.SortByRoutes(keys, acc.LayoutOf(keys));
  }

  /** The sort of a document with a realtime capability leaves the models as they are. */
  method SortWithRealtime(owner: string, split: string) returns (acc: ModelAcc, out: seq<string>)
    requires owner != split
    ensures Recovered(acc, WITH_REALTIME, [owner, split], [owner, split]) && out == [owner, split]
    ensures !acc.LayoutOf([owner, split]).Orderable([owner, split])
  {
    WithRealtimeRoutes();
    acc := Accumulate([[0], [1], [0]], owner, split, true, "gpt", WITH_REALTIME);
    var keys := [owner, split];
    out := SortRecovered(acc, keys, WITH_REALTIME, keys);
    RealtimeStopsTheSort(acc, keys, keys, out);
  }

  /** The sort puts the model of the HTTP route, which is the second of the document, first. */
  method SortRealtimeFirst(owner: string, split: string) returns (acc: ModelAcc, out: seq<string>)
    requires owner != split
    ensures Recovered(acc, REALTIME_FIRST, [split, owner], [owner, split]) && out == [owner, split]
  {
    RealtimeFirstRoutes();
    acc := Accumulate([[1], [0]], owner, split, false, "gpt", REALTIME_FIRST);
    var keys := [owner, split];
    out := SortRecovered(acc, keys, REALTIME_FIRST, [split, owner]);
    RealtimeReverses(acc, [split, owner], keys, out);
  }
}
