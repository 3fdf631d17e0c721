/**
  Which routes the models of a document give, and in what order, in terms of the models alone
  (convert/model.go, convertModel and convertModelsPass).
 */
module EmittedRoutes {
  import opened Sequences
  import opened DocumentOrder

  /** Model i asks for the group with its request l. */
  ghost predicate Asks(models: seq<Model>, i: int, l: int, r: Request) {
    0 <= i < |models| && 0 <= l < |models[i].requests| && models[i].requests[l] == r
  }

  ghost predicate Before(i: int, l: int, k: int, m: int) {
    i < k || (i == k && l < m)
  }

  /** Some request for r comes before all requests for q. */
  ghost predicate AskedFirst(models: seq<Model>, r: Request, q: Request) {
    exists i, l :: Asks(models, i, l, r) && AheadOfAll(models, i, l, q)
  }

  ghost predicate AheadOfAll(models: seq<Model>, i: int, l: int, q: Request) {
    forall k, m :: Asks(models, k, m, q) ==> Before(i, l, k, m)
  }

  /** HTTP routes come first; the groups of one protocol come in the order in which they were first asked for. */
  ghost predicate Follows(models: seq<Model>, r: Request, q: Request) {
    (!r.websocket && q.websocket) || (r.websocket == q.websocket && AskedFirst(models, r, q))
  }

  /** A request in front of request m of model k is for the group. */
  ghost predicate AskedBy(models: seq<Model>, k: int, m: int, r: Request) {
    exists i, l :: Asks(models, i, l, r) && Before(i, l, k, m)
  }

  ghost predicate InAskedOrder(models: seq<Model>, order: seq<Request>) {
    forall a, b :: 0 <= a < b < |order| ==> order[a] != order[b] && AskedFirst(models, order[a], order[b])
  }

  /** The groups are those asked for in front of request j of model n, in the order of their first requests. */
  ghost predicate OpenedTo(models: seq<Model>, n: nat, j: nat, order: seq<Request>) {
    InAskedOrder(models, order) && forall r :: r in order <==> AskedBy(models, n, j, r)
  }

  lemma AskNext(models: seq<Model>, n: nat, j: nat, order: seq<Request>, r: Request)
    requires OpenedTo(models, n, j, order) && Asks(models, n, j, r)
    ensures OpenedTo(models, n, j + 1, if r in order then order else order + [r])
  {
    forall q ensures AskedBy(models, n, j + 1, q) <==> AskedBy(models, n, j, q) || q == r {
      AskedNext(models, n, j, r, q);
    }
    if r !in order {
      assert !AskedBy(models, n, j, r);
      forall x | x in order ensures x != r && AskedFirst(models, x, r) {
        var i, l :| Asks(models, i, l, x) && Before(i, l, n, j);
        forall k, m | Asks(models, k, m, r) ensures Before(i, l, k, m) {
          assert !Before(k, m, n, j);
        }
        assert AheadOfAll(models, i, l, r);
      }
    }
  }

  lemma AskedNext(models: seq<Model>, n: nat, j: nat, r: Request, q: Request)
    requires Asks(models, n, j, r)
    ensures AskedBy(models, n, j + 1, q) <==> AskedBy(models, n, j, q) || q == r
  {
    if i, l :| Asks(models, i, l, q) && Before(i, l, n, j) {
      assert Before(i, l, n, j + 1);
    }
    if q == r {
      assert Before(n, j, n, j + 1);
    }
    if i, l :| Asks(models, i, l, q) && Before(i, l, n, j + 1) {
      assert Before(i, l, n, j) || (i == n && l == j);
    }
  }

  lemma {:induction false} OpenedAsked(models: seq<Model>, n: nat, j: nat)
    requires n < |models| && j <= |models[n].requests|
    requires OpenedTo(models, n, 0, Order(models, n))
    ensures OpenedTo(models, n, j, Opened(Order(models, n), models[n].requests[..j]))
  {
    if j > 0 {
      var m, r := j - 1, models[n].requests[j - 1];
      OpenedAsked(models, n, m);
      OpensNext(models, n, m);
      assert Asks(models, n, m, r);
      AskNext(models, n, m, Opened(Order(models, n), models[n].requests[..m]), r);
    } else {
      assert Opened(Order(models, n), []) == Order(models, n);
    }
  }

  lemma {:induction false} OrderAsked(models: seq<Model>, n: nat)
    requires n <= |models|
    ensures OpenedTo(models, n, 0, Order(models, n))
  {
    if n > 0 {
      var m := n - 1;
      OrderAsked(models, m);
      OpenedAsked(models, m, |models[m].requests|);
      TakeAll(models[m].requests);
      forall r ensures AskedBy(models, n, 0, r) <==> AskedBy(models, m, |models[m].requests|, r) {
        AskedByModels(models, m, n, r);
      }
    }
  }

  lemma AskedByModels(models: seq<Model>, m: nat, n: nat, r: Request)
    requires m < |models| && n == m + 1
    ensures AskedBy(models, n, 0, r) <==> AskedBy(models, m, |models[m].requests|, r)
  {
    if i, l :| Asks(models, i, l, r) && Before(i, l, n, 0) {
      assert Before(i, l, m, |models[m].requests|);
    }
    if i, l :| Asks(models, i, l, r) && Before(i, l, m, |models[m].requests|) {
      assert Before(i, l, n, 0);
    }
  }

  lemma {:induction false} SelectKeepsOrder(models: seq<Model>, order: seq<Request>, websocket: bool)
    requires InAskedOrder(models, order)
    ensures InAskedOrder(models, Select(order, websocket))
    ensures forall r :: r in Select(order, websocket) <==> r in order && r.websocket == websocket
  {
    if order != [] {
      var init, last := order[..|order| - 1], order[|order| - 1];
      assert order == init + [last];
      SelectKeepsOrder(models, init, websocket);
      forall r | r in init ensures r != last && AskedFirst(models, r, last) {
        var i :| 0 <= i < |init| && init[i] == r;
        assert order[i] == r;
      }
      assert forall i :: 0 <= i < |Select(init, websocket)| ==> Select(init, websocket)[i] in Select(init, websocket);
    }
  }

  /** Each group that a model asks for gives one route, with the models that ask for it in document order. */
  lemma RoutesMean(models: seq<Model>) returns (groups: seq<Request>)
    ensures |Routes(models)| == |groups|
    ensures forall r :: r in groups <==> exists i, l :: Asks(models, i, l, r)
    ensures forall a, b :: 0 <= a < b < |groups| ==> groups[a] != groups[b] && Follows(models, groups[a], groups[b])
    ensures forall k :: 0 <= k < |groups| ==>
              Increasing(Routes(models)[k]) &&
              forall i: nat :: i in Routes(models)[k] <==> i < |models| && groups[k] in models[i].requests
  {
    var order := Order(models, |models|);
    OrderAsked(models, |models|);
    SelectKeepsOrder(models, order, false);
    SelectKeepsOrder(models, order, true);
    var http, websocket := Select(order, false), Select(order, true);
    groups := Emitted(models);
    assert groups == http + websocket;
    assert forall i :: 0 <= i < |http| ==> http[i] in http;
    assert forall i :: 0 <= i < |websocket| ==> websocket[i] in websocket;
    forall r ensures r in groups <==> exists i, l :: Asks(models, i, l, r) {
      if i, l :| Asks(models, i, l, r) {
        assert Before(i, l, |models|, 0);
        assert AskedBy(models, |models|, 0, r);
      }
      assert r in groups <==> r in order;
    }
    forall k | 0 <= k < |groups|
      ensures Increasing(Routes(models)[k]) &&
              forall i: nat :: i in Routes(models)[k] <==> i < |models| && groups[k] in models[i].requests
    {
      OnMeans(models, |models|, groups[k]);
    }
  }
}
