/**
  Models that share a route, and the authentication plugins of the route (convert/model.go,
  the grouping loop and the plugin loop of convertModel; convert/authstrategy.go).

  An authentication plugin is scoped to a route and so protects every model on it. Models with
  different sets of auth strategies therefore never share a route.

  The key that groups models is a tuple here, with a set of strategies. In the program it is a
  string; AuthKeyExact shows that its strategy part stands for the set.
 */
module AuthSharing {
  import opened Sequences
  import opened Sorting
  import UniqueNames

  /** An auth strategy, and whether its token_vault block can be applied. */
  datatype Strategy = Strategy(kind: string, tokenVaultApplies: bool)
  {
    predicate Buildable() {
      kind in {"key-auth", "openid-connect"} && tokenVaultApplies
    }
  }

  /** A route that a model asks for: one (target, capability, endpoint) of the model. */
  datatype Request = Request(section: string, endpoint: string, mantle: bool, config: string, websocket: bool)

  /** A model; video says that it gets a video lifecycle route of its own behind the routes that it shares. */
  datatype Model = Model(name: string, strategies: seq<string>, requests: seq<Request>, video: bool)

  datatype GroupKey = GroupKey(section: string, endpoint: string, mantle: bool, strategies: set<string>,
      config: string, owner: Option<string>)
  {
    /** A WebSocket route with several strategies: nothing rejects the anonymous consumer there. */
    predicate NeedsFallback() {
      owner.Some? && |strategies| > 1
    }
  }

  function KeyOf(m: Model, r: Request): GroupKey {
    GroupKey(r.section, r.endpoint, r.mantle, (set s | s in m.strategies), r.config,
        if r.websocket then Some(m.name) else None)
  }

  datatype Group = Group(route: string, models: seq<string>)

  /** An authentication plugin on a route; anonymous says that it falls back to the anonymous consumer. */
  datatype AuthPlugin = AuthPlugin(strategy: string, route: string, anonymous: bool)

  type Groups = map<GroupKey, Group>

  type Seen = set<(string, set<string>)>

  // ---------------------------------------------------------------------------------------------
  // What sharing has to keep
  // ---------------------------------------------------------------------------------------------

  /** The strategies of the plugins on a route, in order. */
  function On(plugins: seq<AuthPlugin>, route: string): seq<string> {
    if plugins == [] then []
    else
      var init, p := On(plugins[..|plugins| - 1], route), plugins[|plugins| - 1];
      if p.route == route then init + [p.strategy] else init
  }

  /** The plugins on a route are exactly those strategies, each once, with a fallback only when there are several. */
  ghost predicate Protects(plugins: seq<AuthPlugin>, route: string, strategies: set<string>) {
    NoDup(On(plugins, route)) && Elements(On(plugins, route)) == strategies &&
    forall p :: p in plugins && p.route == route ==> p.anonymous == (|strategies| > 1)
  }

  ghost predicate DistinctRoutes(groups: Groups) {
    forall j, k :: j in groups && k in groups && groups[j].route == groups[k].route ==> j == k
  }

  /** Every model served on a group has the auth strategies of the group, and is listed there. */
  ghost predicate Served(groups: Groups, served: set<(Model, GroupKey)>) {
    forall s :: s in served ==>
      s.1 in groups && s.0.name in groups[s.1].models && s.1.strategies == Elements(s.0.strategies)
  }

  /** Every group but the pending ones is protected; the pending ones have no plugins yet. */
  ghost predicate Protected(groups: Groups, plugins: seq<AuthPlugin>, seen: Seen, pending: set<GroupKey>) {
    forall k :: k in groups ==> GroupProtected(k, groups[k].route, plugins, seen, k in pending)
  }

  ghost predicate GroupProtected(k: GroupKey, route: string, plugins: seq<AuthPlugin>, seen: Seen, pending: bool) {
    if pending then On(plugins, route) == [] && (route, k.strategies) !in seen
    else
      Protects(plugins, route, k.strategies) && ((route, k.strategies) in seen <==> k.strategies != {}) &&
      !k.NeedsFallback()
  }

  /** Only reserved names are in use. */
  ghost predicate Reserved(groups: Groups, plugins: seq<AuthPlugin>, seen: Seen, used: set<string>) {
    (forall k :: k in groups ==> groups[k].route in used) &&
    (forall p :: p in plugins ==> p.route in used) &&
    (forall s :: s in seen ==> s.0 in used)
  }

  /** Each lifecycle route is protected as its model asks, and is no other route of the pass. */
  ghost predicate LifecyclesProtected(lifecycles: seq<(Model, string)>, groups: Groups, plugins: seq<AuthPlugin>,
      used: set<string>) {
    (forall i :: 0 <= i < |lifecycles| ==>
       lifecycles[i].1 in used && Protects(plugins, lifecycles[i].1, Elements(lifecycles[i].0.strategies))) &&
    (forall i, j :: 0 <= i < j < |lifecycles| ==> lifecycles[i].1 != lifecycles[j].1) &&
    (forall i, k :: 0 <= i < |lifecycles| && k in groups ==> groups[k].route != lifecycles[i].1)
  }

  // Routes by requests

  /** Two requests go to one route: all that it matches and protects agrees, and a WebSocket route is not shared. */
  ghost predicate SameRoute(m: Model, r: Request, n: Model, s: Request) {
    r.section == s.section && r.endpoint == s.endpoint && r.mantle == s.mantle && r.config == s.config &&
    (forall a :: a in m.strategies <==> a in n.strategies) &&
    r.websocket == s.websocket && (r.websocket ==> m.name == n.name)
  }

  /** A route of the pass serves the model. */
  ghost predicate Lists(groups: Groups, route: string, name: string) {
    exists k :: k in groups && groups[k].route == route && name in groups[k].models
  }

  /** Every request has a route that serves its model, and there are no other routes. */
  ghost predicate RoutesOfRequests(models: seq<Model>, groups: Groups, routes: map<(Model, Request), string>) {
    (forall q :: q in routes <==> q.0 in models && q.1 in q.0.requests) &&
    (forall q :: q in routes ==> Lists(groups, routes[q], q.0.name)) &&
    forall k :: k in groups ==> exists q :: q in routes && routes[q] == groups[k].route
  }

  /** The name is the base, or the base with a number. */
  ghost predicate NamedAfter(name: string, base: string) {
    name == base || exists n: nat :: n >= 2 && name == base + "-" + UniqueNames.Decimal(n)
  }

  /** The routes are named after what they serve, and serve each model once and no other models. */
  ghost predicate RoutesAreOrderly(groups: Groups, routes: map<(Model, Request), string>) {
    (forall q :: q in routes ==> NamedAfter(routes[q], q.1.section + "-" + q.1.endpoint)) &&
    forall k :: k in groups ==>
      NoDup(groups[k].models) &&
      forall name :: name in groups[k].models ==>
        exists q :: q in routes && routes[q] == groups[k].route && q.0.name == name
  }

  ghost predicate GroupOrderly(k: GroupKey, g: Group, served: set<(Model, GroupKey)>) {
    NamedAfter(g.route, k.section + "-" + k.endpoint) && NoDup(g.models) &&
    forall name :: name in g.models ==> exists m :: (m, k) in served && m.name == name
  }

  /** Each group is named after its endpoint, and lists each model that is served on it once and no other. */
  ghost predicate Orderly(groups: Groups, served: set<(Model, GroupKey)>) {
    forall k :: k in groups ==> GroupOrderly(k, groups[k], served)
  }

  /** Only requests of the models are served. */
  ghost predicate OnlyServed(models: seq<Model>, served: set<(Model, GroupKey)>) {
    forall s :: s in served ==> s.0 in models && exists r :: r in s.0.requests && s.1 == KeyOf(s.0, r)
  }

  lemma NewGroupOrderly(groups: Groups, served: set<(Model, GroupKey)>, used: set<string>, k: GroupKey, name: string)
    requires Orderly(groups, served) && UniqueNames.FirstFree(k.section + "-" + k.endpoint, used, 0, name)
    ensures Orderly(groups[k := Group(name, [])], served)
  {
    UniqueNames.FirstFreeMeans(k.section + "-" + k.endpoint, used, name);
  }

  lemma ListedOrderly(groups: Groups, served: set<(Model, GroupKey)>, k: GroupKey, m: Model)
    requires Orderly(groups, served) && k in groups
    ensures var g := groups[k];
            Orderly(groups[k := Group(g.route, if m.name in g.models then g.models else g.models + [m.name])],
                served + {(m, k)})
  {
    var g := groups[k];
    var models := if m.name in g.models then g.models else g.models + [m.name];
    var after, more := groups[k := Group(g.route, models)], served + {(m, k)};
    forall j | j in after ensures GroupOrderly(j, after[j], more) {
      assert GroupOrderly(j, groups[j], served);
      forall name | name in after[j].models ensures exists n :: (n, j) in more && n.name == name {
        if name in groups[j].models {
          var n :| (n, j) in served && n.name == name;
          assert (n, j) in more;
        } else {
          assert (m, k) in more;
        }
      }
    }
  }

  lemma OrderlyRoutes(models: seq<Model>, groups: Groups, served: set<(Model, GroupKey)>,
      routes: map<(Model, Request), string>)
    requires Routed(models, groups, routes) && Orderly(groups, served) && OnlyServed(models, served)
    ensures RoutesAreOrderly(groups, routes)
  {
    forall k | k in groups
      ensures NoDup(groups[k].models)
      ensures forall name :: name in groups[k].models ==>
                exists q :: q in routes && routes[q] == groups[k].route && q.0.name == name
    {
      assert GroupOrderly(k, groups[k], served);
      forall name | name in groups[k].models
        ensures exists q :: q in routes && routes[q] == groups[k].route && q.0.name == name
      {
        var m :| (m, k) in served && m.name == name;
        assert (m, k).0 in models;
        var r :| r in m.requests && k == KeyOf(m, r);
        assert (m, r) in routes;
      }
    }
    forall q | q in routes ensures NamedAfter(routes[q], q.1.section + "-" + q.1.endpoint) {
      assert GroupOrderly(KeyOf(q.0, q.1), groups[KeyOf(q.0, q.1)], served);
    }
  }

  /** Two requests have one route exactly if they go to one. */
  ghost predicate SharedExactly(routes: map<(Model, Request), string>) {
    forall p, q :: p in routes && q in routes ==> (routes[p] == routes[q] <==> SameRoute(p.0, p.1, q.0, q.1))
  }

  lemma SameKey(m: Model, r: Request, n: Model, s: Request)
    ensures KeyOf(m, r) == KeyOf(n, s) <==> SameRoute(m, r, n, s)
  {
    var a, b := (set x | x in m.strategies), set x | x in n.strategies;
    if KeyOf(m, r) == KeyOf(n, s) {
      assert forall x :: x in m.strategies <==> x in a;
      assert forall x :: x in n.strategies <==> x in b;
    }
  }

  /** The groups are those of the requests of models. */
  ghost predicate GroupsOf(models: seq<Model>, groups: Groups) {
    forall k :: k in groups ==> exists m, r :: m in models && r in m.requests && k == KeyOf(m, r)
  }

  ghost predicate AllServed(models: seq<Model>, served: set<(Model, GroupKey)>) {
    forall m, r :: m in models && r in m.requests ==> (m, KeyOf(m, r)) in served
  }

  /** routes maps each request to the route of its group. */
  ghost predicate Routed(models: seq<Model>, groups: Groups, routes: map<(Model, Request), string>) {
    (forall q :: q in routes <==> q.0 in models && q.1 in q.0.requests) &&
    forall q :: q in routes ==> KeyOf(q.0, q.1) in groups && routes[q] == groups[KeyOf(q.0, q.1)].route
  }

  lemma RequestsRouted(models: seq<Model>, groups: Groups, served: set<(Model, GroupKey)>)
    returns (routes: map<(Model, Request), string>)
    requires Served(groups, served) && AllServed(models, served)
    ensures Routed(models, groups, routes)
  {
    var requests := set m, r | m in models && r in m.requests :: (m, r);
    forall q | q in requests ensures KeyOf(q.0, q.1) in groups {
      assert (q.0, KeyOf(q.0, q.1)) in served;
    }
    routes := map q | q in requests :: groups[KeyOf(q.0, q.1)].route;
  }

  lemma RoutedShares(models: seq<Model>, groups: Groups, routes: map<(Model, Request), string>)
    requires Routed(models, groups, routes) && DistinctRoutes(groups)
    ensures SharedExactly(routes)
  {
    forall p, q | p in routes && q in routes ensures routes[p] == routes[q] <==> SameRoute(p.0, p.1, q.0, q.1) {
      SameKey(p.0, p.1, q.0, q.1);
    }
  }

  lemma RoutedLists(models: seq<Model>, groups: Groups, served: set<(Model, GroupKey)>,
      routes: map<(Model, Request), string>)
    requires Routed(models, groups, routes) && Served(groups, served) && GroupsOf(models, groups)
    requires AllServed(models, served)
    ensures RoutesOfRequests(models, groups, routes)
  {
    forall q | q in routes ensures Lists(groups, routes[q], q.0.name) {
      var k := KeyOf(q.0, q.1);
      assert (q.0, k) in served;
      assert k in groups && groups[k].route == routes[q] && q.0.name in groups[k].models;
    }
    forall k | k in groups ensures exists q :: q in routes && routes[q] == groups[k].route {
      var m, r :| m in models && r in m.requests && k == KeyOf(m, r);
      assert (m, r) in routes && routes[(m, r)] == groups[k].route;
    }
  }

  lemma RoutesFound(models: seq<Model>, groups: Groups, served: set<(Model, GroupKey)>)
    returns (routes: map<(Model, Request), string>)
    requires DistinctRoutes(groups) && Served(groups, served)
    requires AllServed(models, served) && GroupsOf(models, groups)
    ensures Routed(models, groups, routes) && RoutesOfRequests(models, groups, routes) && SharedExactly(routes)
  {
    routes := RequestsRouted(models, groups, served);
    RoutedShares(models, groups, routes);
    RoutedLists(models, groups, served, routes);
  }

  lemma RoutedProtects(models: seq<Model>, groups: Groups, plugins: seq<AuthPlugin>, seen: Seen,
      routes: map<(Model, Request), string>)
    requires Routed(models, groups, routes) && Protected(groups, plugins, seen, {})
    ensures forall q :: q in routes ==> Protects(plugins, routes[q], Elements(q.0.strategies))
  {
    forall q | q in routes ensures Protects(plugins, routes[q], Elements(q.0.strategies)) {
      var k := KeyOf(q.0, q.1);
      assert GroupProtected(k, groups[k].route, plugins, seen, k in {});
      assert k.strategies == Elements(q.0.strategies);
    }
  }

  /** s is named ahead of all places that name t. */
  ghost predicate NamedAhead(refs: seq<string>, s: string, t: string) {
    exists i :: 0 <= i < |refs| && refs[i] == s && t !in refs[..i + 1]
  }

  ghost predicate InNamedOrder(refs: seq<string>, names: seq<string>) {
    forall a, b :: 0 <= a < b < |names| ==> NamedAhead(refs, names[a], names[b])
  }

  lemma NamedNext(refs: seq<string>, i: nat, names: seq<string>)
    requires i < |refs| && InNamedOrder(refs, names) && refs[i] !in refs[..i]
    requires forall s :: s in names ==> s in refs[..i]
    ensures InNamedOrder(refs, names + [refs[i]])
  {
    forall a | 0 <= a < |names| ensures NamedAhead(refs, names[a], refs[i]) {
      assert names[a] in names;
      var k :| 0 <= k < i && refs[k] == names[a];
      assert forall x :: x in refs[..k + 1] ==> x in refs[..i];
    }
  }

  /** A plugin that falls back needs the anonymous consumer. */
  ghost predicate Anonymous(plugins: seq<AuthPlugin>, consumer: bool) {
    forall p :: p in plugins && p.anonymous ==> consumer
  }

  /** What makes a model convertible, as far as its authentication goes. */
  ghost predicate Convertible(strategies: map<string, Strategy>, m: Model) {
    (forall s :: s in m.strategies ==>
       s in strategies && strategies[s].kind in {"key-auth", "openid-connect"} && strategies[s].tokenVaultApplies) &&
    (|Elements(m.strategies)| > 1 ==> forall r :: r in m.requests ==> !r.websocket)
  }

  lemma {:induction false} OnConcat(plugins: seq<AuthPlugin>, more: seq<AuthPlugin>, route: string)
    ensures On(plugins + more, route) == On(plugins, route) + On(more, route)
  {
    if more == [] {
      assert plugins + more == plugins;
    } else {
      var last := |more| - 1;
      OnConcat(plugins, more[..last], route);
      assert (plugins + more)[..|plugins + more| - 1] == plugins + more[..last];
    }
  }

  lemma {:induction false} OnAbsent(plugins: seq<AuthPlugin>, route: string)
    ensures On(plugins, route) == [] <==> forall p :: p in plugins ==> p.route != route
  {
    if plugins != [] {
      var init, last := plugins[..|plugins| - 1], plugins[|plugins| - 1];
      OnAbsent(init, route);
      assert plugins == init + [last];
      assert forall p :: p in plugins <==> p in init || p == last;
    }
  }

  /** The plugins on a route are read one by one, in order. */
  lemma {:induction false} OnPicks(plugins: seq<AuthPlugin>, route: string) returns (positions: seq<nat>)
    ensures Ascending(positions) && |On(plugins, route)| == |positions|
    ensures forall i: nat :: i in positions <==> i < |plugins| && plugins[i].route == route
    ensures forall k :: 0 <= k < |positions| ==>
              positions[k] in positions && On(plugins, route)[k] == plugins[positions[k]].strategy
  {
    positions := [];
    if plugins != [] {
      var n := |plugins| - 1;
      positions := OnPicks(plugins[..n], route);
      if plugins[n].route == route {
        AscendingNext(positions, n);
        positions := positions + [n];
      }
    }
  }

  function PluginsFor(strategies: seq<string>, route: string, fallback: bool): (plugins: seq<AuthPlugin>)
    ensures |plugins| == |strategies| && forall p :: p in plugins ==> p.route == route && p.anonymous == fallback
  {
    seq(|strategies|, i requires 0 <= i < |strategies| => AuthPlugin(strategies[i], route, fallback))
  }

  lemma {:induction false} OnPluginsFor(strategies: seq<string>, route: string, fallback: bool, other: string)
    ensures On(PluginsFor(strategies, route, fallback), other) == if other == route then strategies else []
  {
    if strategies != [] {
      var init := strategies[..|strategies| - 1];
      OnPluginsFor(init, route, fallback, other);
      assert PluginsFor(strategies, route, fallback)[..|strategies| - 1] == PluginsFor(init, route, fallback);
    }
  }

  // ---------------------------------------------------------------------------------------------
  // Single steps
  // ---------------------------------------------------------------------------------------------

  /** A group that is new in this model starts with no plugins. */
  lemma AddGroup(groups: Groups, plugins: seq<AuthPlugin>, seen: Seen, used: set<string>,
      pending: set<GroupKey>, k: GroupKey, g: Group)
    requires DistinctRoutes(groups) && Protected(groups, plugins, seen, pending) &&
             Reserved(groups, plugins, seen, used)
    requires k !in groups && g.route !in used
    ensures DistinctRoutes(groups[k := g]) && Protected(groups[k := g], plugins, seen, pending + {k})
    ensures Reserved(groups[k := g], plugins, seen, used + {g.route})
  {
    OnAbsent(plugins, g.route);
    forall j | j in groups[k := g]
      ensures GroupProtected(j, groups[k := g][j].route, plugins, seen, j in pending + {k})
    {
      if j != k {
        assert GroupProtected(j, groups[j].route, plugins, seen, j in pending);
      }
    }
  }

  /** Listing a model in a group changes no route. */
  lemma AddModel(groups: Groups, served: set<(Model, GroupKey)>, plugins: seq<AuthPlugin>, seen: Seen,
      used: set<string>, pending: set<GroupKey>, k: GroupKey, models: seq<string>, m: Model, groups': Groups)
    requires DistinctRoutes(groups) && Protected(groups, plugins, seen, pending) &&
             Reserved(groups, plugins, seen, used)
    requires Served(groups, served) && k in groups && k.strategies == Elements(m.strategies)
    requires m.name in models && forall name :: name in groups[k].models ==> name in models
    requires groups' == groups[k := Group(groups[k].route, models)]
    ensures DistinctRoutes(groups') && Protected(groups', plugins, seen, pending) &&
            Reserved(groups', plugins, seen, used)
    ensures Served(groups', served + {(m, k)})
  {
    forall j | j in groups ensures GroupProtected(j, groups'[j].route, plugins, seen, j in pending) {
      assert GroupProtected(j, groups[j].route, plugins, seen, j in pending);
    }
  }

  /** Writing the plugins of a pending group protects it, and leaves every other group as it was. */
  lemma WritePlugins(groups: Groups, plugins: seq<AuthPlugin>, seen: Seen, pending: set<GroupKey>, k: GroupKey,
      strategies: seq<string>)
    requires DistinctRoutes(groups) && Protected(groups, plugins, seen, pending)
    requires k in groups && k in pending && NoDup(strategies) && Elements(strategies) == k.strategies &&
             k.strategies != {}
    requires !k.NeedsFallback()
    ensures Protected(groups, plugins + PluginsFor(strategies, groups[k].route, |strategies| > 1),
                      seen + {(groups[k].route, k.strategies)}, pending - {k})
  {
    var route, more := groups[k].route, PluginsFor(strategies, groups[k].route, |strategies| > 1);
    assert GroupProtected(k, route, plugins, seen, true);
    forall j | j in groups
      ensures GroupProtected(j, groups[j].route, plugins + more, seen + {(route, k.strategies)}, j in pending - {k})
    {
      assert GroupProtected(j, groups[j].route, plugins, seen, j in pending);
      if j == k {
        Written(k, route, plugins, seen, strategies);
      } else {
        Unaffected(j, groups[j].route, plugins, seen, j in pending, route, k.strategies, strategies);
      }
    }
  }

  lemma Written(k: GroupKey, route: string, plugins: seq<AuthPlugin>, seen: Seen, strategies: seq<string>)
    requires NoDup(strategies) && Elements(strategies) == k.strategies && k.strategies != {} && !k.NeedsFallback()
    requires GroupProtected(k, route, plugins, seen, true)
    ensures GroupProtected(k, route, plugins + PluginsFor(strategies, route, |strategies| > 1),
            seen + {(route, k.strategies)}, false)
  {
    NoDupLength(strategies);
    OnAbsent(plugins, route);
    OnConcat(plugins, PluginsFor(strategies, route, |strategies| > 1), route);
    OnPluginsFor(strategies, route, |strategies| > 1, route);
  }

  lemma Unaffected(j: GroupKey, other: string, plugins: seq<AuthPlugin>, seen: Seen, pending: bool,
      route: string, other': set<string>, strategies: seq<string>)
    requires GroupProtected(j, other, plugins, seen, pending) && other != route
    ensures GroupProtected(j, other, plugins + PluginsFor(strategies, route, |strategies| > 1),
            seen + {(route, other')}, pending)
  {
    OnConcat(plugins, PluginsFor(strategies, route, |strategies| > 1), other);
    OnPluginsFor(strategies, route, |strategies| > 1, other);
  }

  /** Plugins on a fresh route protect it, and change no other route. */
  lemma FreshProtects(plugins: seq<AuthPlugin>, route: string, built: seq<string>, other: string,
      strategies: set<string>)
    requires NoDup(built) && forall p :: p in plugins ==> p.route != route
    ensures Protects(plugins + PluginsFor(built, route, |built| > 1), route, Elements(built))
    ensures other != route && Protects(plugins, other, strategies) ==>
              Protects(plugins + PluginsFor(built, route, |built| > 1), other, strategies)
  {
    var more := PluginsFor(built, route, |built| > 1);
    NoDupLength(built);
    OnAbsent(plugins, route);
    OnConcat(plugins, more, route);
    OnPluginsFor(built, route, |built| > 1, route);
    if other != route && Protects(plugins, other, strategies) {
      StillProtects(plugins, route, built, other, strategies);
    }
  }

  lemma StillProtects(plugins: seq<AuthPlugin>, route: string, built: seq<string>, other: string,
      strategies: set<string>)
    requires other != route && Protects(plugins, other, strategies)
    ensures Protects(plugins + PluginsFor(built, route, |built| > 1), other, strategies)
  {
    OnConcat(plugins, PluginsFor(built, route, |built| > 1), other);
    OnPluginsFor(built, route, |built| > 1, other);
  }

  lemma GroupsUnaffected(groups: Groups, plugins: seq<AuthPlugin>, seen: Seen, used: set<string>, route: string,
      built: seq<string>)
    requires Protected(groups, plugins, seen, {}) && Reserved(groups, plugins, seen, used) && route !in used &&
             NoDup(built)
    ensures Protected(groups, plugins + PluginsFor(built, route, |built| > 1), seen, {})
    ensures Reserved(groups, plugins + PluginsFor(built, route, |built| > 1), seen, used + {route})
  {
    forall k | k in groups
      ensures GroupProtected(k, groups[k].route, plugins + PluginsFor(built, route, |built| > 1), seen, false)
    {
      assert GroupProtected(k, groups[k].route, plugins, seen, k in {});
      FreshProtects(plugins, route, built, groups[k].route, k.strategies);
    }
  }

  lemma AddLifecycle(lifecycles: seq<(Model, string)>, groups: Groups, plugins: seq<AuthPlugin>, seen: Seen,
      used: set<string>, m: Model, route: string, built: seq<string>)
    requires LifecyclesProtected(lifecycles, groups, plugins, used) && Reserved(groups, plugins, seen, used)
    requires route !in used && NoDup(built) && Elements(built) == Elements(m.strategies)
    ensures LifecyclesProtected(lifecycles + [(m, route)], groups, plugins + PluginsFor(built, route, |built| > 1),
            used + {route})
  {
    var all, after := lifecycles + [(m, route)], plugins + PluginsFor(built, route, |built| > 1);
    forall i | 0 <= i < |all| ensures Protects(after, all[i].1, Elements(all[i].0.strategies)) {
      if i < |lifecycles| {
        FreshProtects(plugins, route, built, lifecycles[i].1, Elements(lifecycles[i].0.strategies));
      } else {
        FreshProtects(plugins, route, built, route, {});
      }
    }
  }

  /** The groups of the first n requests of a model. */
  ghost function KeysOf(m: Model, n: nat): set<GroupKey>
    requires n <= |m.requests|
  {
    if n == 0 then {} else KeysOf(m, n - 1) + {KeyOf(m, m.requests[n - 1])}
  }

  ghost function Pairs(m: Model, keys: set<GroupKey>): set<(Model, GroupKey)> {
    set k | k in keys :: (m, k)
  }

  lemma MoreKeys(m: Model, i: nat, served: set<(Model, GroupKey)>)
    requires i < |m.requests|
    ensures KeysOf(m, i + 1) == KeysOf(m, i) + {KeyOf(m, m.requests[i])}
    ensures served + Pairs(m, KeysOf(m, i + 1)) == served + Pairs(m, KeysOf(m, i)) + {(m, KeyOf(m, m.requests[i]))}
  {
  }

  lemma JoinedKeys(start: set<GroupKey>, before: set<GroupKey>, k: GroupKey, pending: set<GroupKey>,
      pending': set<GroupKey>, after: set<GroupKey>)
    requires before == start + pending && after == before + {k}
    requires pending' == if k in before then pending else pending + {k}
    ensures after == start + pending'
  {
  }

  function AddOnce(keys: seq<GroupKey>, k: GroupKey): (r: seq<GroupKey>)
    ensures Elements(r) == Elements(keys) + {k}
  {
    if k in keys then keys else keys + [k]
  }

  lemma ElementsSnoc<T>(s: seq<T>, x: T)
    ensures Elements(s + [x]) == Elements(s) + {x}
  {
  }

  lemma {:induction false} KeysMean(m: Model, n: nat)
    requires n <= |m.requests|
    ensures forall k :: k in KeysOf(m, n) <==> exists i :: 0 <= i < n && k == KeyOf(m, m.requests[i])
  {
    if n > 0 {
      KeysMean(m, n - 1);
    }
  }

  lemma NoFallbackNeeded(m: Model, keys: seq<GroupKey>)
    requires Elements(keys) == KeysOf(m, |m.requests|)
    ensures forall k :: k in keys ==> k.strategies == Elements(m.strategies)
    ensures (forall k :: k in keys ==> !k.NeedsFallback()) <==>
            (|Elements(m.strategies)| > 1 ==> forall r :: r in m.requests ==> !r.websocket)
  {
    KeysMean(m, |m.requests|);
    forall k | k in keys ensures k.strategies == Elements(m.strategies) {
      assert k in Elements(keys);
    }
    forall r | r in m.requests ensures KeyOf(m, r) in keys {
      assert KeyOf(m, r) in Elements(keys);
    }
    forall k | k in keys && k.NeedsFallback() ensures exists r :: r in m.requests && r.websocket {
      assert k in Elements(keys);
      var i :| 0 <= i < |m.requests| && k == KeyOf(m, m.requests[i]);
      assert m.requests[i].websocket;
    }
  }

  // ---------------------------------------------------------------------------------------------
  // The pass
  // ---------------------------------------------------------------------------------------------

  class ModelPass {
    const strategies: map<string, Strategy>
    const names: UniqueNames.RouteNames
    var groups: Groups
    var seen: Seen
    var plugins: seq<AuthPlugin>
    var anonymousConsumer: bool
    /** The models converted so far, with the groups that serve them. */
    ghost var served: set<(Model, GroupKey)>
    /** The lifecycle routes so far, with their models. */
    ghost var lifecycles: seq<(Model, string)>

    constructor (strategies: map<string, Strategy>)
      ensures Valid({}) && served == {} && lifecycles == [] && groups == map[]
      ensures this.strategies == strategies && fresh(names)
    {
      this.strategies := strategies;
      names := new UniqueNames.RouteNames();
      groups, seen, plugins, anonymousConsumer, served, lifecycles := map[], {}, [], false, {}, [];
    }

    ghost predicate Valid(pending: set<GroupKey>)
      reads this, names
    {
      DistinctRoutes(groups) && Served(groups, served) &&
      Protected(groups, plugins, seen, pending) && Reserved(groups, plugins, seen, names.used) &&
      Anonymous(plugins, anonymousConsumer)
    }

    /** One strategy for each distinct reference, or nothing if one of them cannot be built. */
    method ScopedAuthStrategies(refs: seq<string>) returns (built: Option<seq<string>>)
      ensures built.Some? <==> forall s :: s in refs ==> s in strategies && strategies[s].Buildable()
      ensures built.Some? ==> NoDup(built.value) && Elements(built.value) == Elements(refs)
      ensures built.Some? ==> InNamedOrder(refs, built.value)
    {
      var unique: seq<string> := [];
      for i := 0 to |refs|
        invariant NoDup(unique) && forall s :: s in unique <==> s in refs[..i]
        invariant forall s :: s in unique ==> s in strategies && strategies[s].Buildable()
        invariant InNamedOrder(refs, unique)
      {
        if refs[i] !in unique {
          if refs[i] !in strategies || !strategies[refs[i]].Buildable() {
            assert refs[i] in refs;
            return None;
          }
          NamedNext(refs, i, unique);
          unique := unique + [refs[i]];
        }
      }
      TakeAll(refs);
      return Some(unique);
    }

    /** Makes the group of a request if no model has asked for it yet. */
    method MakeGroup(k: GroupKey, ghost pending: set<GroupKey>) returns (ghost pending': set<GroupKey>)
      requires Valid(pending) && Orderly(groups, served)
      modifies this`groups, names
      ensures Valid(pending') && groups.Keys == old(groups).Keys + {k} && Orderly(groups, served)
      ensures pending' == if k in old(groups) then pending else pending + {k}
    {
      pending' := pending;
      if k !in groups {
        ghost var used := names.used;
        var name := names.Reserve(k.section + "-" + k.endpoint);
        AddGroup(groups, plugins, seen, used, pending, k, Group(name, []));
        NewGroupOrderly(groups, served, used, k, name);
        groups, pending' := groups[k := Group(name, [])], pending + {k};
      }
    }

    /** Puts a model on the group of a request. */
    method JoinGroup(m: Model, r: Request, ghost pending: set<GroupKey>) returns (k: GroupKey,
        ghost pending': set<GroupKey>)
      requires Valid(pending) && Orderly(groups, served)
      modifies this`groups, this`served, names
      ensures k == KeyOf(m, r) && Valid(pending') && groups.Keys == old(groups).Keys + {k} && Orderly(groups, served)
      ensures pending' == if k in old(groups) then pending else pending + {k}
      ensures served == old(served) + {(m, k)}
    {
      k := KeyOf(m, r);
      pending' := MakeGroup(k, pending);
      ListModel(m, k, pending');
    }

    method ListModel(m: Model, k: GroupKey, ghost pending: set<GroupKey>)
      requires Valid(pending) && k in groups && k.strategies == Elements(m.strategies) && Orderly(groups, served)
      modifies this`groups, this`served
      ensures Valid(pending) && groups.Keys == old(groups).Keys && Orderly(groups, served)
      ensures served == old(served) + {(m, k)}
    {
      var g := groups[k];
      var models := if m.name in g.models then g.models else g.models + [m.name];
      var groups' := groups[k := Group(g.route, models)];
      AddModel(groups, served, plugins, seen, names.used, pending, k, models, m, groups');
      ListedOrderly(groups, served, k, m);
      groups, served := groups', served + {(m, k)};
    }

    /** Writes the auth plugins of one group, unless a model on it has done so before. */
    method ProtectRoute(k: GroupKey, built: seq<string>, ghost pending: set<GroupKey>) returns (ok: bool,
        ghost pending': set<GroupKey>)
      requires Valid(pending) && k in groups
      requires NoDup(built) && Elements(built) == k.strategies
      modifies this`plugins, this`seen, this`anonymousConsumer
      ensures ok <==> !k.NeedsFallback()
      ensures ok ==> Valid(pending') && pending' == pending - {k}
    {
      var route := groups[k].route;
      pending' := pending - {k};
      assert GroupProtected(k, route, plugins, seen, k in pending);
      NoDupLength(built);
      if (route, k.strategies) in seen || built == [] {
        Settled(groups, plugins, seen, pending, k);
        return true, pending';
      }
      if k.owner.Some? && |built| > 1 {
        return false, pending';
      }
      var fallback := |built| > 1;
      if fallback {
        anonymousConsumer := true;
      }
      WritePlugins(groups, plugins, seen, pending, k, built);
      seen := seen + {(route, k.strategies)};
      plugins := plugins + PluginsFor(built, route, fallback);
      ok := true;
    }

    /** Puts a model on the groups of all its requests. */
    method JoinGroups(m: Model) returns (keys: seq<GroupKey>, ghost pending: set<GroupKey>)
      requires Valid({}) && Orderly(groups, served)
      modifies this`groups, this`served, names
      ensures Valid(pending) && pending <= Elements(keys) <= groups.Keys
      ensures Elements(keys) == KeysOf(m, |m.requests|)
      ensures served == old(served) + Pairs(m, KeysOf(m, |m.requests|))
      ensures pending !! old(groups).Keys && groups.Keys == old(groups).Keys + pending && Orderly(groups, served)
    {
      keys, pending := [], {};
      for i := 0 to |m.requests|
        invariant Valid(pending) && pending <= Elements(keys) <= groups.Keys
        invariant Elements(keys) == KeysOf(m, i)
        invariant served == old(served) + Pairs(m, KeysOf(m, i))
        invariant pending !! old(groups).Keys && groups.Keys == old(groups).Keys + pending
        invariant Orderly(groups, served)
      {
        MoreKeys(m, i, old(served));
        var k: GroupKey;
        ghost var before, pendingBefore := groups.Keys, pending;
        k, pending := JoinGroup(m, m.requests[i], pending);
        JoinedKeys(old(groups).Keys, before, k, pendingBefore, pending, groups.Keys);
        keys := AddOnce(keys, k);
      }
    }

    /** Writes the auth plugins of all the groups of a model. */
    method ProtectRoutes(keys: seq<GroupKey>, built: seq<string>, ghost pending: set<GroupKey>) returns (ok: bool)
      requires Valid(pending) && pending <= Elements(keys) <= groups.Keys
      requires NoDup(built) && forall k :: k in keys ==> k.strategies == Elements(built)
      modifies this`plugins, this`seen, this`anonymousConsumer
      ensures ok <==> forall k :: k in keys ==> !k.NeedsFallback()
      ensures ok ==> Valid({})
    {
      ghost var left, done := pending, {};
      for i := 0 to |keys|
        invariant Valid(left)
        invariant done == Elements(keys[..i]) && left <= Elements(keys) - done
        invariant forall k :: k in done ==> !k.NeedsFallback()
      {
        var k := keys[i];
        assert k in Elements(keys);
        TakeSnoc(keys, i);
        ElementsSnoc(keys[..i], k);
        ok, left := ProtectRoute(k, built, left);
        if !ok {
          return;
        }
        done := done + {k};
      }
      TakeAll(keys);
      assert forall k :: k in keys ==> k in done;
      ok := true;
    }

    /** Converts one model: it succeeds exactly if its strategies can be built and no WebSocket route needs several. */
    method ConvertModel(m: Model) returns (ok: bool)
      requires Valid({}) && Orderly(groups, served)
      modifies this`groups, this`served, this`plugins, this`seen, this`anonymousConsumer, names
      ensures ok <==> Convertible(strategies, m)
      ensures ok ==> Valid({}) && served == old(served) + Pairs(m, KeysOf(m, |m.requests|))
      ensures groups.Keys <= old(groups).Keys + KeysOf(m, |m.requests|) && Orderly(groups, served)
    {
      ghost var pending;
      var keys;
      keys, pending := JoinGroups(m);
      KeysMean(m, |m.requests|);
      NoFallbackNeeded(m, keys);
      var built := ScopedAuthStrategies(m.strategies);
      if built.None? {
        return false;
      }
      assert forall k :: k in keys ==> k in Elements(keys);
      ok := ProtectRoutes(keys, built.value, pending);
    }

    /** Converts the models of a pass up to the first that fails. */
    method ConvertModels(models: seq<Model>) returns (ok: bool)
      requires Valid({}) && served == {} && groups == map[]
      modifies this`groups, this`served, this`plugins, this`seen, this`anonymousConsumer, names
      ensures ok <==> forall m :: m in models ==> Convertible(strategies, m)
      ensures ok ==> Valid({}) && AllServed(models, served)
      ensures ok ==> GroupsOf(models, groups) && Orderly(groups, served) && OnlyServed(models, served)
    {
      for i := 0 to |models|
        invariant Valid({}) && forall m :: m in models[..i] ==> Convertible(strategies, m)
        invariant AllServed(models[..i], served) && GroupsOf(models[..i], groups)
        invariant Orderly(groups, served) && OnlyServed(models[..i], served)
      {
        var m := models[i];
        TakeSnoc(models, i);
        ghost var before, servedBefore := groups, served;
        ok := ConvertModel(m);
        if !ok {
          assert m in models;
          return;
        }
        MoreGroups(models[..i], before, m, groups);
        MoreServed(models[..i], servedBefore, m, served);
      }
      TakeAll(models);
      ok := true;
    }

    /** The converted models are served on protected routes, and so is each lifecycle route. */
    ghost predicate Done()
      reads this, names
    {
      Valid({}) && LifecyclesProtected(lifecycles, groups, plugins, names.used)
    }

    /** Adds the video lifecycle route of a model, with the auth plugins of the model. */
    method ConvertVideoLifecycle(m: Model) returns (ok: bool, ghost added: string)
      requires Done()
      modifies this`plugins, this`anonymousConsumer, this`lifecycles, names
      ensures ok <==> forall s :: s in m.strategies ==> s in strategies && strategies[s].Buildable()
      ensures ok ==> Done() && AddsRoute(old(lifecycles), m, added, lifecycles)
    {
      ghost var used := names.used;
      var route := names.Reserve("openai-videos-lifecycle");
      added := route;
      LifecycleNamed(used, route);
      var built := ScopedAuthStrategies(m.strategies);
      if built.None? {
        return false, added;
      }
      var fallback := |built.value| > 1;
      if fallback {
        anonymousConsumer := true;
      }
      GroupsUnaffected(groups, plugins, seen, used, route, built.value);
      AddLifecycle(lifecycles, groups, plugins, seen, used, m, route, built.value);
      plugins := plugins + PluginsFor(built.value, route, fallback);
      lifecycles := lifecycles + [(m, route)];
      ok := true;
    }

    /** Adds the lifecycle routes of the models that get one. */
    method ConvertVideoLifecycles(models: seq<Model>) returns (ghost places: seq<nat>)
      requires Done() && lifecycles == [] && forall m :: m in models ==> Convertible(strategies, m)
      modifies this`plugins, this`anonymousConsumer, this`lifecycles, names
      ensures Done() && AreLifecyclesOf(lifecycles, models, places)
    {
      places := [];
      for i := 0 to |models|
        invariant Done() && AreLifecyclesOf(lifecycles, models[..i], places)
      {
        var m := models[i];
        TakeSnoc(models, i);
        ghost var before := lifecycles;
        if m.video {
          assert m in models;
          var ok;
          ghost var added;
          ok, added := ConvertVideoLifecycle(m);
        }
        LifecyclesGrow(before, models[..i], m, lifecycles, places);
        places := if m.video then places + [i] else places;
      }
      TakeAll(models);
    }

    /** The routes of the requests: shared as they have to be, and protected by what each model asks for. */
    ghost predicate SharesRoutes(models: seq<Model>, routes: map<(Model, Request), string>)
      reads this
    {
      RoutesOfRequests(models, groups, routes) && SharedExactly(routes) && RoutesAreOrderly(groups, routes) &&
      forall q :: q in routes ==> Protects(plugins, routes[q], Elements(q.0.strategies))
    }

    lemma RequestRoutes(models: seq<Model>) returns (routes: map<(Model, Request), string>)
      requires Valid({}) && AllServed(models, served) && GroupsOf(models, groups)
      requires Orderly(groups, served) && OnlyServed(models, served)
      ensures SharesRoutes(models, routes)
    {
      routes := RoutesFound(models, groups, served);
      OrderlyRoutes(models, groups, served, routes);
      RoutedProtects(models, groups, plugins, seen, routes);
    }

    /**
      A pass: the models in order, then their lifecycle routes. It succeeds exactly if every model can
      be converted, and then each route of the document is protected by what its models ask for.
     */
    method ConvertPass(models: seq<Model>)
      returns (ok: bool, ghost routes: map<(Model, Request), string>, ghost places: seq<nat>)
      requires Valid({}) && served == {} && lifecycles == [] && groups == map[]
      modifies this, names
      ensures ok <==> forall m :: m in models ==> Convertible(strategies, m)
      ensures ok ==> Done() && AllServed(models, served)
      ensures ok ==> AreLifecyclesOf(lifecycles, models, places)
      ensures ok ==> SharesRoutes(models, routes)
    {
      routes, places := map[], [];
      ok := ConvertModels(models);
      if ok {
        places := ConvertVideoLifecycles(models);
        routes := RequestRoutes(models);
      }
    }
  }

  lemma MoreServed(models: seq<Model>, before: set<(Model, GroupKey)>, m: Model, served: set<(Model, GroupKey)>)
    requires AllServed(models, before) && OnlyServed(models, before)
    requires served == before + Pairs(m, KeysOf(m, |m.requests|))
    ensures AllServed(models + [m], served) && OnlyServed(models + [m], served)
  {
    KeysMean(m, |m.requests|);
    forall s | s in served ensures s.0 in models + [m] && exists r :: r in s.0.requests && s.1 == KeyOf(s.0, r) {
      if s !in before {
        var i :| 0 <= i < |m.requests| && s.1 == KeyOf(m, m.requests[i]);
        assert m.requests[i] in m.requests;
      }
    }
    forall n, r | n in models + [m] && r in n.requests ensures (n, KeyOf(n, r)) in served {
      if n in models {
        assert (n, KeyOf(n, r)) in before;
      } else {
        var i :| 0 <= i < |m.requests| && m.requests[i] == r;
        assert KeyOf(m, r) in KeysOf(m, |m.requests|);
      }
    }
  }

  lemma MoreGroups(models: seq<Model>, before: Groups, m: Model, groups: Groups)
    requires GroupsOf(models, before) && groups.Keys <= before.Keys + KeysOf(m, |m.requests|)
    ensures GroupsOf(models + [m], groups)
  {
    KeysMean(m, |m.requests|);
    forall k | k in groups ensures exists n, r :: n in models + [m] && r in n.requests && k == KeyOf(n, r) {
      if k in before {
        var n, r :| n in models && r in n.requests && k == KeyOf(n, r);
        assert n in models + [m];
      } else {
        var i :| 0 <= i < |m.requests| && k == KeyOf(m, m.requests[i]);
        assert m in models + [m] && m.requests[i] in m.requests;
      }
    }
  }

  /** The places are those of the models that get a lifecycle route. */
  ghost predicate AreVideos(models: seq<Model>, places: seq<nat>) {
    Ascending(places) && forall i: nat :: i in places <==> i < |models| && models[i].video
  }

  /** There is one lifecycle route for each model that gets one, in order. */
  ghost predicate AreLifecyclesOf(lifecycles: seq<(Model, string)>, models: seq<Model>, places: seq<nat>) {
    AreVideos(models, places) && |places| == |lifecycles| &&
    forall i :: 0 <= i < |lifecycles| ==>
      places[i] < |models| && lifecycles[i].0 == models[places[i]] &&
      NamedAfter(lifecycles[i].1, "openai-videos-lifecycle")
  }

  ghost predicate AddsRoute(before: seq<(Model, string)>, m: Model, route: string, after: seq<(Model, string)>) {
    after == before + [(m, route)] && NamedAfter(route, "openai-videos-lifecycle")
  }

  lemma LifecycleNamed(used: set<string>, route: string)
    requires UniqueNames.FirstFree("openai-videos-lifecycle", used, 0, route)
    ensures NamedAfter(route, "openai-videos-lifecycle")
  {
    UniqueNames.FirstFreeMeans("openai-videos-lifecycle", used, route);
  }

  lemma LifecyclesGrow(before: seq<(Model, string)>, models: seq<Model>, m: Model, after: seq<(Model, string)>,
      places: seq<nat>)
    requires AreLifecyclesOf(before, models, places)
    requires if m.video then exists route :: AddsRoute(before, m, route, after) else after == before
    ensures AreLifecyclesOf(after, models + [m], if m.video then places + [|models|] else places)
  {
    MoreVideos(models, m, places);
  }

  lemma MoreVideos(models: seq<Model>, m: Model, places: seq<nat>)
    requires AreVideos(models, places)
    ensures AreVideos(models + [m], if m.video then places + [|models|] else places)
  {
    if m.video {
      AscendingNext(places, |models|);
    }
  }

  /** A group without strategies, or with its plugins written, is protected as it is. */
  lemma Settled(groups: Groups, plugins: seq<AuthPlugin>, seen: Seen, pending: set<GroupKey>, k: GroupKey)
    requires Protected(groups, plugins, seen, pending) && k in groups
    requires (groups[k].route, k.strategies) in seen || k.strategies == {}
    ensures Protected(groups, plugins, seen, pending - {k})
  {
    OnAbsent(plugins, groups[k].route);
    forall j | j in groups ensures GroupProtected(j, groups[j].route, plugins, seen, j in pending - {k}) {
      assert GroupProtected(j, groups[j].route, plugins, seen, j in pending);
    }
  }

  // ---------------------------------------------------------------------------------------------
  // The key of a set of strategies
  // ---------------------------------------------------------------------------------------------

  const NUL := '\0'

  function Join(names: seq<string>): string {
    if names == [] then "" else if |names| == 1 then names[0] else names[0] + [NUL] + Join(names[1..])
  }

  /** key is the sorted references, each once, joined. */
  ghost predicate IsAuthKey(refs: seq<string>, key: string) {
    exists names :: NoDup(names) && Elements(names) == Elements(refs) && Sorted(names, ByName()) && key == Join(names)
  }

  method AuthStrategyKey(refs: seq<string>) returns (key: string)
    ensures IsAuthKey(refs, key)
  {
    var unique: seq<string> := [];
    for i := 0 to |refs|
      invariant NoDup(unique) && Elements(unique) == Elements(refs[..i])
    {
      TakeSnoc(refs, i);
      ElementsSnoc(refs[..i], refs[i]);
      if refs[i] !in unique {
        ElementsSnoc(unique, refs[i]);
        unique := unique + [refs[i]];
      }
    }
    TakeAll(refs);
    var names := SortNames(unique);
    PermutationFacts(unique, names);
    assert Elements(names) == Elements(unique);
    key := Join(names);
  }

  ghost predicate PlainNames(names: seq<string>) {
    forall name :: name in names ==> name != "" && NUL !in name
  }

  lemma FirstPart(a: string, b: string, c: string, d: string)
    requires NUL !in a && NUL !in c && a + [NUL] + b == c + [NUL] + d
    ensures a == c && b == d
  {
    var s, t := a + [NUL] + b, c + [NUL] + d;
    assert forall k :: 0 <= k < |a| ==> s[k] == a[k] && a[k] in a;
    assert forall k :: 0 <= k < |c| ==> t[k] == c[k] && c[k] in c;
    assert s[|a|] == NUL && t[|c|] == NUL;
    assert !(|a| < |c|) && !(|c| < |a|);
    assert s[..|a|] == a && t[..|a|] == c && s[|a| + 1..] == b && t[|a| + 1..] == d;
  }

  lemma JoinShape(names: seq<string>)
    requires PlainNames(names)
    ensures Join(names) == "" <==> names == []
    ensures NUL in Join(names) <==> |names| > 1
  {
    if names != [] {
      assert names[0] in names;
      if |names| > 1 {
        assert Join(names)[|names[0]|] == NUL;
      }
    }
  }

  lemma {:induction false} JoinOnce(a: seq<string>, b: seq<string>)
    requires PlainNames(a) && PlainNames(b) && Join(a) == Join(b)
    ensures a == b
  {
    JoinShape(a);
    JoinShape(b);
    if |a| > 1 {
      assert a[0] in a && b[0] in b;
      assert forall name :: name in a[1..] ==> name in a;
      assert forall name :: name in b[1..] ==> name in b;
      FirstPart(a[0], Join(a[1..]), b[0], Join(b[1..]));
      JoinOnce(a[1..], b[1..]);
      assert a == [a[0]] + a[1..] && b == [b[0]] + b[1..];
    }
  }

  /** Two lists of references have one key exactly if they name the same strategies. */
  lemma AuthKeyExact(refs: seq<string>, refs': seq<string>, key: string, key': string)
    requires PlainNames(refs) && PlainNames(refs') && IsAuthKey(refs, key) && IsAuthKey(refs', key')
    ensures key == key' <==> Elements(refs) == Elements(refs')
  {
    var a :| NoDup(a) && Elements(a) == Elements(refs) && Sorted(a, ByName()) && key == Join(a);
    var b :| NoDup(b) && Elements(b) == Elements(refs') && Sorted(b, ByName()) && key' == Join(b);
    forall name | name in a ensures name != "" && NUL !in name {
      assert name in Elements(a) && name in refs;
    }
    forall name | name in b ensures name != "" && NUL !in name {
      assert name in Elements(b) && name in refs';
    }
    if key == key' {
      JoinOnce(a, b);
    }
    if Elements(refs) == Elements(refs') {
      SortedOnce(a, b);
    }
  }

  /** An empty name would give the key of no strategies. */
  lemma EmptyNameCollides()
    ensures IsAuthKey([], "") && IsAuthKey([""], "")
  {
    assert Join([]) == "" && Join([""]) == "";
    assert NoDup<string>([]) && Sorted([], ByName());
    assert NoDup([""]) && Sorted([""], ByName());
  }
}
