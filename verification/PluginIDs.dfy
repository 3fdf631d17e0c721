/**
  The IDs of flattened plugins (internal/kong/to_dbless.go).

  A plugin without an ID gets one that is made from the kind and the name of the entity around it,
  its own name, and its position there. The service of a route is not part of that.
 */
module PluginIDs {
  import opened Sequences
  import opened DBLess
  import UniqueNames

  /** The route that a plugin is nested under, with or without a service. */
  function RouteAround(nest: Nest): Option<string> {
    match nest
    case InServiceRoute(_, route) => Some(route)
    case InRoute(name) => Some(name)
    case _ => None
  }

  /** The plugins stand in one place, but for the services of the routes around them. */
  predicate SamePlace(a: Nest, b: Nest) {
    a == b || (RouteAround(a).Some? && RouteAround(a) == RouteAround(b))
  }

  predicate SameSlot(e: Entry, f: Entry) {
    SamePlace(e.nest, f.nest) && e.plugin.name == f.plugin.name && e.index == f.index
  }

  lemma OwnerExact(a: Nest, b: Nest)
    ensures Owner(a) == Owner(b) <==> SamePlace(a, b)
  {
    var s, t := Owner(a), Owner(b);
    if s == t {
      assert s[0] == t[0] && (s[0] == 'c' ==> s[8] == t[8]);
      var start := if s[0] == 'r' then 6 else if s[0] == 's' then 8 else if s[0] == 't' then 3
                   else if s[8] == ':' then 9 else 15;
      assert s[start..] == t[start..];
    }
  }

  /** Plugin names hold no separator, so a key tells the place, the name and the position. */
  lemma PluginKeyExact(e: Entry, f: Entry)
    requires ':' !in e.plugin.name && ':' !in f.plugin.name
    ensures PluginKey(e) == PluginKey(f) <==> SameSlot(e, f)
  {
    OwnerExact(e.nest, f.nest);
    if PluginKey(e) == PluginKey(f) {
      var a, b := "plugin:" + Owner(e.nest), "plugin:" + Owner(f.nest);
      var i, j := UniqueNames.Decimal(e.index), UniqueNames.Decimal(f.index);
      var s, t := a + ":" + e.plugin.name, b + ":" + f.plugin.name;
      assert PluginKey(e) == s + [':'] + i && PluginKey(f) == t + [':'] + j;
      SplitOnce(s, i, t, j, ':');
      assert s == a + [':'] + e.plugin.name && t == b + [':'] + f.plugin.name;
      SplitOnce(a, e.plugin.name, b, f.plugin.name, ':');
      PrefixOnce("plugin:", Owner(e.nest), Owner(f.nest));
      UniqueNames.DecimalRoundTrip(e.index);
      UniqueNames.DecimalRoundTrip(f.index);
    }
  }

  /** Both plugins are given one ID, or one is given what is made for the other, or both get one made alike. */
  predicate Collide(uuid: string -> string, e: Entry, f: Entry) {
    if e.plugin.id == "" then
      if f.plugin.id == "" then SameSlot(e, f) else f.plugin.id == uuid(PluginKey(e))
    else e.plugin.id == if f.plugin.id == "" then uuid(PluginKey(f)) else f.plugin.id
  }

  ghost predicate PlainPluginNames(es: seq<Entry>) {
    forall e :: e in es ==> ':' !in e.plugin.name
  }

  ghost predicate NoneCollide(uuid: string -> string, es: seq<Entry>) {
    forall i, j :: 0 <= i < j < |es| ==> !Collide(uuid, es[i], es[j])
  }

  ghost predicate DistinctPlugins(ps: seq<FlatPlugin>) {
    forall i, j :: 0 <= i < j < |ps| ==> ps[i].id != ps[j].id
  }

  /**
    The flattened plugins have distinct IDs exactly if none of the IDs given in the document is taken
    twice or made for another plugin, and no two plugins without an ID have one name and position in
    routes of one name.
   */
  lemma PluginIDsExact(uuid: string -> string, d: Document, out: Flat)
    requires IsFlat(uuid, d, out) && MakesIDs(uuid) && PlainPluginNames(DocumentEntries(d))
    ensures DistinctPlugins(out.plugins) <==> NoneCollide(uuid, DocumentEntries(d))
  {
    var es, ids := DocumentEntries(d), DocumentIDs(uuid, d);
    assert |out.plugins| == |es|;
    forall i, j | 0 <= i < j < |es| ensures out.plugins[i].id == out.plugins[j].id <==> Collide(uuid, es[i], es[j]) {
      assert IsFlattened(uuid, ids, es[i], out.plugins[i]) && IsFlattened(uuid, ids, es[j], out.plugins[j]);
      assert es[i] in es && es[j] in es;
      PluginKeyExact(es[i], es[j]);
    }
  }

  /** Two services, each with a route of this name that has the plugin. */
  function EqualRoutes(a: string, b: string, route: string, p: Plugin): Document {
    Document([Service(a, "", [Route(route, [p])], []), Service(b, "", [Route(route, [p])], [])], [], [], [], [], [])
  }

  /** The routes get two IDs, but their plugins get one: only one of the routes keeps its plugin where IDs count. */
  lemma EqualRoutesCollide(uuid: string -> string, a: string, b: string, route: string, p: Plugin, out: Flat)
    requires IsFlat(uuid, EqualRoutes(a, b, route, p), out) && MakesIDs(uuid)
    requires a != b && p.id == "" && '|' !in route
    ensures |out.routes| == |out.plugins| == 2 && out.routes[0].id != out.routes[1].id
    ensures out.plugins[0].scope.route == out.routes[0].id && out.plugins[1].scope.route == out.routes[1].id
    ensures out.plugins[0].id == out.plugins[1].id
  {
    var d := EqualRoutes(a, b, route, p);
    var ids, es, routes := DocumentIDs(uuid, d), DocumentEntries(d), ServiceRoutes(d.services);
    EqualRoutesOf(a, b, route, p);
    EqualRoutesEntries(a, b, route, p);
    PlainKeysApart(routes);
    ServiceRouteAt(uuid, routes, 0);
    ServiceRouteAt(uuid, routes, 1);
    assert IsFlattened(uuid, ids, es[0], out.plugins[0]) && IsFlattened(uuid, ids, es[1], out.plugins[1]);
    ServiceOfRouteID(uuid, a, b, route);
  }

  lemma ServiceOfRouteID(uuid: string -> string, a: string, b: string, route: string)
    requires MakesIDs(uuid)
    ensures RouteID(uuid, a, route) == RouteID(uuid, b, route) ==> a == b
  {
    if RouteID(uuid, a, route) == RouteID(uuid, b, route) {
      RouteIDOnce(uuid, (a, route), (b, route));
      assert JoinedName((a, route)) == a + (":" + route) && JoinedName((b, route)) == b + (":" + route);
      assert |JoinedName((a, route))| == |a| + 1 + |route| && |JoinedName((b, route))| == |b| + 1 + |route|;
      assert JoinedName((a, route))[..|a|] == a && JoinedName((b, route))[..|b|] == b;
    }
  }

  lemma EqualRoutesOf(a: string, b: string, route: string, p: Plugin)
    ensures ServiceRoutes(EqualRoutes(a, b, route, p).services) == [(a, route), (b, route)]
  {
    var services := EqualRoutes(a, b, route, p).services;
    assert services[..1] == [services[0]] && services[..1][..0] == [] && ServiceRoutes([]) == [];
    assert ServiceRoutes(services[..1]) == [(a, route)];
  }

  lemma EqualRoutesEntries(a: string, b: string, route: string, p: Plugin)
    ensures DocumentEntries(EqualRoutes(a, b, route, p)) ==
            [Entry(InServiceRoute(a, route), p, 0), Entry(InServiceRoute(b, route), p, 0)]
  {
    var services := EqualRoutes(a, b, route, p).services;
    assert services[..1] == [services[0]] && services[..1][..0] == [] && ServiceEntries([]) == [];
    forall s: string ensures RouteEntries(s, [Route(route, [p])]) == [Entry(InServiceRoute(s, route), p, 0)] {
      assert [Route(route, [p])][..0] == [] && RouteEntries(s, []) == [];
    }
    assert ServiceEntries(services[..1]) == [Entry(InServiceRoute(a, route), p, 0)];
  }
}
