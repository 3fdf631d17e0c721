/**
  Flattening a decK document (internal/kong/to_dbless.go).

  A decK document nests routes and plugins and refers to entities by name. The flattened document
  has one list for each kind of entity, and its plugins refer to their scope by ID. An entity
  without an ID gets one that is made from its name; uuid stands for that function.
 */
module DBLess {
  import opened Sequences
  import UniqueNames

  datatype Plugin = Plugin(
    id: string, name: string, body: string,
    service: Option<string>, route: Option<string>, consumer: Option<string>, group: Option<string>,
        model: Option<string>)

  datatype Route = Route(name: string, plugins: seq<Plugin>)

  datatype Service = Service(name: string, id: string, routes: seq<Route>, plugins: seq<Plugin>)

  datatype Consumer = Consumer(username: string, id: string, groups: seq<string>, plugins: seq<Plugin>)

  datatype Group = Group(name: string, id: string, plugins: seq<Plugin>)

  datatype AIModel = AIModel(name: string, id: string)

  datatype Document = Document(
    services: seq<Service>, routes: seq<Route>, consumers: seq<Consumer>, groups: seq<Group>, models: seq<AIModel>,
        plugins: seq<Plugin>)

  /** A row of the flattened document, and a route row with the ID of its service. */
  datatype Row = Row(id: string, name: string)
  datatype RouteRow = RouteRow(id: string, name: string, service: string)

  /** The IDs that a plugin refers to; an empty ID is no reference. */
  datatype Scope = Scope(service: string, route: string, consumer: string, group: string, model: string)

  datatype FlatPlugin = FlatPlugin(id: string, name: string, body: string, scope: Scope)

  datatype Flat = Flat(
    services: seq<Row>, routes: seq<RouteRow>, consumers: seq<Row>, groups: seq<Row>, models: seq<Row>,
    members: seq<(string, string)>, plugins: seq<FlatPlugin>)

  type IDMap = map<string, string>

  datatype IDs = IDs(service: IDMap, route: IDMap, model: IDMap, group: IDMap, consumer: IDMap)

  function FirstNonEmpty(value: string, fallback: string): string {
    if value != "" then value else fallback
  }

  /** Reading a map that may lack the key. */
  function Lookup(ids: IDMap, key: string): string {
    if key in ids then ids[key] else ""
  }

  // ---------------------------------------------------------------------------------------------
  // Naming entities
  // ---------------------------------------------------------------------------------------------

  /** An entity of a kind whose IDs are made from a prefix and the name. */
  datatype Named = Named(name: string, id: string)

  function IDOf(uuid: string -> string, prefix: string, e: Named): string {
    FirstNonEmpty(e.id, uuid(prefix + e.name))
  }

  /** The ID map of a kind: of entities with one name the last one counts. */
  function NamedIDs(uuid: string -> string, prefix: string, es: seq<Named>): (ids: IDMap)
    ensures forall name :: name in ids <==> exists i :: 0 <= i < |es| && es[i].name == name
  {
    if es == [] then map[]
    else
      var init, last := es[..|es| - 1], es[|es| - 1];
      assert es == init + [last];
      NamedIDs(uuid, prefix, init)[last.name := IDOf(uuid, prefix, last)]
  }

  function RouteKey(service: string, route: string): string {
    service + "|" + route
  }

  function RouteID(uuid: string -> string, service: string, route: string): string {
    uuid("route:" + service + ":" + route)
  }

  function TopRouteID(uuid: string -> string, route: string): string {
    uuid("route::" + route)
  }

  /** The routes of the services, each with the name of its service. */
  function ServiceRoutes(services: seq<Service>): seq<(string, string)> {
    if services == [] then []
    else
      var last := services[|services| - 1];
      ServiceRoutes(services[..|services| - 1]) + RoutesOf(last.name, last.routes)
  }

  function RoutesOf(service: string, routes: seq<Route>): (r: seq<(string, string)>)
    ensures |r| == |routes|
  {
    seq(|routes|, i requires 0 <= i < |routes| => (service, routes[i].name))
  }

  function RouteIDs(uuid: string -> string, routes: seq<(string, string)>): IDMap {
    if routes == [] then map[]
    else
      var last := routes[|routes| - 1];
      RouteIDs(uuid, routes[..|routes| - 1])[RouteKey(last.0, last.1) := RouteID(uuid, last.0, last.1)]
  }

  function NamedServices(es: seq<Service>): (r: seq<Named>)
    ensures |r| == |es|
  {
    seq(|es|, i requires 0 <= i < |es| => Named(es[i].name, es[i].id))
  }

  function NamedConsumers(es: seq<Consumer>): (r: seq<Named>)
    ensures |r| == |es|
  {
    seq(|es|, i requires 0 <= i < |es| => Named(es[i].username, es[i].id))
  }

  function NamedGroups(es: seq<Group>): (r: seq<Named>)
    ensures |r| == |es|
  {
    seq(|es|, i requires 0 <= i < |es| => Named(es[i].name, es[i].id))
  }

  function NamedModels(es: seq<AIModel>): (r: seq<Named>)
    ensures |r| == |es|
  {
    seq(|es|, i requires 0 <= i < |es| => Named(es[i].name, es[i].id))
  }

  /** The groups that the consumers are in, in order. */
  function Memberships(consumers: seq<Consumer>): seq<string> {
    if consumers == [] then [] else Memberships(consumers[..|consumers| - 1]) + consumers[|consumers| - 1].groups
  }

  /** A group that only consumers name gets an ID too. */
  function WithMemberships(uuid: string -> string, ids: IDMap, groups: seq<string>): IDMap {
    if groups == [] then ids
    else
      var before, last := WithMemberships(uuid, ids, groups[..|groups| - 1]), groups[|groups| - 1];
      if last in before then before else before[last := uuid("consumer_group:" + last)]
  }

  function DocumentIDs(uuid: string -> string, d: Document): IDs {
    IDs(
      NamedIDs(uuid, "service:", NamedServices(d.services)),
      RouteIDs(uuid, ServiceRoutes(d.services)),
      NamedIDs(uuid, "ai_model:", NamedModels(d.models)),
      WithMemberships(uuid, NamedIDs(uuid, "consumer_group:", NamedGroups(d.groups)), Memberships(d.consumers)),
      NamedIDs(uuid, "consumer:", NamedConsumers(d.consumers)))
  }

  // ---------------------------------------------------------------------------------------------
  // The plugins of a document, and what becomes of them
  // ---------------------------------------------------------------------------------------------

  /** Where a plugin stands. */
  datatype Nest =
    | InServiceRoute(service: string, route: string)
    | InService(name: string)
    | InRoute(name: string)
    | InConsumer(name: string)
    | InGroup(name: string)
    | TopLevel

  datatype Entry = Entry(nest: Nest, plugin: Plugin, index: nat)

  function Entries(nest: Nest, plugins: seq<Plugin>): (r: seq<Entry>)
    ensures |r| == |plugins|
  {
    seq(|plugins|, i requires 0 <= i < |plugins| => Entry(nest, plugins[i], i))
  }

  function RouteEntries(service: string, routes: seq<Route>): seq<Entry> {
    if routes == [] then []
    else
      var last := routes[|routes| - 1];
      RouteEntries(service, routes[..|routes| - 1]) + Entries(InServiceRoute(service, last.name), last.plugins)
  }

  function ServiceEntries(services: seq<Service>): seq<Entry> {
    if services == [] then []
    else
      var last := services[|services| - 1];
      ServiceEntries(services[..|services| - 1]) + RouteEntries(last.name, last.routes) +
          Entries(InService(last.name), last.plugins)
  }

  function TopRouteEntries(routes: seq<Route>): seq<Entry> {
    if routes == [] then []
    else
      var last := routes[|routes| - 1];
      TopRouteEntries(routes[..|routes| - 1]) + Entries(InRoute(last.name), last.plugins)
  }

  function ConsumerEntries(consumers: seq<Consumer>): seq<Entry> {
    if consumers == [] then []
    else
      var last := consumers[|consumers| - 1];
      ConsumerEntries(consumers[..|consumers| - 1]) + Entries(InConsumer(last.username), last.plugins)
  }

  function GroupEntries(groups: seq<Group>): seq<Entry> {
    if groups == [] then []
    else
      var last := groups[|groups| - 1];
      GroupEntries(groups[..|groups| - 1]) + Entries(InGroup(last.name), last.plugins)
  }

  /** All plugins of a document. */
  function DocumentEntries(d: Document): seq<Entry> {
    ServiceEntries(d.services) + TopRouteEntries(d.routes) + ConsumerEntries(d.consumers) + GroupEntries(d.groups) +
    Entries(TopLevel, d.plugins)
  }

  function Owner(nest: Nest): string {
    match nest
    case InServiceRoute(_, route) => "route:" + route
    case InService(name) => "service:" + name
    case InRoute(name) => "route:" + name
    case InConsumer(name) => "consumer:" + name
    case InGroup(name) => "consumer_group:" + name
    case TopLevel => "top"
  }

  /** What the ID of a plugin without one is made from. */
  function PluginKey(e: Entry): string {
    "plugin:" + Owner(e.nest) + ":" + e.plugin.name + ":" + UniqueNames.Decimal(e.index)
  }

  function PluginID(uuid: string -> string, e: Entry): string {
    FirstNonEmpty(e.plugin.id, uuid(PluginKey(e)))
  }

  /** A key of the route map ends in the separator and the route, behind a service name. */
  predicate KeyMatches(key: string, route: string) {
    |key| > |route| + 1 && key[|key| - |route| - 1..] == "|" + route
  }

  /** id is what the name of a route is looked up to. Several keys can match, and any of them may be found. */
  ghost predicate IsRouteRef(ids: IDMap, route: Option<string>, id: string) {
    if route.Some? && exists key :: key in ids && KeyMatches(key, route.value)
    then exists key :: key in ids && KeyMatches(key, route.value) && ids[key] == id
    else id == ""
  }

  function LookupRef(ids: IDMap, ref: Option<string>): string {
    if ref.None? then "" else Lookup(ids, ref.value)
  }

  /** The scope of a plugin: a nested plugin has the entity around it, and only that. */
  ghost predicate IsScope(uuid: string -> string, ids: IDs, e: Entry, scope: Scope) {
    match e.nest
    case InServiceRoute(service, route) => scope == Scope("", Lookup(ids.route, RouteKey(service, route)), "", "", "")
    case InService(name) => scope == Scope(Lookup(ids.service, name), "", "", "", "")
    case InRoute(name) => scope == Scope("", TopRouteID(uuid, name), "", "", "")
    case InConsumer(name) => scope == Scope("", "", Lookup(ids.consumer, name), "", "")
    case InGroup(name) => scope == Scope("", "", "", Lookup(ids.group, name), "")
    case TopLevel =>
      IsRouteRef(ids.route, e.plugin.route, scope.route) &&
      scope == Scope(LookupRef(ids.service, e.plugin.service), scope.route, LookupRef(ids.consumer, e.plugin.consumer),
                     LookupRef(ids.group, e.plugin.group), LookupRef(ids.model, e.plugin.model))
  }

  /** p is the flattened plugin of e. */
  ghost predicate IsFlattened(uuid: string -> string, ids: IDs, e: Entry, p: FlatPlugin) {
    p.id == PluginID(uuid, e) && p.name == e.plugin.name && p.body == e.plugin.body &&
    IsScope(uuid, ids, e, p.scope)
  }

  /** The flattened plugins are those of the entries, one for each and in their order. */
  ghost predicate AreFlattened(uuid: string -> string, ids: IDs, es: seq<Entry>, ps: seq<FlatPlugin>) {
    |ps| == |es| && forall i :: 0 <= i < |es| ==> IsFlattened(uuid, ids, es[i], ps[i])
  }

  lemma FlattenedConcat(uuid: string -> string, ids: IDs, es: seq<Entry>, ps: seq<FlatPlugin>, es': seq<Entry>,
      ps': seq<FlatPlugin>)
    requires AreFlattened(uuid, ids, es, ps) && AreFlattened(uuid, ids, es', ps')
    ensures AreFlattened(uuid, ids, es + es', ps + ps')
  {
  }

  // ---------------------------------------------------------------------------------------------
  // Rows
  // ---------------------------------------------------------------------------------------------

  function Rows(ids: IDMap, es: seq<Named>): (rows: seq<Row>)
    ensures |rows| == |es|
  {
    seq(|es|, i requires 0 <= i < |es| => Row(Lookup(ids, es[i].name), es[i].name))
  }

  function ServiceRouteRows(ids: IDs, routes: seq<(string, string)>): (rows: seq<RouteRow>)
    ensures |rows| == |routes|
  {
    seq(|routes|, i requires 0 <= i < |routes| =>
      RouteRow(Lookup(ids.route, RouteKey(routes[i].0, routes[i].1)), routes[i].1, Lookup(ids.service, routes[i].0)))
  }

  function TopRouteRows(uuid: string -> string, routes: seq<Route>): (rows: seq<RouteRow>)
    ensures |rows| == |routes|
  {
    seq(|routes|, i requires 0 <= i < |routes| => RouteRow(TopRouteID(uuid, routes[i].name), routes[i].name, ""))
  }

  /** The pair of a consumer and a group that it names. */
  ghost predicate IsMember(ids: IDs, consumers: seq<Consumer>, pair: (string, string)) {
    exists c, g :: c in consumers && g in c.groups && pair == (Lookup(ids.consumer, c.username), Lookup(ids.group, g))
  }

  /** What flattening a document gives. */
  ghost predicate IsFlat(uuid: string -> string, d: Document, out: Flat) {
    var ids := DocumentIDs(uuid, d);
    out.services == Rows(ids.service, NamedServices(d.services)) &&
    out.routes == ServiceRouteRows(ids, ServiceRoutes(d.services)) + TopRouteRows(uuid, d.routes) &&
    out.consumers == Rows(ids.consumer, NamedConsumers(d.consumers)) &&
    out.groups == Rows(ids.group, NamedGroups(d.groups)) &&
    out.models == Rows(ids.model, NamedModels(d.models)) &&
    NoDup(out.members) && (forall pair :: pair in out.members <==> IsMember(ids, d.consumers, pair)) &&
    AreFlattened(uuid, ids, DocumentEntries(d), out.plugins)
  }

  // ---------------------------------------------------------------------------------------------
  // Flattening
  // ---------------------------------------------------------------------------------------------

  method NameEntities(uuid: string -> string, prefix: string, es: seq<Named>) returns (ids: IDMap)
    ensures ids == NamedIDs(uuid, prefix, es)
  {
    ids := map[];
    for i := 0 to |es|
      invariant ids == NamedIDs(uuid, prefix, es[..i])
    {
      assert es[..i + 1][..i] == es[..i];
      ids := ids[es[i].name := IDOf(uuid, prefix, es[i])];
    }
    TakeAll(es);
  }

  method NameRoutes(uuid: string -> string, services: seq<Service>) returns (ids: IDMap)
    ensures ids == RouteIDs(uuid, ServiceRoutes(services))
  {
    ids := map[];
    for i := 0 to |services|
      invariant ids == RouteIDs(uuid, ServiceRoutes(services[..i]))
    {
      ids := NameRoutesOf(uuid, ids, services[i].name, services[i].routes, ServiceRoutes(services[..i]));
      ServiceRoutesNext(services, i);
    }
    TakeAll(services);
  }

  lemma ServiceRoutesNext(services: seq<Service>, i: nat)
    requires i < |services|
    ensures ServiceRoutes(services[..i + 1]) ==
            ServiceRoutes(services[..i]) + RoutesOf(services[i].name, services[i].routes)
  {
    assert services[..i + 1][..i] == services[..i];
  }

  method NameRoutesOf(uuid: string -> string, start: IDMap, service: string, routes: seq<Route>,
      ghost before: seq<(string, string)>)
    returns (ids: IDMap)
    requires start == RouteIDs(uuid, before)
    ensures ids == RouteIDs(uuid, before + RoutesOf(service, routes))
  {
    ids := start;
    ghost var mine := RoutesOf(service, routes);
    assert before + mine[..0] == before;
    for j := 0 to |routes|
      invariant ids == RouteIDs(uuid, before + mine[..j])
    {
      RouteIDsNext(uuid, before, mine, j);
      ids := ids[RouteKey(service, routes[j].name) := RouteID(uuid, service, routes[j].name)];
    }
    TakeAll(mine);
  }

  lemma RouteIDsNext(uuid: string -> string, before: seq<(string, string)>, mine: seq<(string, string)>, j: nat)
    requires j < |mine|
    ensures RouteIDs(uuid, before + mine[..j + 1]) ==
            RouteIDs(uuid, before + mine[..j])[RouteKey(mine[j].0, mine[j].1) := RouteID(uuid, mine[j].0, mine[j].1)]
  {
    assert (before + mine[..j + 1])[..|before| + j] == before + mine[..j];
  }

  /** Looks a route up by name alone, among the keys of the map in any order. */
  method LookupRoute(ids: IDMap, route: Option<string>) returns (id: string)
    ensures IsRouteRef(ids, route, id)
  {
    if route.None? {
      return "";
    }
    var keys := ids.Keys;
    while keys != {}
      invariant keys <= ids.Keys && forall key :: key in ids && key !in keys ==> !KeyMatches(key, route.value)
      decreases |keys|
    {
      var key :| key in keys;
      if |key| > |route.value| + 1 && key[|key| - |route.value| - 1..] == "|" + route.value {
        return ids[key];
      }
      keys := keys - {key};
    }
    id := "";
  }

  /** Flattens the plugins nested in one entity. */
  method FlattenNested(uuid: string -> string, nest: Nest, plugins: seq<Plugin>, scope: Scope,
      ghost ids: IDs) returns (ps: seq<FlatPlugin>)
    requires !nest.TopLevel? && forall p, i :: IsScope(uuid, ids, Entry(nest, p, i), scope)
    ensures AreFlattened(uuid, ids, Entries(nest, plugins), ps)
  {
    ps := [];
    for i := 0 to |plugins|
      invariant AreFlattened(uuid, ids, Entries(nest, plugins)[..i], ps)
    {
      var e := Entry(nest, plugins[i], i);
      assert IsScope(uuid, ids, e, scope);
      ps := ps + [FlatPlugin(FirstNonEmpty(plugins[i].id, uuid(PluginKey(e))), plugins[i].name, plugins[i].body,
          scope)];
    }
    TakeAll(Entries(nest, plugins));
  }

  method FlattenRoutes(uuid: string -> string, ids: IDs, service: string, serviceID: string, routes: seq<Route>)
    returns (rows: seq<RouteRow>, ps: seq<FlatPlugin>)
    requires serviceID == Lookup(ids.service, service)
    ensures rows == ServiceRouteRows(ids, RoutesOf(service, routes))
    ensures AreFlattened(uuid, ids, RouteEntries(service, routes), ps)
  {
    rows, ps := [], [];
    for i := 0 to |routes|
      invariant rows == ServiceRouteRows(ids, RoutesOf(service, routes[..i]))
      invariant AreFlattened(uuid, ids, RouteEntries(service, routes[..i]), ps)
    {
      var route := routes[i];
      var nest, id := InServiceRoute(service, route.name), Lookup(ids.route, RouteKey(service, route.name));
      rows := rows + [RouteRow(id, route.name, serviceID)];
      var more := FlattenNested(uuid, nest, route.plugins, Scope("", id, "", "", ""), ids);
      assert routes[..i + 1][..i] == routes[..i];
      FlattenedConcat(uuid, ids, RouteEntries(service, routes[..i]), ps, Entries(nest, route.plugins), more);
      ps := ps + more;
    }
    TakeAll(routes);
  }

  method FlattenServices(uuid: string -> string, ids: IDs, services: seq<Service>)
    returns (rows: seq<Row>, routes: seq<RouteRow>, ps: seq<FlatPlugin>)
    ensures rows == Rows(ids.service, NamedServices(services))
    ensures routes == ServiceRouteRows(ids, ServiceRoutes(services))
    ensures AreFlattened(uuid, ids, ServiceEntries(services), ps)
  {
    rows, routes, ps := [], [], [];
    for i := 0 to |services|
      invariant rows == Rows(ids.service, NamedServices(services[..i]))
      invariant routes == ServiceRouteRows(ids, ServiceRoutes(services[..i]))
      invariant AreFlattened(uuid, ids, ServiceEntries(services[..i]), ps)
    {
      var service := services[i];
      var id := Lookup(ids.service, service.name);
      rows := rows + [Row(id, service.name)];
      var moreRoutes, nested := FlattenRoutes(uuid, ids, service.name, id, service.routes);
      var own := FlattenNested(uuid, InService(service.name), service.plugins, Scope(id, "", "", "", ""), ids);
      NextService(uuid, ids, services, i, ps, nested, own);
      NextServiceRows(ids, services, i);
      routes, ps := routes + moreRoutes, ps + nested + own;
    }
    TakeAll(services);
  }

  lemma NextService(uuid: string -> string, ids: IDs, services: seq<Service>, i: nat, ps: seq<FlatPlugin>,
      nested: seq<FlatPlugin>, own: seq<FlatPlugin>)
    requires i < |services| && AreFlattened(uuid, ids, ServiceEntries(services[..i]), ps)
    requires AreFlattened(uuid, ids, RouteEntries(services[i].name, services[i].routes), nested)
    requires AreFlattened(uuid, ids, Entries(InService(services[i].name), services[i].plugins), own)
    ensures AreFlattened(uuid, ids, ServiceEntries(services[..i + 1]), ps + nested + own)
  {
    assert services[..i + 1][..i] == services[..i];
    var before, inner := ServiceEntries(services[..i]), RouteEntries(services[i].name, services[i].routes);
    FlattenedConcat(uuid, ids, before, ps, inner, nested);
    FlattenedConcat(uuid, ids, before + inner, ps + nested,
        Entries(InService(services[i].name), services[i].plugins), own);
  }

  lemma NextServiceRows(ids: IDs, services: seq<Service>, i: nat)
    requires i < |services|
    ensures Rows(ids.service, NamedServices(services[..i + 1])) ==
            Rows(ids.service, NamedServices(services[..i])) +
                [Row(Lookup(ids.service, services[i].name), services[i].name)]
    ensures ServiceRouteRows(ids, ServiceRoutes(services[..i + 1])) ==
            ServiceRouteRows(ids, ServiceRoutes(services[..i])) +
                ServiceRouteRows(ids, RoutesOf(services[i].name, services[i].routes))
  {
    ServiceRoutesNext(services, i);
  }

  method FlattenTopRoutes(uuid: string -> string, routes: seq<Route>,
      ghost ids: IDs) returns (rows: seq<RouteRow>, ps: seq<FlatPlugin>)
    ensures rows == TopRouteRows(uuid, routes)
    ensures AreFlattened(uuid, ids, TopRouteEntries(routes), ps)
  {
    rows, ps := [], [];
    for i := 0 to |routes|
      invariant rows == TopRouteRows(uuid, routes[..i])
      invariant AreFlattened(uuid, ids, TopRouteEntries(routes[..i]), ps)
    {
      var route := routes[i];
      var id := TopRouteID(uuid, route.name);
      rows := rows + [RouteRow(id, route.name, "")];
      var more := FlattenNested(uuid, InRoute(route.name), route.plugins, Scope("", id, "", "", ""), ids);
      assert routes[..i + 1][..i] == routes[..i];
      FlattenedConcat(uuid, ids, TopRouteEntries(routes[..i]), ps, Entries(InRoute(route.name), route.plugins), more);
      ps := ps + more;
    }
    TakeAll(routes);
  }

  /** A group that has an ID keeps it. */
  lemma {:induction false} MembershipsKeep(uuid: string -> string, ids: IDMap, groups: seq<string>, more: seq<string>)
    ensures forall g :: g in WithMemberships(uuid, ids, groups) ==>
              g in WithMemberships(uuid, ids, groups + more) &&
              WithMemberships(uuid, ids, groups + more)[g] == WithMemberships(uuid, ids, groups)[g]
  {
    if more == [] {
      assert groups + more == groups;
    } else {
      MembershipsKeep(uuid, ids, groups, more[..|more| - 1]);
      assert (groups + more)[..|groups + more| - 1] == groups + more[..|more| - 1];
    }
  }

  /** Some group among groups makes this pair with the consumer. */
  ghost predicate Joined(ids: IDMap, consumer: string, groups: seq<string>, pair: (string, string)) {
    exists g :: g in groups && pair == (consumer, Lookup(ids, g))
  }

  lemma JoinedNext(ids: IDMap, consumer: string, groups: seq<string>, j: nat, pair: (string, string))
    requires j < |groups|
    ensures Joined(ids, consumer, groups[..j + 1], pair) <==>
            Joined(ids, consumer, groups[..j], pair) || pair == (consumer, Lookup(ids, groups[j]))
  {
    assert groups[..j + 1] == groups[..j] + [groups[j]];
    if pair == (consumer, Lookup(ids, groups[j])) {
      assert groups[j] in groups[..j + 1];
    }
  }

  /** Puts one consumer in its groups; a group that is not known yet gets an ID. */
  method JoinGroups(uuid: string -> string, groupIDs: IDMap, members: seq<(string, string)>, consumer: string,
      groups: seq<string>,
                    ghost start: IDMap, ghost before: seq<string>, ghost final: IDMap)
    returns (groupIDs': IDMap, members': seq<(string, string)>)
    requires groupIDs == WithMemberships(uuid, start, before) && NoDup(members)
    requires forall g :: g in WithMemberships(uuid, start, before + groups) ==>
               g in final && final[g] == WithMemberships(uuid, start, before + groups)[g]
    ensures groupIDs' == WithMemberships(uuid, start, before + groups)
    ensures NoDup(members') &&
            forall pair :: pair in members' <==> pair in members || Joined(final, consumer, groups, pair)
  {
    groupIDs', members' := groupIDs, members;
    assert before + groups[..0] == before;
    for j := 0 to |groups|
      invariant groupIDs' == WithMemberships(uuid, start, before + groups[..j])
      invariant NoDup(members')
      invariant forall pair :: pair in members' <==> pair in members || Joined(final, consumer, groups[..j], pair)
    {
      var name := groups[j];
      KnownGroup(uuid, start, before, groups, j, final);
      forall pair ensures Joined(final, consumer, groups[..j + 1], pair) <==>
                          Joined(final, consumer, groups[..j], pair) || pair == (consumer, Lookup(final, name)) {
        JoinedNext(final, consumer, groups, j, pair);
      }
      if name !in groupIDs' {
        groupIDs' := groupIDs'[name := uuid("consumer_group:" + name)];
      }
      var pair := (consumer, groupIDs'[name]);
      if pair !in members' {
        members' := members' + [pair];
      }
    }
    TakeAll(groups);
  }

  lemma KnownGroup(uuid: string -> string, start: IDMap, before: seq<string>, groups: seq<string>, j: nat, final: IDMap)
    requires j < |groups|
    requires forall g :: g in WithMemberships(uuid, start, before + groups) ==>
               g in final && final[g] == WithMemberships(uuid, start, before + groups)[g]
    ensures var ids := WithMemberships(uuid, start, before + groups[..j]);
            WithMemberships(uuid, start, before + groups[..j + 1]) ==
              (if groups[j] in ids then ids else ids[groups[j] := uuid("consumer_group:" + groups[j])])
    ensures groups[j] in final && WithMemberships(uuid, start, before + groups[..j + 1])[groups[j]] == final[groups[j]]
  {
    MembershipsNext(uuid, start, before, groups, j);
    assert before + groups[..j + 1] + groups[j + 1..] == before + groups;
    MembershipsKeep(uuid, start, before + groups[..j + 1], groups[j + 1..]);
  }

  lemma MembershipsNext(uuid: string -> string, start: IDMap, before: seq<string>, groups: seq<string>, j: nat)
    requires j < |groups|
    ensures var ids := WithMemberships(uuid, start, before + groups[..j]);
            WithMemberships(uuid, start, before + groups[..j + 1]) ==
              (if groups[j] in ids then ids else ids[groups[j] := uuid("consumer_group:" + groups[j])])
  {
    assert (before + groups[..j + 1])[..|before| + j] == before + groups[..j];
  }

  method FlattenConsumers(uuid: string -> string, consumerIDs: IDMap, groupIDs: IDMap, consumers: seq<Consumer>,
      ghost ids: IDs)
    returns (groupIDs': IDMap, rows: seq<Row>, members: seq<(string, string)>, ps: seq<FlatPlugin>)
    requires ids.consumer == consumerIDs && ids.group == WithMemberships(uuid, groupIDs, Memberships(consumers))
    ensures groupIDs' == ids.group
    ensures rows == Rows(consumerIDs, NamedConsumers(consumers))
    ensures NoDup(members) && forall pair :: pair in members <==> IsMember(ids, consumers, pair)
    ensures AreFlattened(uuid, ids, ConsumerEntries(consumers), ps)
  {
    groupIDs', rows, members, ps := groupIDs, [], [], [];
    for i := 0 to |consumers|
      invariant groupIDs' == WithMemberships(uuid, groupIDs, Memberships(consumers[..i]))
      invariant rows == Rows(consumerIDs, NamedConsumers(consumers[..i]))
      invariant NoDup(members) && forall pair :: pair in members <==> IsMember(ids, consumers[..i], pair)
      invariant AreFlattened(uuid, ids, ConsumerEntries(consumers[..i]), ps)
    {
      var c := consumers[i];
      var id := Lookup(consumerIDs, c.username);
      NextMemberships(uuid, groupIDs, ids, consumers, i);
      NextConsumerRow(consumerIDs, consumers, i);
      rows := rows + [Row(id, c.username)];
      ps := FlattenConsumer(uuid, id, consumers, i, ps, ids);
      groupIDs', members := JoinGroups(uuid, groupIDs', members, id, c.groups, groupIDs, Memberships(consumers[..i]),
          ids.group);
    }
    TakeAll(consumers);
  }

  lemma NextConsumerRow(ids: IDMap, consumers: seq<Consumer>, i: nat)
    requires i < |consumers|
    ensures Rows(ids, NamedConsumers(consumers[..i + 1])) ==
            Rows(ids, NamedConsumers(consumers[..i])) + [Row(Lookup(ids, consumers[i].username), consumers[i].username)]
  {
  }

  method FlattenConsumer(uuid: string -> string, id: string, consumers: seq<Consumer>, i: nat,
      before: seq<FlatPlugin>, ghost ids: IDs) returns (ps: seq<FlatPlugin>)
    requires i < |consumers| && id == Lookup(ids.consumer, consumers[i].username)
    requires AreFlattened(uuid, ids, ConsumerEntries(consumers[..i]), before)
    ensures AreFlattened(uuid, ids, ConsumerEntries(consumers[..i + 1]), ps)
  {
    var c := consumers[i];
    var more := FlattenNested(uuid, InConsumer(c.username), c.plugins, Scope("", "", id, "", ""), ids);
    assert consumers[..i + 1][..i] == consumers[..i];
    FlattenedConcat(uuid, ids, ConsumerEntries(consumers[..i]), before, Entries(InConsumer(c.username), c.plugins),
        more);
    ps := before + more;
  }

  lemma {:induction false} MembershipsPrefix(consumers: seq<Consumer>, i: nat)
    requires i <= |consumers|
    ensures Memberships(consumers[..i]) <= Memberships(consumers)
    decreases |consumers| - i
  {
    if i < |consumers| {
      MembershipsPrefix(consumers, i + 1);
      assert consumers[..i + 1][..i] == consumers[..i];
    } else {
      TakeAll(consumers);
    }
  }

  lemma NextMemberships(uuid: string -> string, start: IDMap, ids: IDs, consumers: seq<Consumer>, i: nat)
    requires i < |consumers| && ids.group == WithMemberships(uuid, start, Memberships(consumers))
    ensures Memberships(consumers[..i + 1]) == Memberships(consumers[..i]) + consumers[i].groups
    ensures forall g :: g in WithMemberships(uuid, start, Memberships(consumers[..i]) + consumers[i].groups) ==>
              g in ids.group && ids.group[g] ==
                  WithMemberships(uuid, start, Memberships(consumers[..i]) + consumers[i].groups)[g]
    ensures forall pair :: IsMember(ids, consumers[..i + 1], pair) <==>
              IsMember(ids, consumers[..i], pair) ||
                  Joined(ids.group, Lookup(ids.consumer, consumers[i].username), consumers[i].groups, pair)
  {
    assert consumers[..i + 1][..i] == consumers[..i];
    MembershipsPrefix(consumers, i + 1);
    var done := Memberships(consumers[..i + 1]);
    assert Memberships(consumers) == done + Memberships(consumers)[|done|..];
    MembershipsKeep(uuid, start, done, Memberships(consumers)[|done|..]);
    assert consumers[..i + 1] == consumers[..i] + [consumers[i]];
    assert consumers[i] in consumers[..i + 1];
  }

  method FlattenGroups(uuid: string -> string, groups: seq<Group>, ids: IDs)
    returns (rows: seq<Row>, ps: seq<FlatPlugin>)
    ensures rows == Rows(ids.group, NamedGroups(groups))
    ensures AreFlattened(uuid, ids, GroupEntries(groups), ps)
  {
    rows, ps := [], [];
    for i := 0 to |groups|
      invariant rows == Rows(ids.group, NamedGroups(groups[..i]))
      invariant AreFlattened(uuid, ids, GroupEntries(groups[..i]), ps)
    {
      var g := groups[i];
      var id := Lookup(ids.group, g.name);
      rows := rows + [Row(id, g.name)];
      var more := FlattenNested(uuid, InGroup(g.name), g.plugins, Scope("", "", "", id, ""), ids);
      assert groups[..i + 1][..i] == groups[..i];
      FlattenedConcat(uuid, ids, GroupEntries(groups[..i]), ps, Entries(InGroup(g.name), g.plugins), more);
      ps := ps + more;
    }
    TakeAll(groups);
  }

  method FlattenModels(models: seq<AIModel>, ids: IDMap) returns (rows: seq<Row>)
    ensures rows == Rows(ids, NamedModels(models))
  {
    rows := [];
    for i := 0 to |models|
      invariant rows == Rows(ids, NamedModels(models[..i]))
    {
      rows := rows + [Row(Lookup(ids, models[i].name), models[i].name)];
    }
    TakeAll(models);
  }

  /** Flattens the plugins of the document itself, which name their scope. */
  method FlattenTopLevel(uuid: string -> string, plugins: seq<Plugin>, ids: IDs) returns (ps: seq<FlatPlugin>)
    ensures AreFlattened(uuid, ids, Entries(TopLevel, plugins), ps)
  {
    ps := [];
    for i := 0 to |plugins|
      invariant AreFlattened(uuid, ids, Entries(TopLevel, plugins)[..i], ps)
    {
      var p, e := plugins[i], Entry(TopLevel, plugins[i], i);
      var route := LookupRoute(ids.route, p.route);
      var scope := Scope(LookupRef(ids.service, p.service), route, LookupRef(ids.consumer, p.consumer),
                         LookupRef(ids.group, p.group), LookupRef(ids.model, p.model));
      ps := ps + [FlatPlugin(FirstNonEmpty(p.id, uuid(PluginKey(e))), p.name, p.body, scope)];
    }
    TakeAll(Entries(TopLevel, plugins));
  }

  method ToDBLess(uuid: string -> string, d: Document) returns (out: Flat)
    ensures IsFlat(uuid, d, out)
  {
    var service := NameEntities(uuid, "service:", NamedServices(d.services));
    var route := NameRoutes(uuid, d.services);
    var model := NameEntities(uuid, "ai_model:", NamedModels(d.models));
    var declared := NameEntities(uuid, "consumer_group:", NamedGroups(d.groups));
    var consumer := NameEntities(uuid, "consumer:", NamedConsumers(d.consumers));
    ghost var final := DocumentIDs(uuid, d);
    var early := IDs(service, route, model, declared, consumer);
    var services, serviceRoutes, p1 := FlattenServices(uuid, early, d.services);
    var topRoutes, p2 := FlattenTopRoutes(uuid, d.routes, final);
    var group, consumers, members, p3 := FlattenConsumers(uuid, consumer, declared, d.consumers, final);
    var ids := IDs(service, route, model, group, consumer);
    var groups, p4 := FlattenGroups(uuid, d.groups, ids);
    var models := FlattenModels(d.models, model);
    var p5 := FlattenTopLevel(uuid, d.plugins, ids);
    ServicesNeedNoGroups(uuid, early, ids, d.services, p1);
    AllFlattened(uuid, ids, d, p1, p2, p3, p4, p5);
    out := Flat(services, serviceRoutes + topRoutes, consumers, groups, models, members, p1 + p2 + p3 + p4 + p5);
  }

  lemma AllFlattened(uuid: string -> string, ids: IDs, d: Document, p1: seq<FlatPlugin>, p2: seq<FlatPlugin>,
      p3: seq<FlatPlugin>, p4: seq<FlatPlugin>, p5: seq<FlatPlugin>)
    requires AreFlattened(uuid, ids, ServiceEntries(d.services), p1) &&
             AreFlattened(uuid, ids, TopRouteEntries(d.routes), p2)
    requires AreFlattened(uuid, ids, ConsumerEntries(d.consumers), p3) &&
             AreFlattened(uuid, ids, GroupEntries(d.groups), p4)
    requires AreFlattened(uuid, ids, Entries(TopLevel, d.plugins), p5)
    ensures AreFlattened(uuid, ids, DocumentEntries(d), p1 + p2 + p3 + p4 + p5)
  {
    var e1, e2, e3, e4 := ServiceEntries(d.services), TopRouteEntries(d.routes), ConsumerEntries(d.consumers),
        GroupEntries(d.groups);
    FlattenedConcat(uuid, ids, e1, p1, e2, p2);
    FlattenedConcat(uuid, ids, e1 + e2, p1 + p2, e3, p3);
    FlattenedConcat(uuid, ids, e1 + e2 + e3, p1 + p2 + p3, e4, p4);
    FlattenedConcat(uuid, ids, e1 + e2 + e3 + e4, p1 + p2 + p3 + p4, Entries(TopLevel, d.plugins), p5);
  }

  /** The plugins of services and routes do not depend on the group IDs. */
  lemma ServicesNeedNoGroups(uuid: string -> string, early: IDs, ids: IDs, services: seq<Service>, ps: seq<FlatPlugin>)
    requires AreFlattened(uuid, early, ServiceEntries(services), ps) && early.(group := ids.group) == ids
    ensures AreFlattened(uuid, ids, ServiceEntries(services), ps)
    ensures ServiceRouteRows(early, ServiceRoutes(services)) == ServiceRouteRows(ids, ServiceRoutes(services))
  {
    ServiceNests(services);
    forall i | 0 <= i < |ps| ensures IsFlattened(uuid, ids, ServiceEntries(services)[i], ps[i]) {
      assert IsFlattened(uuid, early, ServiceEntries(services)[i], ps[i]);
      assert ServiceEntries(services)[i] in ServiceEntries(services);
    }
  }

  lemma {:induction false} ServiceNests(services: seq<Service>)
    ensures forall e :: e in ServiceEntries(services) ==> e.nest.InServiceRoute? || e.nest.InService?
  {
    if services != [] {
      var last := services[|services| - 1];
      ServiceNests(services[..|services| - 1]);
      RouteNests(last.name, last.routes);
    }
  }

  lemma {:induction false} RouteNests(service: string, routes: seq<Route>)
    ensures forall e :: e in RouteEntries(service, routes) ==> e.nest.InServiceRoute?
  {
    if routes != [] {
      RouteNests(service, routes[..|routes| - 1]);
    }
  }

  // ---------------------------------------------------------------------------------------------
  // What flattening preserves
  // ---------------------------------------------------------------------------------------------

  /** Distinct inputs get distinct IDs, and no ID is empty. */
  ghost predicate MakesIDs(uuid: string -> string) {
    (forall a, b :: uuid(a) == uuid(b) ==> a == b) && forall a :: uuid(a) != ""
  }

  ghost predicate DistinctNames(es: seq<Named>) {
    forall i, j :: 0 <= i < j < |es| ==> es[i].name != es[j].name
  }

  ghost predicate DistinctIDs(uuid: string -> string, prefix: string, es: seq<Named>) {
    forall i, j :: 0 <= i < j < |es| ==> IDOf(uuid, prefix, es[i]) != IDOf(uuid, prefix, es[j])
  }

  ghost predicate WellNamedKind(uuid: string -> string, prefix: string, es: seq<Named>) {
    DistinctNames(es) && DistinctIDs(uuid, prefix, es)
  }

  /** The key of a route is that of no other route. */
  ghost predicate KeysApart(routes: seq<(string, string)>) {
    forall r, q :: r in routes && q in routes && RouteKey(r.0, r.1) == RouteKey(q.0, q.1) ==> r == q
  }

  /** The routes of services, and those without a service as if they had one without a name. */
  function AllRoutes(routes: seq<(string, string)>, tops: seq<Route>): (all: seq<(string, string)>)
    ensures |all| == |routes| + |tops|
  {
    routes + seq(|tops|, i requires 0 <= i < |tops| => ("", tops[i].name))
  }

  function JoinedName(r: (string, string)): string {
    r.0 + ":" + r.1
  }

  /** What the IDs of the routes are made from is distinct, and so are the keys. */
  ghost predicate WellNamedRoutes(routes: seq<(string, string)>, tops: seq<Route>) {
    KeysApart(routes) &&
    forall i, j :: 0 <= i < j < |AllRoutes(routes, tops)| ==>
      JoinedName(AllRoutes(routes, tops)[i]) != JoinedName(AllRoutes(routes, tops)[j])
  }

  ghost predicate WellNamed(uuid: string -> string, d: Document) {
    MakesIDs(uuid) &&
    WellNamedKind(uuid, "service:", NamedServices(d.services)) &&
        WellNamedKind(uuid, "ai_model:", NamedModels(d.models)) &&
    WellNamedKind(uuid, "consumer_group:", NamedGroups(d.groups)) &&
        WellNamedKind(uuid, "consumer:", NamedConsumers(d.consumers)) &&
    WellNamedRoutes(ServiceRoutes(d.services), d.routes)
  }

  /** id refers to the row of that name and to no other row; without a name there is no reference. */
  ghost predicate Refers(rows: seq<Row>, id: string, name: Option<string>) {
    if name.None? then id == ""
    else
      id != "" && Row(id, name.value) in rows &&
      forall row :: row in rows && row.id == id ==> row == Row(id, name.value)
  }

  /** A route by its name and that of its service. */
  datatype RouteName = RouteName(service: Option<string>, name: string)

  ghost predicate RefersToRoute(out: Flat, id: string, name: Option<RouteName>) {
    if name.None? then id == ""
    else id != "" && (exists row :: row in out.routes && row.id == id) &&
         forall row :: row in out.routes && row.id == id ==>
           row.name == name.value.name && Refers(out.services, row.service, name.value.service)
  }

  ghost predicate IsNamedRoute(routes: seq<(string, string)>, r: (string, string)) {
    r in routes && r.0 != ""
  }

  /** Some route of a named service has this name, and the keys of all other routes end differently. */
  ghost predicate NamesRoute(routes: seq<(string, string)>, name: string) {
    exists r :: IsNamedRoute(routes, r) && r.1 == name &&
      forall q :: q in routes && KeyMatches(RouteKey(q.0, q.1), name) ==> q == r
  }

  /** The entities that a plugin is scoped to, by name. */
  datatype Target = Target(service: Option<string>, route: Option<RouteName>, consumer: Option<string>,
      group: Option<string>, model: Option<string>)

  /** A nested plugin is meant for the entity around it, another plugin for the entities that it names. */
  ghost predicate IsTarget(d: Document, e: Entry, t: Target) {
    match e.nest
    case InServiceRoute(service, route) => t == Target(None, Some(RouteName(Some(service), route)), None, None, None)
    case InService(name) => t == Target(Some(name), None, None, None, None)
    case InRoute(name) => t == Target(None, Some(RouteName(None, name)), None, None, None)
    case InConsumer(name) => t == Target(None, None, Some(name), None, None)
    case InGroup(name) => t == Target(None, None, None, Some(name), None)
    case TopLevel =>
      t == Target(e.plugin.service, t.route, e.plugin.consumer, e.plugin.group, e.plugin.model) &&
      if e.plugin.route.None? then t.route == None
      else
        t.route.Some? && t.route.value.service.Some? && t.route.value.name == e.plugin.route.value &&
        IsNamedRoute(ServiceRoutes(d.services), (t.route.value.service.value, e.plugin.route.value))
  }

  ghost predicate Declares(es: seq<Named>, name: Option<string>) {
    name.Some? ==> exists i :: 0 <= i < |es| && es[i].name == name.value
  }

  /** The plugins of the document name only entities of the document, and only routes that a name leads to. */
  ghost predicate Closed(d: Document) {
    forall p :: p in d.plugins ==>
      Declares(NamedServices(d.services), p.service) && Declares(NamedConsumers(d.consumers), p.consumer) &&
      Declares(NamedGroups(d.groups), p.group) && Declares(NamedModels(d.models), p.model) &&
      (p.route.Some? ==> NamesRoute(ServiceRoutes(d.services), p.route.value))
  }

  // Entities that are looked up by name

  lemma {:induction false} NamedIDsExact(uuid: string -> string, prefix: string, es: seq<Named>, i: nat)
    requires DistinctNames(es) && i < |es|
    ensures es[i].name in NamedIDs(uuid, prefix, es) &&
            NamedIDs(uuid, prefix, es)[es[i].name] == IDOf(uuid, prefix, es[i])
  {
    if i < |es| - 1 {
      NamedIDsExact(uuid, prefix, es[..|es| - 1], i);
    }
  }

  /** The row of each entity has the ID of the entity. */
  lemma RowsExact(uuid: string -> string, prefix: string, es: seq<Named>, ids: IDMap)
    requires DistinctNames(es)
    requires forall n :: n in NamedIDs(uuid, prefix, es) ==> n in ids && ids[n] == NamedIDs(uuid, prefix, es)[n]
    ensures forall j :: 0 <= j < |es| ==> Rows(ids, es)[j] == Row(IDOf(uuid, prefix, es[j]), es[j].name)
  {
    forall j | 0 <= j < |es| ensures Rows(ids, es)[j] == Row(IDOf(uuid, prefix, es[j]), es[j].name) {
      NamedIDsExact(uuid, prefix, es, j);
    }
  }

  lemma RowRefers(rows: seq<Row>, i: nat)
    requires i < |rows| && rows[i].id != "" && forall j, k :: 0 <= j < k < |rows| ==> rows[j].id != rows[k].id
    ensures Refers(rows, rows[i].id, Some(rows[i].name))
  {
    forall row | row in rows && row.id == rows[i].id ensures row == rows[i] {
      var k :| 0 <= k < |rows| && rows[k] == row;
      assert k == i;
    }
  }

  /** Looking up the name of an entity gives the ID of its row, and of no other row. */
  lemma LookupRefers(uuid: string -> string, prefix: string, es: seq<Named>, ids: IDMap, name: Option<string>)
    requires MakesIDs(uuid) && WellNamedKind(uuid, prefix, es) && Declares(es, name)
    requires forall n :: n in NamedIDs(uuid, prefix, es) ==> n in ids && ids[n] == NamedIDs(uuid, prefix, es)[n]
    ensures Refers(Rows(ids, es), LookupRef(ids, name), name)
  {
    if name.Some? {
      var i :| 0 <= i < |es| && es[i].name == name.value;
      RowsExact(uuid, prefix, es, ids);
      RowRefers(Rows(ids, es), i);
    }
  }

  // Routes

  /** Two strings that end in a separator and a part without it split there in one way only. */
  lemma SplitOnce(a: string, b: string, c: string, d: string, separator: char)
    requires separator !in b && separator !in d && a + [separator] + b == c + [separator] + d
    ensures a == c && b == d
  {
    var s, t := a + [separator] + b, c + [separator] + d;
    forall k | |a| < k < |s| ensures s[k] != separator {
      assert s[k] == b[k - |a| - 1];
    }
    forall k | |c| < k < |t| ensures t[k] != separator {
      assert t[k] == d[k - |c| - 1];
    }
    assert s[|a|] == separator && t[|c|] == separator;
    assert !(|a| < |c|) && !(|c| < |a|);
    assert s[..|a|] == a && t[..|a|] == c && s[|a| + 1..] == b && t[|a| + 1..] == d;
  }

  lemma RouteKeyOnce(r: (string, string), q: (string, string))
    requires '|' !in r.1 && '|' !in q.1 && RouteKey(r.0, r.1) == RouteKey(q.0, q.1)
    ensures r == q
  {
    SplitOnce(r.0, r.1, q.0, q.1, '|');
  }

  /** Keys are apart if no route name holds their separator. */
  lemma PlainKeysApart(routes: seq<(string, string)>)
    requires forall r :: r in routes ==> '|' !in r.1
    ensures KeysApart(routes)
  {
    forall r, q | r in routes && q in routes && RouteKey(r.0, r.1) == RouteKey(q.0, q.1) ensures r == q {
      RouteKeyOnce(r, q);
    }
  }

  lemma RouteIDOnce(uuid: string -> string, r: (string, string), q: (string, string))
    requires MakesIDs(uuid) && RouteID(uuid, r.0, r.1) == RouteID(uuid, q.0, q.1)
    ensures JoinedName(r) == JoinedName(q)
  {
    assert "route:" + r.0 + ":" + r.1 == "route:" + JoinedName(r);
    assert "route:" + q.0 + ":" + q.1 == "route:" + JoinedName(q);
    PrefixOnce("route:", JoinedName(r), JoinedName(q));
  }

  lemma TopRouteIsNameless(uuid: string -> string, route: string)
    ensures TopRouteID(uuid, route) == RouteID(uuid, "", route)
  {
    assert "route:" + "" + ":" + route == "route::" + route;
  }

  lemma {:induction false} RouteIDsMean(uuid: string -> string, routes: seq<(string, string)>)
    requires KeysApart(routes)
    ensures forall r :: r in routes ==> RouteKey(r.0, r.1) in RouteIDs(uuid, routes) &&
                                        RouteIDs(uuid, routes)[RouteKey(r.0, r.1)] == RouteID(uuid, r.0, r.1)
  {
    if routes != [] {
      var init, last := routes[..|routes| - 1], routes[|routes| - 1];
      assert routes == init + [last];
      RouteIDsMean(uuid, init);
      forall r | r in routes
        ensures RouteKey(r.0, r.1) in RouteIDs(uuid, routes) &&
                RouteIDs(uuid, routes)[RouteKey(r.0, r.1)] == RouteID(uuid, r.0, r.1)
      {
        assert r in init || r == last;
      }
    }
  }

  lemma {:induction false} RouteOfKey(uuid: string -> string, routes: seq<(string, string)>,
      key: string) returns (r: (string, string))
    requires key in RouteIDs(uuid, routes)
    ensures r in routes && key == RouteKey(r.0, r.1)
  {
    var init, last := routes[..|routes| - 1], routes[|routes| - 1];
    assert routes == init + [last];
    r := last;
    if key != RouteKey(last.0, last.1) {
      r := RouteOfKey(uuid, init, key);
    }
  }

  /**
    The key of a route matches a name without the separator exactly if the route has it and its service has
    any name.
   */
  lemma KeyMatchesExact(r: (string, string), route: string)
    requires '|' !in r.1 && '|' !in route
    ensures KeyMatches(RouteKey(r.0, r.1), route) <==> r.1 == route && r.0 != ""
  {
    var key := RouteKey(r.0, r.1);
    if KeyMatches(key, route) {
      var start := key[..|key| - |route| - 1];
      assert key == start + ['|'] + route;
      SplitOnce(r.0, r.1, start, route, '|');
    }
    if r.1 == route && r.0 != "" {
      assert key[|r.0|..] == "|" + route;
    }
  }

  /**
    A reference to a route by its name alone finds a route of a named service, and that one if the
    names are distinct. It is lost if the route belongs to no service, or to one without a name.
   */
  lemma RouteRefExact(uuid: string -> string, routes: seq<(string, string)>, route: string, id: string)
    requires MakesIDs(uuid) && (forall r :: r in routes ==> '|' !in r.1) && '|' !in route
    requires IsRouteRef(RouteIDs(uuid, routes), Some(route), id)
    ensures id != "" <==> exists r :: r in routes && r.1 == route && r.0 != ""
    ensures id != "" ==> exists r :: r in routes && r.1 == route && r.0 != "" && id == RouteID(uuid, r.0, r.1)
  {
    var ids := RouteIDs(uuid, routes);
    PlainKeysApart(routes);
    RouteIDsMean(uuid, routes);
    if key :| key in ids && KeyMatches(key, route) && ids[key] == id {
      var r := RouteOfKey(uuid, routes, key);
      KeyMatchesExact(r, route);
    } else if r :| r in routes && r.1 == route && r.0 != "" {
      KeyMatchesExact(r, route);
      assert false;
    }
  }

  /** The IDs of the route rows: those of the service routes, then those of the routes without a service. */
  ghost predicate RouteRowIDs(uuid: string -> string, all: seq<(string, string)>, rows: seq<RouteRow>) {
    |rows| == |all| && forall k :: 0 <= k < |rows| ==> rows[k].id == RouteID(uuid, all[k].0, all[k].1)
  }

  lemma RouteRowsHaveIDs(uuid: string -> string, ids: IDs, routes: seq<(string, string)>, tops: seq<Route>)
    requires KeysApart(routes) && ids.route == RouteIDs(uuid, routes)
    ensures RouteRowIDs(uuid, AllRoutes(routes, tops), ServiceRouteRows(ids, routes) + TopRouteRows(uuid, tops))
  {
    var all, rows := AllRoutes(routes, tops), ServiceRouteRows(ids, routes) + TopRouteRows(uuid, tops);
    forall k | 0 <= k < |rows| ensures rows[k].id == RouteID(uuid, all[k].0, all[k].1) {
      if k < |routes| {
        ServiceRouteAt(uuid, routes, k);
        assert rows[k] == ServiceRouteRows(ids, routes)[k] && all[k] == routes[k];
      } else {
        var top := tops[k - |routes|].name;
        TopRouteIsNameless(uuid, top);
        assert rows[k] == TopRouteRows(uuid, tops)[k - |routes|] && all[k] == ("", top);
      }
    }
  }

  lemma ServiceRouteAt(uuid: string -> string, routes: seq<(string, string)>, k: nat)
    requires k < |routes| && KeysApart(routes)
    ensures Lookup(RouteIDs(uuid, routes), RouteKey(routes[k].0, routes[k].1)) ==
            RouteID(uuid, routes[k].0, routes[k].1)
  {
    RouteIDsMean(uuid, routes);
    assert routes[k] in routes;
  }

  /** No two route rows have one ID. */
  lemma RouteRowOnce(uuid: string -> string, routes: seq<(string, string)>, tops: seq<Route>,
      rows: seq<RouteRow>, j: nat, k: nat)
    requires MakesIDs(uuid) && WellNamedRoutes(routes, tops) && RouteRowIDs(uuid, AllRoutes(routes, tops), rows)
    requires j < k < |rows|
    ensures rows[j].id != rows[k].id
  {
    var all := AllRoutes(routes, tops);
    if rows[j].id == rows[k].id {
      RouteIDOnce(uuid, all[j], all[k]);
    }
  }

  /** The ID of a route row refers to that row, if the service of the row is referred to by name. */
  lemma RouteRowRefers(uuid: string -> string, d: Document, out: Flat, k: nat, service: Option<string>)
    requires IsFlat(uuid, d, out) && WellNamed(uuid, d) && k < |out.routes|
    requires Refers(out.services, out.routes[k].service, service)
    ensures RefersToRoute(out, out.routes[k].id, Some(RouteName(service, out.routes[k].name)))
  {
    var routes, tops, rows := ServiceRoutes(d.services), d.routes, out.routes;
    RouteRowsHaveIDs(uuid, DocumentIDs(uuid, d), routes, tops);
    RouteRowUnique(uuid, routes, tops, rows, k);
  }

  lemma RouteRowUnique(uuid: string -> string, routes: seq<(string, string)>, tops: seq<Route>, rows: seq<RouteRow>,
      k: nat)
    requires MakesIDs(uuid) && WellNamedRoutes(routes, tops) && RouteRowIDs(uuid, AllRoutes(routes, tops), rows)
    requires k < |rows|
    ensures rows[k] in rows && rows[k].id != ""
    ensures forall row :: row in rows && row.id == rows[k].id ==> row == rows[k]
  {
    forall row | row in rows && row.id == rows[k].id ensures row == rows[k] {
      var j :| 0 <= j < |rows| && rows[j] == row;
      if j < k {
        RouteRowOnce(uuid, routes, tops, rows, j, k);
      } else if k < j {
        RouteRowOnce(uuid, routes, tops, rows, k, j);
      }
    }
  }

  /** The ID of a service route refers to the route and leads to its service. */
  lemma RefersToServiceRoute(uuid: string -> string, d: Document, out: Flat, r: (string, string))
    requires IsFlat(uuid, d, out) && WellNamed(uuid, d) && r in ServiceRoutes(d.services)
    ensures RefersToRoute(out, RouteID(uuid, r.0, r.1), Some(RouteName(Some(r.0), r.1)))
    ensures Lookup(DocumentIDs(uuid, d).route, RouteKey(r.0, r.1)) == RouteID(uuid, r.0, r.1)
  {
    var routes, ids := ServiceRoutes(d.services), DocumentIDs(uuid, d);
    RouteIDsMean(uuid, routes);
    ServiceOfRoute(d.services, r);
    LookupRefers(uuid, "service:", NamedServices(d.services), ids.service, Some(r.0));
    var i :| 0 <= i < |routes| && routes[i] == r;
    assert out.routes[i] == ServiceRouteRows(ids, routes)[i];
    RouteRowRefers(uuid, d, out, i, Some(r.0));
  }

  lemma {:induction false} ServiceOfRoute(services: seq<Service>, r: (string, string))
    requires r in ServiceRoutes(services)
    ensures Declares(NamedServices(services), Some(r.0))
  {
    var init, last := services[..|services| - 1], services[|services| - 1];
    if r in ServiceRoutes(init) {
      ServiceOfRoute(init, r);
      var i :| 0 <= i < |init| && NamedServices(init)[i].name == r.0;
      assert NamedServices(services)[i].name == r.0;
    } else {
      assert r in RoutesOf(last.name, last.routes);
      assert NamedServices(services)[|services| - 1].name == r.0;
    }
  }

  lemma RefersToTopRoute(uuid: string -> string, d: Document, out: Flat, i: nat)
    requires IsFlat(uuid, d, out) && WellNamed(uuid, d) && i < |d.routes|
    ensures RefersToRoute(out, TopRouteID(uuid, d.routes[i].name), Some(RouteName(None, d.routes[i].name)))
  {
    var k := |ServiceRoutes(d.services)| + i;
    assert out.routes[k] == TopRouteRows(uuid, d.routes)[i];
    RouteRowRefers(uuid, d, out, k, None);
  }

  /** A route of a nameless service and a route without a service get one ID if they have one name. */
  lemma NamelessServiceCollides(uuid: string -> string, route: string)
    ensures RouteID(uuid, "", route) == TopRouteID(uuid, route)
  {
    TopRouteIsNameless(uuid, route);
  }

  /** A service without a name, with a route that a plugin of the document names. */
  const NAMELESS: Document := Document(
    [Service("", "", [Route("chat", [])], [])], [], [], [], [],
    [Plugin("", "cors", "", None, Some("chat"), None, None, None)])

  /** The route has a row, but the plugin comes out with no scope at all: it applies everywhere. */
  lemma PluginLosesItsRoute(uuid: string -> string, out: Flat)
    requires IsFlat(uuid, NAMELESS, out) && MakesIDs(uuid)
    ensures |out.routes| == 1 && out.routes[0].name == "chat"
    ensures |out.plugins| == 1 && out.plugins[0].scope == Scope("", "", "", "", "")
  {
    var routes := ServiceRoutes(NAMELESS.services);
    NamelessRoutes();
    NamelessEntries();
    assert IsFlattened(uuid, DocumentIDs(uuid, NAMELESS), DocumentEntries(NAMELESS)[0], out.plugins[0]);
    assert '|' !in "chat";
    RouteRefExact(uuid, routes, "chat", out.plugins[0].scope.route);
  }

  lemma NamelessRoutes()
    ensures ServiceRoutes(NAMELESS.services) == [("", "chat")]
  {
    var services := NAMELESS.services;
    assert services[..0] == [] && ServiceRoutes([]) == [];
  }

  lemma NamelessEntries()
    ensures DocumentEntries(NAMELESS) == [Entry(TopLevel, NAMELESS.plugins[0], 0)]
  {
    var services := NAMELESS.services;
    assert services[..0] == [] && services[0].routes[..0] == [];
    assert RouteEntries("", []) == [] && RouteEntries("", services[0].routes) == [];
    assert ServiceEntries([]) == [] && ServiceEntries(services) == [];
  }

  // The scope of a plugin

  lemma ServiceRefers(uuid: string -> string, d: Document, out: Flat, name: Option<string>)
    requires IsFlat(uuid, d, out) && WellNamed(uuid, d) && Declares(NamedServices(d.services), name)
    ensures Refers(out.services, LookupRef(DocumentIDs(uuid, d).service, name), name)
  {
    LookupRefers(uuid, "service:", NamedServices(d.services), DocumentIDs(uuid, d).service, name);
  }

  lemma ConsumerRefers(uuid: string -> string, d: Document, out: Flat, name: Option<string>)
    requires IsFlat(uuid, d, out) && WellNamed(uuid, d) && Declares(NamedConsumers(d.consumers), name)
    ensures Refers(out.consumers, LookupRef(DocumentIDs(uuid, d).consumer, name), name)
  {
    LookupRefers(uuid, "consumer:", NamedConsumers(d.consumers), DocumentIDs(uuid, d).consumer, name);
  }

  lemma ModelRefers(uuid: string -> string, d: Document, out: Flat, name: Option<string>)
    requires IsFlat(uuid, d, out) && WellNamed(uuid, d) && Declares(NamedModels(d.models), name)
    ensures Refers(out.models, LookupRef(DocumentIDs(uuid, d).model, name), name)
  {
    LookupRefers(uuid, "ai_model:", NamedModels(d.models), DocumentIDs(uuid, d).model, name);
  }

  lemma GroupRefers(uuid: string -> string, d: Document, out: Flat, name: Option<string>)
    requires IsFlat(uuid, d, out) && WellNamed(uuid, d) && Declares(NamedGroups(d.groups), name)
    ensures Refers(out.groups, LookupRef(DocumentIDs(uuid, d).group, name), name)
  {
    var declared := NamedIDs(uuid, "consumer_group:", NamedGroups(d.groups));
    MembershipsKeep(uuid, declared, [], Memberships(d.consumers));
    assert [] + Memberships(d.consumers) == Memberships(d.consumers);
    LookupRefers(uuid, "consumer_group:", NamedGroups(d.groups), DocumentIDs(uuid, d).group, name);
  }

  /** The scope refers to the target, entity by entity. */
  ghost predicate ScopeRefers(out: Flat, scope: Scope, t: Target) {
    Refers(out.services, scope.service, t.service) && RefersToRoute(out, scope.route, t.route) &&
    Refers(out.consumers, scope.consumer, t.consumer) && Refers(out.groups, scope.group, t.group) &&
        Refers(out.models, scope.model, t.model)
  }

  /** The entity around a nested plugin is in the document. */
  ghost predicate Nested(d: Document, nest: Nest) {
    match nest
    case InServiceRoute(service, route) => (service, route) in ServiceRoutes(d.services)
    case InService(name) => Declares(NamedServices(d.services), Some(name))
    case InRoute(name) => exists i :: 0 <= i < |d.routes| && d.routes[i].name == name
    case InConsumer(name) => Declares(NamedConsumers(d.consumers), Some(name))
    case InGroup(name) => Declares(NamedGroups(d.groups), Some(name))
    case TopLevel => false
  }

  lemma NestedScope(uuid: string -> string, d: Document, out: Flat, e: Entry, scope: Scope, t: Target)
    requires IsFlat(uuid, d, out) && WellNamed(uuid, d) && Nested(d, e.nest)
    requires IsScope(uuid, DocumentIDs(uuid, d), e, scope) && IsTarget(d, e, t)
    ensures ScopeRefers(out, scope, t)
  {
    match e.nest
    case InServiceRoute(service, route) => RefersToServiceRoute(uuid, d, out, (service, route));
    case InService(name) => ServiceRefers(uuid, d, out, Some(name));
    case InRoute(name) =>
      var i :| 0 <= i < |d.routes| && d.routes[i].name == name;
      RefersToTopRoute(uuid, d, out, i);
    case InConsumer(name) => ConsumerRefers(uuid, d, out, Some(name));
    case InGroup(name) => GroupRefers(uuid, d, out, Some(name));
  }

  /** A name that leads to a route is looked up to the ID of that route. */
  lemma RouteRefRefers(uuid: string -> string, d: Document, out: Flat, route: Option<string>, id: string,
      t: Option<RouteName>)
    requires IsFlat(uuid, d, out) && WellNamed(uuid, d) && IsRouteRef(DocumentIDs(uuid, d).route, route, id)
    requires if route.None? then t.None?
             else
               t.Some? && t.value.service.Some? && t.value.name == route.value &&
               IsNamedRoute(ServiceRoutes(d.services), (t.value.service.value, route.value))
    requires route.Some? ==> NamesRoute(ServiceRoutes(d.services), route.value)
    ensures RefersToRoute(out, id, t)
  {
    if route.Some? {
      var routes, r := ServiceRoutes(d.services), (t.value.service.value, route.value);
      NamedRouteFound(uuid, routes, r, id);
      RefersToServiceRoute(uuid, d, out, r);
    }
  }

  /** Without separators in the names, a name leads to a route exactly if one named service has one such route. */
  lemma PlainNameLeads(routes: seq<(string, string)>, name: string)
    requires (forall r :: r in routes ==> '|' !in r.1) && '|' !in name
    ensures NamesRoute(routes, name) <==>
            exists r :: IsNamedRoute(routes, r) && r.1 == name &&
              forall q :: IsNamedRoute(routes, q) && q.1 == name ==> q == r
  {
    forall q | q in routes ensures KeyMatches(RouteKey(q.0, q.1), name) <==> IsNamedRoute(routes, q) && q.1 == name {
      KeyMatchesExact(q, name);
    }
  }

  /** If the keys of all other routes end differently, a name leads to the route that has it. */
  lemma NamedRouteFound(uuid: string -> string, routes: seq<(string, string)>, r: (string, string), id: string)
    requires KeysApart(routes) && IsNamedRoute(routes, r) && NamesRoute(routes, r.1)
    requires IsRouteRef(RouteIDs(uuid, routes), Some(r.1), id)
    ensures id == RouteID(uuid, r.0, r.1)
  {
    var ids := RouteIDs(uuid, routes);
    RouteIDsMean(uuid, routes);
    assert RouteKey(r.0, r.1)[|r.0|..] == "|" + r.1;
    assert KeyMatches(RouteKey(r.0, r.1), r.1);
    var key :| key in ids && KeyMatches(key, r.1) && ids[key] == id;
    var q := RouteOfKey(uuid, routes, key);
    assert q == r;
  }

  lemma TopLevelScope(uuid: string -> string, d: Document, out: Flat, e: Entry, scope: Scope, t: Target)
    requires IsFlat(uuid, d, out) && WellNamed(uuid, d) && Closed(d) && e.nest.TopLevel? && e.plugin in d.plugins
    requires IsScope(uuid, DocumentIDs(uuid, d), e, scope) && IsTarget(d, e, t)
    ensures ScopeRefers(out, scope, t)
  {
    ServiceRefers(uuid, d, out, e.plugin.service);
    RouteRefRefers(uuid, d, out, e.plugin.route, scope.route, t.route);
    ConsumerRefers(uuid, d, out, e.plugin.consumer);
    GroupRefers(uuid, d, out, e.plugin.group);
    ModelRefers(uuid, d, out, e.plugin.model);
  }

  lemma {:induction false} RouteEntriesNested(service: string, routes: seq<Route>)
    ensures forall e :: e in RouteEntries(service, routes) ==>
              e.nest.InServiceRoute? && e.nest.service == service &&
                  (service, e.nest.route) in RoutesOf(service, routes)
  {
    if routes != [] {
      var init, last := routes[..|routes| - 1], routes[|routes| - 1];
      RouteEntriesNested(service, init);
      assert RoutesOf(service, routes) == RoutesOf(service, init) + [(service, last.name)];
    }
  }

  lemma {:induction false} ServiceEntriesNested(services: seq<Service>)
    ensures forall e :: e in ServiceEntries(services) ==>
              if e.nest.InServiceRoute? then (e.nest.service, e.nest.route) in ServiceRoutes(services)
              else e.nest.InService? && Declares(NamedServices(services), Some(e.nest.name))
  {
    if services != [] {
      var init, last := services[..|services| - 1], services[|services| - 1];
      ServiceEntriesNested(init);
      RouteEntriesNested(last.name, last.routes);
      assert NamedServices(services) == NamedServices(init) + [Named(last.name, last.id)];
      assert NamedServices(services)[|services| - 1].name == last.name;
      forall e | e in ServiceEntries(init) && e.nest.InService?
        ensures Declares(NamedServices(services), Some(e.nest.name))
      {
        var i :| 0 <= i < |init| && NamedServices(init)[i].name == e.nest.name;
        assert NamedServices(services)[i].name == e.nest.name;
      }
    }
  }

  lemma {:induction false} TopRouteEntriesNested(routes: seq<Route>)
    ensures forall e :: e in TopRouteEntries(routes) ==>
            e.nest.InRoute? && exists i :: 0 <= i < |routes| && routes[i].name == e.nest.name
  {
    if routes != [] {
      var init, last := routes[..|routes| - 1], routes[|routes| - 1];
      TopRouteEntriesNested(init);
      forall e | e in TopRouteEntries(routes)
        ensures e.nest.InRoute? && exists i :: 0 <= i < |routes| && routes[i].name == e.nest.name
      {
        if e in TopRouteEntries(init) {
          var i :| 0 <= i < |init| && init[i].name == e.nest.name;
          assert routes[i].name == e.nest.name;
        } else {
          assert routes[|routes| - 1].name == e.nest.name;
        }
      }
    }
  }

  lemma {:induction false} ConsumerEntriesNested(consumers: seq<Consumer>)
    ensures forall e :: e in ConsumerEntries(consumers) ==>
            e.nest.InConsumer? && Declares(NamedConsumers(consumers), Some(e.nest.name))
  {
    if consumers != [] {
      var init, last := consumers[..|consumers| - 1], consumers[|consumers| - 1];
      ConsumerEntriesNested(init);
      forall e | e in ConsumerEntries(consumers)
        ensures e.nest.InConsumer? && Declares(NamedConsumers(consumers), Some(e.nest.name))
      {
        if e in ConsumerEntries(init) {
          var i :| 0 <= i < |init| && NamedConsumers(init)[i].name == e.nest.name;
          assert NamedConsumers(consumers)[i].name == e.nest.name;
        } else {
          assert NamedConsumers(consumers)[|consumers| - 1].name == e.nest.name;
        }
      }
    }
  }

  lemma {:induction false} GroupEntriesNested(groups: seq<Group>)
    ensures forall e :: e in GroupEntries(groups) ==>
            e.nest.InGroup? && Declares(NamedGroups(groups), Some(e.nest.name))
  {
    if groups != [] {
      var init, last := groups[..|groups| - 1], groups[|groups| - 1];
      GroupEntriesNested(init);
      forall e | e in GroupEntries(groups) ensures e.nest.InGroup? && Declares(NamedGroups(groups), Some(e.nest.name)) {
        if e in GroupEntries(init) {
          var i :| 0 <= i < |init| && NamedGroups(init)[i].name == e.nest.name;
          assert NamedGroups(groups)[i].name == e.nest.name;
        } else {
          assert NamedGroups(groups)[|groups| - 1].name == e.nest.name;
        }
      }
    }
  }

  /** Every plugin stands in an entity of the document, or in the document itself. */
  lemma EntriesNested(d: Document, e: Entry)
    requires e in DocumentEntries(d)
    ensures if e.nest.TopLevel? then e.plugin in d.plugins else Nested(d, e.nest)
  {
    ServiceEntriesNested(d.services);
    TopRouteEntriesNested(d.routes);
    ConsumerEntriesNested(d.consumers);
    GroupEntriesNested(d.groups);
  }

  /**
    Flattening keeps every plugin and its meaning: in order, each plugin keeps its name and content,
    and its scope refers to exactly the entities that it was nested under or named.
   */
  lemma ScopesPreserved(uuid: string -> string, d: Document, out: Flat, i: nat, t: Target)
    requires IsFlat(uuid, d, out) && WellNamed(uuid, d) && Closed(d)
    requires i < |DocumentEntries(d)| && IsTarget(d, DocumentEntries(d)[i], t)
    ensures |out.plugins| == |DocumentEntries(d)|
    ensures out.plugins[i].name == DocumentEntries(d)[i].plugin.name &&
            out.plugins[i].body == DocumentEntries(d)[i].plugin.body
    ensures ScopeRefers(out, out.plugins[i].scope, t)
  {
    var e := DocumentEntries(d)[i];
    EntriesNested(d, e);
    assert IsFlattened(uuid, DocumentIDs(uuid, d), e, out.plugins[i]);
    if e.nest.TopLevel? {
      TopLevelScope(uuid, d, out, e, out.plugins[i].scope, t);
    } else {
      NestedScope(uuid, d, out, e, out.plugins[i].scope, t);
    }
  }

  // Group members

  /** Which groups have an ID in the end: the declared ones, and those that only consumers name. */
  lemma {:induction false} MembershipIDs(uuid: string -> string, ids: IDMap, groups: seq<string>, g: string)
    ensures g in WithMemberships(uuid, ids, groups) <==> g in ids || g in groups
    ensures g in WithMemberships(uuid, ids, groups) ==>
              WithMemberships(uuid, ids, groups)[g] == if g in ids then ids[g] else uuid("consumer_group:" + g)
  {
    if groups != [] {
      var init, last := groups[..|groups| - 1], groups[|groups| - 1];
      assert g in groups <==> g in init || g == last;
      MembershipIDs(uuid, ids, init, g);
    }
  }

  lemma {:induction false} InMemberships(consumers: seq<Consumer>, c: Consumer, g: string)
    requires c in consumers && g in c.groups
    ensures g in Memberships(consumers)
  {
    var init, last := consumers[..|consumers| - 1], consumers[|consumers| - 1];
    assert consumers == init + [last];
    if c in init {
      InMemberships(init, c, g);
    }
  }

  /** A membership names the rows of the consumer and the group, if the group is declared. */
  lemma MembersRefer(uuid: string -> string, d: Document, out: Flat, c: Consumer, g: string)
    requires IsFlat(uuid, d, out) && WellNamed(uuid, d) && c in d.consumers && g in c.groups
    requires Declares(NamedGroups(d.groups), Some(g))
    ensures exists pair :: pair in out.members &&
              Refers(out.consumers, pair.0, Some(c.username)) && Refers(out.groups, pair.1, Some(g))
  {
    var ids := DocumentIDs(uuid, d);
    var i :| 0 <= i < |d.consumers| && d.consumers[i] == c;
    assert NamedConsumers(d.consumers)[i].name == c.username;
    ConsumerRefers(uuid, d, out, Some(c.username));
    GroupRefers(uuid, d, out, Some(g));
    assert IsMember(ids, d.consumers, (Lookup(ids.consumer, c.username), Lookup(ids.group, g)));
  }

  /** A membership of a group that is not declared names no row, unless some group was given that very ID. */
  lemma UndeclaredGroupDangles(uuid: string -> string, d: Document, out: Flat, c: Consumer, g: string)
    requires IsFlat(uuid, d, out) && WellNamed(uuid, d) && c in d.consumers && g in c.groups
    requires !Declares(NamedGroups(d.groups), Some(g))
    ensures (Lookup(DocumentIDs(uuid, d).consumer, c.username), uuid("consumer_group:" + g)) in out.members
    ensures (exists row :: row in out.groups && row.id == uuid("consumer_group:" + g)) <==>
            exists i :: 0 <= i < |d.groups| && NamedGroups(d.groups)[i].id == uuid("consumer_group:" + g)
  {
    var ids := DocumentIDs(uuid, d);
    InMemberships(d.consumers, c, g);
    MembershipIDs(uuid, NamedIDs(uuid, "consumer_group:", NamedGroups(d.groups)), Memberships(d.consumers), g);
    assert IsMember(ids, d.consumers, (Lookup(ids.consumer, c.username), Lookup(ids.group, g)));
    GroupRowsExact(uuid, d);
    GeneratedRow(uuid, NamedGroups(d.groups), out.groups, g);
  }

  lemma GroupRowsExact(uuid: string -> string, d: Document)
    requires WellNamed(uuid, d)
    ensures var es, rows := NamedGroups(d.groups), Rows(DocumentIDs(uuid, d).group, NamedGroups(d.groups));
            forall j :: 0 <= j < |es| ==> rows[j] == Row(IDOf(uuid, "consumer_group:", es[j]), es[j].name)
  {
    var ids, es := DocumentIDs(uuid, d), NamedGroups(d.groups);
    var declared := NamedIDs(uuid, "consumer_group:", es);
    forall n | n in declared ensures n in ids.group && ids.group[n] == declared[n] {
      MembershipIDs(uuid, declared, Memberships(d.consumers), n);
    }
    RowsExact(uuid, "consumer_group:", es, ids.group);
  }

  lemma PrefixOnce(prefix: string, a: string, b: string)
    ensures prefix + a == prefix + b ==> a == b
  {
    assert (prefix + a)[|prefix|..] == a && (prefix + b)[|prefix|..] == b;
  }

  /** A row has the ID made from a name that no entity has exactly if some entity was given that ID. */
  lemma GeneratedRow(uuid: string -> string, es: seq<Named>, rows: seq<Row>, g: string)
    requires MakesIDs(uuid) && !Declares(es, Some(g)) && |rows| == |es|
    requires forall j :: 0 <= j < |es| ==> rows[j] == Row(IDOf(uuid, "consumer_group:", es[j]), es[j].name)
    ensures (exists row :: row in rows && row.id == uuid("consumer_group:" + g)) <==>
            exists i :: 0 <= i < |es| && es[i].id == uuid("consumer_group:" + g)
  {
    forall i | 0 <= i < |es|
      ensures rows[i].id == uuid("consumer_group:" + g) <==> es[i].id == uuid("consumer_group:" + g)
    {
      PrefixOnce("consumer_group:", es[i].name, g);
      assert es[i].name != g;
    }
    if i :| 0 <= i < |es| && es[i].id == uuid("consumer_group:" + g) {
      assert rows[i] in rows;
    }
  }
}
