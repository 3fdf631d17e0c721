/**
  What a flattened document holds, in terms of the document alone (internal/kong/to_dbless.go).

  A slot is the place of a plugin in the lists of the document. Every slot has one flat plugin, the
  flat plugins stand in the order of their slots, and each is scoped by the ID of the row of the
  entity that it was nested under.
 */
module FlatDocument {
  import opened Sequences
  import opened DBLess
  import UniqueNames

  // ---------------------------------------------------------------------------------------------
  // Places in a document
  // ---------------------------------------------------------------------------------------------

  const SERVICES := 0
  const ROUTES := 1
  const CONSUMERS := 2
  const GROUPS := 3
  const TOP := 4

  /** A plugin by its section, the entity, the route of a service or else the number of its routes, and its position. */
  datatype Slot = Slot(section: nat, entity: nat, route: nat, position: nat)

  /** The list of plugins that a slot is in, if there is one. */
  function ListOf(d: Document, x: Slot): Option<seq<Plugin>> {
    if x.section == SERVICES && x.entity < |d.services| && x.route < |d.services[x.entity].routes| then
      Some(d.services[x.entity].routes[x.route].plugins)
    else if x.section == SERVICES && x.entity < |d.services| && x.route == |d.services[x.entity].routes| then
      Some(d.services[x.entity].plugins)
    else if x.section == ROUTES && x.entity < |d.routes| && x.route == 0 then Some(d.routes[x.entity].plugins)
    else if x.section == CONSUMERS && x.entity < |d.consumers| && x.route == 0 then Some(d.consumers[x.entity].plugins)
    else if x.section == GROUPS && x.entity < |d.groups| && x.route == 0 then Some(d.groups[x.entity].plugins)
    else if x.section == TOP && x.entity == 0 && x.route == 0 then Some(d.plugins)
    else None
  }

  predicate IsSlot(d: Document, x: Slot) {
    ListOf(d, x).Some? && x.position < |ListOf(d, x).value|
  }

  function PluginAt(d: Document, x: Slot): Plugin
    requires IsSlot(d, x)
  {
    ListOf(d, x).value[x.position]
  }

  /** Slots in document order. */
  predicate Earlier(x: Slot, y: Slot) {
    x.section < y.section || (x.section == y.section &&
    (x.entity < y.entity || (x.entity == y.entity &&
    (x.route < y.route || (x.route == y.route && x.position < y.position)))))
  }

  ghost predicate InOrder(slots: seq<Slot>) {
    forall i, j :: 0 <= i < j < |slots| ==> Earlier(slots[i], slots[j])
  }

  /** The slots are all those of the document, in order. */
  ghost predicate AreSlots(d: Document, slots: seq<Slot>) {
    InOrder(slots) && forall x :: x in slots <==> IsSlot(d, x)
  }

  // ---------------------------------------------------------------------------------------------
  // What becomes of the plugins
  // ---------------------------------------------------------------------------------------------

  /** What the ID of a plugin is made from, if it has none. */
  function KeyAt(d: Document, x: Slot): string
    requires IsSlot(d, x)
  {
    var owner :=
      if x.section == SERVICES && x.route < |d.services[x.entity].routes| then
        "route:" + d.services[x.entity].routes[x.route].name
      else if x.section == SERVICES then "service:" + d.services[x.entity].name
      else if x.section == ROUTES then "route:" + d.routes[x.entity].name
      else if x.section == CONSUMERS then "consumer:" + d.consumers[x.entity].username
      else if x.section == GROUPS then "consumer_group:" + d.groups[x.entity].name
      else "top";
    "plugin:" + owner + ":" + PluginAt(d, x).name + ":" + UniqueNames.Decimal(x.position)
  }

  /** A route by its service, or by the number of services if it has none, and its position there. */
  datatype RouteSlot = RouteSlot(service: nat, position: nat)

  predicate IsRouteSlot(d: Document, r: RouteSlot) {
    if r.service < |d.services| then r.position < |d.services[r.service].routes|
    else r.service == |d.services| && r.position < |d.routes|
  }

  function RouteAt(d: Document, r: RouteSlot): Route
    requires IsRouteSlot(d, r)
  {
    if r.service < |d.services| then d.services[r.service].routes[r.position] else d.routes[r.position]
  }

  /** The route slots are all those of the document, in order. */
  ghost predicate AreRouteSlots(d: Document, rs: seq<RouteSlot>) {
    (forall i, j :: 0 <= i < j < |rs| ==>
       rs[i].service < rs[j].service || (rs[i].service == rs[j].service && rs[i].position < rs[j].position)) &&
    forall r :: r in rs <==> IsRouteSlot(d, r)
  }

  /** id is that of the row of the name; there is no other, and without a row it is empty. */
  ghost predicate RowID(rows: seq<Row>, name: Option<string>, id: string) {
    if name.None? then id == ""
    else
      (forall row :: row in rows && row.name == name.value ==> row.id == id) &&
      ((forall row :: row in rows ==> row.name != name.value) ==> id == "")
  }

  /** A group that only consumers name has an ID, too. */
  ghost predicate GroupID(uuid: string -> string, d: Document, out: Flat, name: Option<string>, id: string) {
    if name.None? then id == ""
    else
      (forall row :: row in out.groups && row.name == name.value ==> row.id == id) &&
      ((forall row :: row in out.groups ==> row.name != name.value) ==>
         id == if exists c :: c in d.consumers && name.value in c.groups then uuid("consumer_group:" + name.value)
               else "")
  }

  /** A route of a service that a plugin of the document may mean by this name. */
  ghost predicate Meant(d: Document, r: RouteSlot, name: string) {
    IsRouteSlot(d, r) && r.service < |d.services| &&
    var key := d.services[r.service].name + "|" + RouteAt(d, r).name;
    |key| > |name| + 1 && HasSuffix(key, "|" + name)
  }

  /** id is that of the row of some route that is meant; if there is none, it is empty. */
  ghost predicate RouteIDFor(d: Document, out: Flat, rs: seq<RouteSlot>, name: Option<string>, id: string)
    requires |rs| == |out.routes|
  {
    if name.Some? && exists k :: 0 <= k < |rs| && Meant(d, rs[k], name.value)
    then exists k :: 0 <= k < |rs| && Meant(d, rs[k], name.value) && out.routes[k].id == id
    else id == ""
  }

  /** The scope is the row of the entity around the plugin, or the rows that a plugin of the document names. */
  ghost predicate ScopeAt(uuid: string -> string, d: Document, out: Flat, rs: seq<RouteSlot>, x: Slot, scope: Scope)
    requires IsSlot(d, x) && |rs| == |out.routes| && |out.services| == |d.services|
    requires |out.consumers| == |d.consumers| && |out.groups| == |d.groups|
  {
    if x.section == SERVICES && x.route < |d.services[x.entity].routes| then
      forall k :: 0 <= k < |rs| && rs[k] == RouteSlot(x.entity, x.route) ==>
        scope == Scope("", out.routes[k].id, "", "", "")
    else if x.section == SERVICES then scope == Scope(out.services[x.entity].id, "", "", "", "")
    else if x.section == ROUTES then
      forall k :: 0 <= k < |rs| && rs[k] == RouteSlot(|d.services|, x.entity) ==>
        scope == Scope("", out.routes[k].id, "", "", "")
    else if x.section == CONSUMERS then scope == Scope("", "", out.consumers[x.entity].id, "", "")
    else if x.section == GROUPS then scope == Scope("", "", "", out.groups[x.entity].id, "")
    else
      var p := PluginAt(d, x);
      RowID(out.services, p.service, scope.service) && RouteIDFor(d, out, rs, p.route, scope.route) &&
      RowID(out.consumers, p.consumer, scope.consumer) && GroupID(uuid, d, out, p.group, scope.group) &&
      RowID(out.models, p.model, scope.model)
  }

  // ---------------------------------------------------------------------------------------------
  // What becomes of the other entities
  // ---------------------------------------------------------------------------------------------

  /** Entity j is the last one of its name. */
  ghost predicate LastOf(es: seq<(string, string)>, j: nat) {
    j < |es| && forall k :: j < k < |es| ==> es[k].0 != es[j].0
  }

  /** One row for each entity, with its name, and the ID given to the last entity of that name or made from it. */
  ghost predicate KindRows(uuid: string -> string, prefix: string, es: seq<(string, string)>, rows: seq<Row>) {
    |rows| == |es| &&
    forall i, j :: 0 <= i < |es| && 0 <= j < |es| && es[i].0 == es[j].0 && LastOf(es, j) ==>
      rows[i] == Row(if es[j].1 != "" then es[j].1 else uuid(prefix + es[j].0), es[i].0)
  }

  /** One row for each route, with its name and the ID of its service. */
  ghost predicate RoutesFlat(uuid: string -> string, d: Document, out: Flat, rs: seq<RouteSlot>)
    requires |out.services| == |d.services|
  {
    |out.routes| == |rs| && AreRouteSlots(d, rs) &&
    forall k :: 0 <= k < |rs| ==>
      out.routes[k].name == RouteAt(d, rs[k]).name &&
      if rs[k].service == |d.services| then
        out.routes[k].id == uuid("route::" + RouteAt(d, rs[k]).name) && out.routes[k].service == ""
      else
        out.routes[k].service == out.services[rs[k].service].id && RouteIDAt(uuid, d, rs[k], out.routes[k].id)
  }

  /** The ID is made from the names of a route and its service, of those whose names join to one key. */
  ghost predicate RouteIDAt(uuid: string -> string, d: Document, r: RouteSlot, id: string)
    requires IsRouteSlot(d, r) && r.service < |d.services|
  {
    exists q :: IsRouteSlot(d, q) && q.service < |d.services| &&
      d.services[q.service].name + "|" + RouteAt(d, q).name == d.services[r.service].name + "|" + RouteAt(d, r).name &&
      id == uuid("route:" + d.services[q.service].name + ":" + RouteAt(d, q).name)
  }

  ghost predicate MembersFlat(uuid: string -> string, d: Document, out: Flat)
    requires |out.consumers| == |d.consumers|
  {
    NoDup(out.members) &&
    (forall pair :: pair in out.members ==>
       exists c: nat, g :: c < |d.consumers| && g in d.consumers[c].groups && Joins(uuid, d, out, c, g, pair)) &&
    forall c: nat, g :: c < |d.consumers| && g in d.consumers[c].groups ==>
      exists pair :: pair in out.members && Joins(uuid, d, out, c, g, pair)
  }

  /** The pair is that of a consumer and a group. */
  ghost predicate Joins(uuid: string -> string, d: Document, out: Flat, c: nat, g: string, pair: (string, string)) {
    c < |out.consumers| && pair.0 == out.consumers[c].id && GroupID(uuid, d, out, Some(g), pair.1)
  }

  ghost predicate RowsFlat(uuid: string -> string, d: Document, out: Flat) {
    KindRows(uuid, "service:", seq(|d.services|, i requires 0 <= i < |d.services| =>
      (d.services[i].name, d.services[i].id)), out.services) &&
    KindRows(uuid, "consumer:", seq(|d.consumers|, i requires 0 <= i < |d.consumers| =>
      (d.consumers[i].username, d.consumers[i].id)), out.consumers) &&
    KindRows(uuid, "consumer_group:", seq(|d.groups|, i requires 0 <= i < |d.groups| =>
      (d.groups[i].name, d.groups[i].id)), out.groups) &&
    KindRows(uuid, "ai_model:", seq(|d.models|, i requires 0 <= i < |d.models| =>
      (d.models[i].name, d.models[i].id)), out.models)
  }

  /** q is the flat plugin of the slot: its name, body, ID and scope. */
  ghost predicate PluginFlat(uuid: string -> string, d: Document, out: Flat, rs: seq<RouteSlot>, x: Slot, q: FlatPlugin)
    requires |rs| == |out.routes| && |out.services| == |d.services|
    requires |out.consumers| == |d.consumers| && |out.groups| == |d.groups|
  {
    IsSlot(d, x) &&
    var p := PluginAt(d, x);
    q.name == p.name && q.body == p.body && q.id == (if p.id != "" then p.id else uuid(KeyAt(d, x))) &&
    ScopeAt(uuid, d, out, rs, x, q.scope)
  }

  /** Each slot has its flat plugin, in order. */
  ghost predicate PluginsFlat(uuid: string -> string, d: Document, out: Flat, rs: seq<RouteSlot>, slots: seq<Slot>)
    requires |rs| == |out.routes| && |out.services| == |d.services|
    requires |out.consumers| == |d.consumers| && |out.groups| == |d.groups|
  {
    |slots| == |out.plugins| && AreSlots(d, slots) &&
    forall i :: 0 <= i < |slots| ==> PluginFlat(uuid, d, out, rs, slots[i], out.plugins[i])
  }

  // ---------------------------------------------------------------------------------------------
  // The slots, in the order in which plugins are flattened
  // ---------------------------------------------------------------------------------------------

  function Positions(section: nat, entity: nat, route: nat, n: nat): (slots: seq<Slot>)
    ensures |slots| == n
  {
    seq(n, i requires 0 <= i < n => Slot(section, entity, route, i))
  }

  /** The slots of the first n routes of a service. */
  function SlotsOfRoutes(d: Document, entity: nat, n: nat): seq<Slot>
    requires entity < |d.services| && n <= |d.services[entity].routes|
  {
    if n == 0 then []
    else
      SlotsOfRoutes(d, entity, n - 1) +
      Positions(SERVICES, entity, n - 1, |d.services[entity].routes[n - 1].plugins|)
  }

  function SlotsOfService(d: Document, entity: nat): seq<Slot>
    requires entity < |d.services|
  {
    var routes := d.services[entity].routes;
    SlotsOfRoutes(d, entity, |routes|) + Positions(SERVICES, entity, |routes|, |d.services[entity].plugins|)
  }

  /** The number of entities in a section. */
  function Size(d: Document, section: nat): nat {
    if section == SERVICES then |d.services|
    else if section == ROUTES then |d.routes|
    else if section == CONSUMERS then |d.consumers|
    else if section == GROUPS then |d.groups|
    else 0
  }

  function SlotsOfEntity(d: Document, section: nat, entity: nat): seq<Slot>
    requires entity < Size(d, section)
  {
    if section == SERVICES then SlotsOfService(d, entity)
    else if section == ROUTES then Positions(section, entity, 0, |d.routes[entity].plugins|)
    else if section == CONSUMERS then Positions(section, entity, 0, |d.consumers[entity].plugins|)
    else Positions(section, entity, 0, |d.groups[entity].plugins|)
  }

  /** The slots of the first n entities of a section. */
  function SlotsOfSection(d: Document, section: nat, n: nat): seq<Slot>
    requires n <= Size(d, section)
  {
    if n == 0 then [] else SlotsOfSection(d, section, n - 1) + SlotsOfEntity(d, section, n - 1)
  }

  function SlotsOf(d: Document): seq<Slot> {
    SlotsOfSection(d, SERVICES, |d.services|) + SlotsOfSection(d, ROUTES, |d.routes|) +
    SlotsOfSection(d, CONSUMERS, |d.consumers|) + SlotsOfSection(d, GROUPS, |d.groups|) +
    Positions(TOP, 0, 0, |d.plugins|)
  }

  lemma JoinInOrder(a: seq<Slot>, b: seq<Slot>)
    requires InOrder(a) && InOrder(b) && forall x, y :: x in a && y in b ==> Earlier(x, y)
    ensures InOrder(a + b)
  {
    assert forall i :: 0 <= i < |a| ==> a[i] in a;
    assert forall i :: 0 <= i < |b| ==> b[i] in b;
  }

  lemma PositionsMean(section: nat, entity: nat, route: nat, n: nat)
    ensures InOrder(Positions(section, entity, route, n))
    ensures forall x :: x in Positions(section, entity, route, n) <==>
            x.section == section && x.entity == entity && x.route == route && x.position < n
  {
    var slots := Positions(section, entity, route, n);
    forall x: Slot | x.section == section && x.entity == entity && x.route == route && x.position < n
      ensures x in slots
    {
      assert slots[x.position] == x;
    }
  }

  lemma {:induction false} RouteSlotsMean(d: Document, entity: nat, n: nat)
    requires entity < |d.services| && n <= |d.services[entity].routes|
    ensures InOrder(SlotsOfRoutes(d, entity, n))
    ensures forall x :: x in SlotsOfRoutes(d, entity, n) <==>
            x.section == SERVICES && x.entity == entity && x.route < n && IsSlot(d, x)
  {
    if n > 0 {
      RouteSlotsMean(d, entity, n - 1);
      PositionsMean(SERVICES, entity, n - 1, |d.services[entity].routes[n - 1].plugins|);
      JoinInOrder(SlotsOfRoutes(d, entity, n - 1),
          Positions(SERVICES, entity, n - 1, |d.services[entity].routes[n - 1].plugins|));
    }
  }

  lemma ServiceSlotsMean(d: Document, entity: nat)
    requires entity < |d.services|
    ensures InOrder(SlotsOfService(d, entity))
    ensures forall x :: x in SlotsOfService(d, entity) <==> x.section == SERVICES && x.entity == entity && IsSlot(d, x)
  {
    var n := |d.services[entity].routes|;
    RouteSlotsMean(d, entity, n);
    PositionsMean(SERVICES, entity, n, |d.services[entity].plugins|);
    JoinInOrder(SlotsOfRoutes(d, entity, n), Positions(SERVICES, entity, n, |d.services[entity].plugins|));
  }

  lemma EntitySlotsMean(d: Document, section: nat, entity: nat)
    requires entity < Size(d, section)
    ensures InOrder(SlotsOfEntity(d, section, entity))
    ensures forall x :: x in SlotsOfEntity(d, section, entity) <==>
            x.section == section && x.entity == entity && IsSlot(d, x)
  {
    if section == SERVICES {
      ServiceSlotsMean(d, entity);
    } else if section == ROUTES {
      PositionsMean(section, entity, 0, |d.routes[entity].plugins|);
    } else if section == CONSUMERS {
      PositionsMean(section, entity, 0, |d.consumers[entity].plugins|);
    } else {
      PositionsMean(section, entity, 0, |d.groups[entity].plugins|);
    }
  }

  lemma {:induction false} SectionSlotsMean(d: Document, section: nat, n: nat)
    requires n <= Size(d, section)
    ensures InOrder(SlotsOfSection(d, section, n))
    ensures forall x :: x in SlotsOfSection(d, section, n) <==> x.section == section && x.entity < n && IsSlot(d, x)
  {
    if n > 0 {
      SectionSlotsMean(d, section, n - 1);
      EntitySlotsMean(d, section, n - 1);
      JoinInOrder(SlotsOfSection(d, section, n - 1), SlotsOfEntity(d, section, n - 1));
    }
  }

  /** Slots of the sections up to one, joined with those of the next. */
  lemma JoinSections(d: Document, before: seq<Slot>, section: nat, mine: seq<Slot>)
    requires InOrder(before) && forall x :: x in before <==> x.section < section && IsSlot(d, x)
    requires InOrder(mine) && forall x :: x in mine <==> x.section == section && IsSlot(d, x)
    ensures InOrder(before + mine) && forall x :: x in before + mine <==> x.section <= section && IsSlot(d, x)
  {
    JoinInOrder(before, mine);
  }

  lemma WholeSection(d: Document, section: nat)
    requires section < TOP
    ensures InOrder(SlotsOfSection(d, section, Size(d, section)))
    ensures forall x :: x in SlotsOfSection(d, section, Size(d, section)) <==> x.section == section && IsSlot(d, x)
  {
    SectionSlotsMean(d, section, Size(d, section));
  }

  lemma SlotsMean(d: Document)
    ensures AreSlots(d, SlotsOf(d))
  {
    var services, routes := SlotsOfSection(d, SERVICES, |d.services|), SlotsOfSection(d, ROUTES, |d.routes|);
    var consumers, groups := SlotsOfSection(d, CONSUMERS, |d.consumers|), SlotsOfSection(d, GROUPS, |d.groups|);
    WholeSection(d, SERVICES);
    WholeSection(d, ROUTES);
    WholeSection(d, CONSUMERS);
    WholeSection(d, GROUPS);
    PositionsMean(TOP, 0, 0, |d.plugins|);
    JoinSections(d, services, ROUTES, routes);
    JoinSections(d, services + routes, CONSUMERS, consumers);
    JoinSections(d, services + routes + consumers, GROUPS, groups);
    JoinSections(d, services + routes + consumers + groups, TOP, Positions(TOP, 0, 0, |d.plugins|));
  }

  // The entries stand at the slots

  function NestAt(d: Document, x: Slot): Nest
    requires IsSlot(d, x)
  {
    if x.section == SERVICES && x.route < |d.services[x.entity].routes| then
      InServiceRoute(d.services[x.entity].name, d.services[x.entity].routes[x.route].name)
    else if x.section == SERVICES then InService(d.services[x.entity].name)
    else if x.section == ROUTES then InRoute(d.routes[x.entity].name)
    else if x.section == CONSUMERS then InConsumer(d.consumers[x.entity].username)
    else if x.section == GROUPS then InGroup(d.groups[x.entity].name)
    else TopLevel
  }

  ghost predicate StandsAt(d: Document, x: Slot, e: Entry) {
    IsSlot(d, x) && e == Entry(NestAt(d, x), PluginAt(d, x), x.position)
  }

  ghost predicate Stand(d: Document, slots: seq<Slot>, es: seq<Entry>) {
    |slots| == |es| && forall i :: 0 <= i < |slots| ==> StandsAt(d, slots[i], es[i])
  }

  lemma StandTogether(d: Document, a: seq<Slot>, es: seq<Entry>, b: seq<Slot>, fs: seq<Entry>)
    requires Stand(d, a, es) && Stand(d, b, fs)
    ensures Stand(d, a + b, es + fs)
  {
  }

  lemma ListStands(d: Document, section: nat, entity: nat, route: nat, nest: Nest, plugins: seq<Plugin>)
    requires ListOf(d, Slot(section, entity, route, 0)) == Some(plugins)
    requires forall x :: IsSlot(d, x) && x.section == section && x.entity == entity && x.route == route ==>
               NestAt(d, x) == nest
    ensures Stand(d, Positions(section, entity, route, |plugins|), Entries(nest, plugins))
  {
    forall i | 0 <= i < |plugins|
      ensures StandsAt(d, Positions(section, entity, route, |plugins|)[i], Entries(nest, plugins)[i])
    {
      var x := Slot(section, entity, route, i);
      assert ListOf(d, x) == ListOf(d, Slot(section, entity, route, 0));
    }
  }

  lemma {:induction false} RoutesStand(d: Document, entity: nat, n: nat)
    requires entity < |d.services| && n <= |d.services[entity].routes|
    ensures Stand(d, SlotsOfRoutes(d, entity, n),
                  RouteEntries(d.services[entity].name, d.services[entity].routes[..n]))
  {
    var service := d.services[entity];
    if n > 0 {
      RoutesStand(d, entity, n - 1);
      var last := service.routes[n - 1];
      assert service.routes[..n][..n - 1] == service.routes[..n - 1];
      ListStands(d, SERVICES, entity, n - 1, InServiceRoute(service.name, last.name), last.plugins);
      StandTogether(d, SlotsOfRoutes(d, entity, n - 1), RouteEntries(service.name, service.routes[..n - 1]),
          Positions(SERVICES, entity, n - 1, |last.plugins|),
          Entries(InServiceRoute(service.name, last.name), last.plugins));
    }
  }

  lemma ServiceStands(d: Document, entity: nat)
    requires entity < |d.services|
    ensures var service := d.services[entity];
            Stand(d, SlotsOfService(d, entity),
                  RouteEntries(service.name, service.routes) + Entries(InService(service.name), service.plugins))
  {
    var service := d.services[entity];
    var n := |service.routes|;
    RoutesStand(d, entity, n);
    TakeAll(service.routes);
    ListStands(d, SERVICES, entity, n, InService(service.name), service.plugins);
    StandTogether(d, SlotsOfRoutes(d, entity, n), RouteEntries(service.name, service.routes),
        Positions(SERVICES, entity, n, |service.plugins|), Entries(InService(service.name), service.plugins));
  }

  lemma {:induction false} ServicesStand(d: Document, n: nat)
    requires n <= |d.services|
    ensures Stand(d, SlotsOfSection(d, SERVICES, n), ServiceEntries(d.services[..n]))
  {
    if n > 0 {
      var last := d.services[n - 1];
      ServicesStand(d, n - 1);
      assert d.services[..n][..n - 1] == d.services[..n - 1];
      ServiceStands(d, n - 1);
      var before, mine := ServiceEntries(d.services[..n - 1]),
        RouteEntries(last.name, last.routes) + Entries(InService(last.name), last.plugins);
      StandTogether(d, SlotsOfSection(d, SERVICES, n - 1), before, SlotsOfService(d, n - 1), mine);
      assert ServiceEntries(d.services[..n]) == before + mine;
    }
  }

  lemma {:induction false} TopRoutesStand(d: Document, n: nat)
    requires n <= |d.routes|
    ensures Stand(d, SlotsOfSection(d, ROUTES, n), TopRouteEntries(d.routes[..n]))
  {
    if n > 0 {
      var last := d.routes[n - 1];
      TopRoutesStand(d, n - 1);
      assert d.routes[..n][..n - 1] == d.routes[..n - 1];
      ListStands(d, ROUTES, n - 1, 0, InRoute(last.name), last.plugins);
    }
  }

  lemma {:induction false} ConsumersStand(d: Document, n: nat)
    requires n <= |d.consumers|
    ensures Stand(d, SlotsOfSection(d, CONSUMERS, n), ConsumerEntries(d.consumers[..n]))
  {
    if n > 0 {
      var last := d.consumers[n - 1];
      ConsumersStand(d, n - 1);
      assert d.consumers[..n][..n - 1] == d.consumers[..n - 1];
      ListStands(d, CONSUMERS, n - 1, 0, InConsumer(last.username), last.plugins);
    }
  }

  lemma {:induction false} GroupsStand(d: Document, n: nat)
    requires n <= |d.groups|
    ensures Stand(d, SlotsOfSection(d, GROUPS, n), GroupEntries(d.groups[..n]))
  {
    if n > 0 {
      var last := d.groups[n - 1];
      GroupsStand(d, n - 1);
      assert d.groups[..n][..n - 1] == d.groups[..n - 1];
      ListStands(d, GROUPS, n - 1, 0, InGroup(last.name), last.plugins);
    }
  }

  lemma EntriesStand(d: Document)
    ensures Stand(d, SlotsOf(d), DocumentEntries(d))
  {
    var services, routes := SlotsOfSection(d, SERVICES, |d.services|), SlotsOfSection(d, ROUTES, |d.routes|);
    var consumers, groups := SlotsOfSection(d, CONSUMERS, |d.consumers|), SlotsOfSection(d, GROUPS, |d.groups|);
    var fromServices, fromRoutes := ServiceEntries(d.services), TopRouteEntries(d.routes);
    var fromConsumers, fromGroups := ConsumerEntries(d.consumers), GroupEntries(d.groups);
    SectionsStand(d);
    ListStands(d, TOP, 0, 0, TopLevel, d.plugins);
    StandTogether(d, services, fromServices, routes, fromRoutes);
    StandTogether(d, services + routes, fromServices + fromRoutes, consumers, fromConsumers);
    StandTogether(d, services + routes + consumers, fromServices + fromRoutes + fromConsumers, groups, fromGroups);
    StandTogether(d, services + routes + consumers + groups, fromServices + fromRoutes + fromConsumers + fromGroups,
        Positions(TOP, 0, 0, |d.plugins|), Entries(TopLevel, d.plugins));
  }

  lemma SectionsStand(d: Document)
    ensures Stand(d, SlotsOfSection(d, SERVICES, |d.services|), ServiceEntries(d.services))
    ensures Stand(d, SlotsOfSection(d, ROUTES, |d.routes|), TopRouteEntries(d.routes))
    ensures Stand(d, SlotsOfSection(d, CONSUMERS, |d.consumers|), ConsumerEntries(d.consumers))
    ensures Stand(d, SlotsOfSection(d, GROUPS, |d.groups|), GroupEntries(d.groups))
  {
    ServicesStand(d, |d.services|);
    TopRoutesStand(d, |d.routes|);
    ConsumersStand(d, |d.consumers|);
    GroupsStand(d, |d.groups|);
    TakeAll(d.services);
    TakeAll(d.routes);
    TakeAll(d.consumers);
    TakeAll(d.groups);
  }

  // ---------------------------------------------------------------------------------------------
  // The routes
  // ---------------------------------------------------------------------------------------------

  function RoutesFrom(service: nat, n: nat): (rs: seq<RouteSlot>)
    ensures |rs| == n
  {
    seq(n, i requires 0 <= i < n => RouteSlot(service, i))
  }

  /** The routes of the first n services. */
  function RoutesUpTo(d: Document, n: nat): seq<RouteSlot>
    requires n <= |d.services|
  {
    if n == 0 then [] else RoutesUpTo(d, n - 1) + RoutesFrom(n - 1, |d.services[n - 1].routes|)
  }

  function AllRouteSlots(d: Document): seq<RouteSlot> {
    RoutesUpTo(d, |d.services|) + RoutesFrom(|d.services|, |d.routes|)
  }

  ghost predicate RoutesInOrder(rs: seq<RouteSlot>) {
    forall i, j :: 0 <= i < j < |rs| ==>
      rs[i].service < rs[j].service || (rs[i].service == rs[j].service && rs[i].position < rs[j].position)
  }

  lemma RoutesFromMean(service: nat, n: nat)
    ensures RoutesInOrder(RoutesFrom(service, n))
    ensures forall r :: r in RoutesFrom(service, n) <==> r.service == service && r.position < n
  {
    forall r: RouteSlot | r.service == service && r.position < n ensures r in RoutesFrom(service, n) {
      assert RoutesFrom(service, n)[r.position] == r;
    }
  }

  lemma JoinRoutes(a: seq<RouteSlot>, b: seq<RouteSlot>)
    requires RoutesInOrder(a) && RoutesInOrder(b) && forall x, y :: x in a && y in b ==> x.service < y.service
    ensures RoutesInOrder(a + b)
  {
    assert forall i :: 0 <= i < |a| ==> a[i] in a;
    assert forall i :: 0 <= i < |b| ==> b[i] in b;
  }

  lemma {:induction false} RoutesUpToMean(d: Document, n: nat)
    requires n <= |d.services|
    ensures RoutesInOrder(RoutesUpTo(d, n))
    ensures forall r :: r in RoutesUpTo(d, n) <==> r.service < n && IsRouteSlot(d, r)
  {
    if n > 0 {
      RoutesUpToMean(d, n - 1);
      RoutesFromMean(n - 1, |d.services[n - 1].routes|);
      JoinRoutes(RoutesUpTo(d, n - 1), RoutesFrom(n - 1, |d.services[n - 1].routes|));
    }
  }

  lemma AllRouteSlotsMean(d: Document)
    ensures AreRouteSlots(d, AllRouteSlots(d))
  {
    RoutesUpToMean(d, |d.services|);
    RoutesFromMean(|d.services|, |d.routes|);
    JoinRoutes(RoutesUpTo(d, |d.services|), RoutesFrom(|d.services|, |d.routes|));
    assert RoutesInOrder(AllRouteSlots(d));
  }

  ghost predicate NamesRoutes(d: Document, rs: seq<RouteSlot>, names: seq<(string, string)>) {
    |rs| == |names| && forall k :: 0 <= k < |rs| ==>
      IsRouteSlot(d, rs[k]) && rs[k].service < |d.services| &&
      names[k] == (d.services[rs[k].service].name, RouteAt(d, rs[k]).name)
  }

  lemma {:induction false} ServiceRoutesNamed(d: Document, n: nat)
    requires n <= |d.services|
    ensures NamesRoutes(d, RoutesUpTo(d, n), ServiceRoutes(d.services[..n]))
  {
    if n > 0 {
      ServiceRoutesNamed(d, n - 1);
      assert d.services[..n][..n - 1] == d.services[..n - 1];
    }
  }

  lemma {:induction false} RouteIDsFrom(uuid: string -> string, routes: seq<(string, string)>, key: string)
    ensures key in RouteIDs(uuid, routes) <==>
            exists k :: 0 <= k < |routes| && key == RouteKey(routes[k].0, routes[k].1)
    ensures key in RouteIDs(uuid, routes) ==>
              exists k :: 0 <= k < |routes| && key == RouteKey(routes[k].0, routes[k].1) &&
                          RouteIDs(uuid, routes)[key] == RouteID(uuid, routes[k].0, routes[k].1)
  {
    if routes != [] {
      var init, last := routes[..|routes| - 1], routes[|routes| - 1];
      RouteIDsFrom(uuid, init, key);
      assert forall k :: 0 <= k < |init| ==> init[k] == routes[k];
      assert routes[|init|] == last;
    }
  }

  /** The rows are those of the routes at the slots. */
  ghost predicate RowsStand(uuid: string -> string, d: Document, rows: seq<RouteRow>) {
    var rs := AllRouteSlots(d);
    |rows| == |rs| && forall k :: 0 <= k < |rs| ==> IsRouteSlot(d, rs[k]) && RouteRowAt(uuid, d, rs[k], rows[k])
  }

  lemma RouteRowsStand(uuid: string -> string, d: Document, out: Flat)
    requires IsFlat(uuid, d, out)
    ensures RowsStand(uuid, d, out.routes)
  {
    var names, n := ServiceRoutes(d.services), |d.services|;
    ServiceRoutesNamed(d, n);
    TakeAll(d.services);
    forall k | 0 <= k < |out.routes|
      ensures IsRouteSlot(d, AllRouteSlots(d)[k]) && RouteRowAt(uuid, d, AllRouteSlots(d)[k], out.routes[k])
    {
      if k < |names| {
        assert AllRouteSlots(d)[k] == RoutesUpTo(d, n)[k];
        assert out.routes[k] == ServiceRouteRows(DocumentIDs(uuid, d), names)[k];
      } else {
        assert AllRouteSlots(d)[k] == RoutesFrom(n, |d.routes|)[k - |names|];
        assert out.routes[k] == TopRouteRows(uuid, d.routes)[k - |names|];
      }
    }
  }

  ghost predicate RouteRowAt(uuid: string -> string, d: Document, r: RouteSlot, row: RouteRow)
    requires IsRouteSlot(d, r)
  {
    var ids, name := DocumentIDs(uuid, d), RouteAt(d, r).name;
    if r.service == |d.services| then row == RouteRow(TopRouteID(uuid, name), name, "")
    else
      var service := d.services[r.service].name;
      row == RouteRow(Lookup(ids.route, RouteKey(service, name)), name, Lookup(ids.service, service))
  }

  /** The ID map finds the ID of every route of a service. */
  lemma RouteIDFound(uuid: string -> string, d: Document, r: RouteSlot)
    requires IsRouteSlot(d, r) && r.service < |d.services|
    ensures var key := RouteKey(d.services[r.service].name, RouteAt(d, r).name);
            key in DocumentIDs(uuid, d).route && RouteIDAt(uuid, d, r, DocumentIDs(uuid, d).route[key])
  {
    var names, rs := ServiceRoutes(d.services), RoutesUpTo(d, |d.services|);
    var key := RouteKey(d.services[r.service].name, RouteAt(d, r).name);
    ServiceRoutesNamed(d, |d.services|);
    TakeAll(d.services);
    RoutesUpToMean(d, |d.services|);
    var k :| 0 <= k < |rs| && rs[k] == r;
    RouteIDsFrom(uuid, names, key);
    assert key == RouteKey(names[k].0, names[k].1);
    var j :| 0 <= j < |names| && key == RouteKey(names[j].0, names[j].1) &&
             RouteIDs(uuid, names)[key] == RouteID(uuid, names[j].0, names[j].1);
    assert IsRouteSlot(d, rs[j]);
  }

  lemma RoutesAreFlat(uuid: string -> string, d: Document, out: Flat)
    requires IsFlat(uuid, d, out)
    ensures |out.services| == |d.services| && RoutesFlat(uuid, d, out, AllRouteSlots(d))
  {
    var rs := AllRouteSlots(d);
    RouteRowsStand(uuid, d, out);
    AllRouteSlotsMean(d);
    forall k | 0 <= k < |rs| && rs[k].service < |d.services| ensures RouteIDAt(uuid, d, rs[k], out.routes[k].id) {
      RouteIDFound(uuid, d, rs[k]);
      assert RouteRowAt(uuid, d, rs[k], out.routes[k]);
    }
  }

  /** A key of the ID map is that of some route of a service, and gives the ID of its row. */
  lemma KeyIsOfRoute(uuid: string -> string, d: Document, rows: seq<RouteRow>, key: string) returns (k: nat)
    requires RowsStand(uuid, d, rows) && key in DocumentIDs(uuid, d).route
    ensures k < |AllRouteSlots(d)|
    ensures var r := AllRouteSlots(d)[k];
            IsRouteSlot(d, r) && r.service < |d.services| &&
            key == d.services[r.service].name + "|" + RouteAt(d, r).name &&
            rows[k].id == DocumentIDs(uuid, d).route[key]
  {
    var names, rs := ServiceRoutes(d.services), RoutesUpTo(d, |d.services|);
    ServiceRoutesNamed(d, |d.services|);
    TakeAll(d.services);
    RouteIDsFrom(uuid, names, key);
    k :| 0 <= k < |names| && key == RouteKey(names[k].0, names[k].1);
    assert AllRouteSlots(d)[k] == rs[k];
    assert RouteRowAt(uuid, d, rs[k], rows[k]);
  }

  /** A reference by name is resolved to the row of a route that is meant, if there is one. */
  lemma RouteRefFor(uuid: string -> string, d: Document, out: Flat, name: Option<string>, id: string)
    requires RowsStand(uuid, d, out.routes) && IsRouteRef(DocumentIDs(uuid, d).route, name, id)
    ensures RouteIDFor(d, out, AllRouteSlots(d), name, id)
  {
    var ids, rs := DocumentIDs(uuid, d).route, AllRouteSlots(d);
    if name.Some? && exists key :: key in ids && KeyMatches(key, name.value) {
      var key :| key in ids && KeyMatches(key, name.value) && ids[key] == id;
      var k := MatchIsMeant(uuid, d, out.routes, name.value, key);
    } else if name.Some? {
      forall k | 0 <= k < |rs| ensures !Meant(d, rs[k], name.value) {
        NoneMeant(uuid, d, rs[k], name.value);
      }
    }
  }

  lemma MatchIsMeant(uuid: string -> string, d: Document, rows: seq<RouteRow>, name: string, key: string)
    returns (k: nat)
    requires RowsStand(uuid, d, rows) && key in DocumentIDs(uuid, d).route && KeyMatches(key, name)
    ensures k < |AllRouteSlots(d)| && Meant(d, AllRouteSlots(d)[k], name)
    ensures rows[k].id == DocumentIDs(uuid, d).route[key]
  {
    k := KeyIsOfRoute(uuid, d, rows, key);
  }

  lemma NoneMeant(uuid: string -> string, d: Document, r: RouteSlot, name: string)
    requires forall key :: key in DocumentIDs(uuid, d).route ==> !KeyMatches(key, name)
    ensures !Meant(d, r, name)
  {
    if IsRouteSlot(d, r) && r.service < |d.services| {
      RouteIDFound(uuid, d, r);
      assert !KeyMatches(RouteKey(d.services[r.service].name, RouteAt(d, r).name), name);
    }
  }

  // ---------------------------------------------------------------------------------------------
  // The other rows
  // ---------------------------------------------------------------------------------------------

  lemma {:induction false} LastCounts(uuid: string -> string, prefix: string, es: seq<Named>, j: nat)
    requires j < |es| && forall k :: j < k < |es| ==> es[k].name != es[j].name
    ensures es[j].name in NamedIDs(uuid, prefix, es) &&
            NamedIDs(uuid, prefix, es)[es[j].name] == if es[j].id != "" then es[j].id else uuid(prefix + es[j].name)
  {
    if j < |es| - 1 {
      LastCounts(uuid, prefix, es[..|es| - 1], j);
    }
  }

  lemma KindIsFlat(uuid: string -> string, prefix: string, es: seq<Named>, pairs: seq<(string, string)>, ids: IDMap,
      rows: seq<Row>)
    requires |pairs| == |es| && forall i :: 0 <= i < |es| ==> pairs[i] == (es[i].name, es[i].id)
    requires rows == Rows(ids, es)
    requires forall n :: n in NamedIDs(uuid, prefix, es) ==> n in ids && ids[n] == NamedIDs(uuid, prefix, es)[n]
    ensures KindRows(uuid, prefix, pairs, rows)
  {
    forall i, j | 0 <= i < |es| && 0 <= j < |es| && pairs[i].0 == pairs[j].0 && LastOf(pairs, j)
      ensures rows[i] == Row(if pairs[j].1 != "" then pairs[j].1 else uuid(prefix + pairs[j].0), pairs[i].0)
    {
      LastCounts(uuid, prefix, es, j);
    }
  }

  lemma RowsAreFlat(uuid: string -> string, d: Document, out: Flat)
    requires IsFlat(uuid, d, out)
    ensures RowsFlat(uuid, d, out)
  {
    var ids, groups := DocumentIDs(uuid, d), NamedGroups(d.groups);
    KindIsFlat(uuid, "service:", NamedServices(d.services), seq(|d.services|, i requires 0 <= i < |d.services| =>
      (d.services[i].name, d.services[i].id)), ids.service, out.services);
    KindIsFlat(uuid, "consumer:", NamedConsumers(d.consumers), seq(|d.consumers|, i requires 0 <= i < |d.consumers| =>
      (d.consumers[i].username, d.consumers[i].id)), ids.consumer, out.consumers);
    forall n | n in NamedIDs(uuid, "consumer_group:", groups)
      ensures n in ids.group && ids.group[n] == NamedIDs(uuid, "consumer_group:", groups)[n]
    {
      MembershipIDs(uuid, NamedIDs(uuid, "consumer_group:", groups), Memberships(d.consumers), n);
    }
    KindIsFlat(uuid, "consumer_group:", groups, seq(|d.groups|, i requires 0 <= i < |d.groups| =>
      (d.groups[i].name, d.groups[i].id)), ids.group, out.groups);
    KindIsFlat(uuid, "ai_model:", NamedModels(d.models), seq(|d.models|, i requires 0 <= i < |d.models| =>
      (d.models[i].name, d.models[i].id)), ids.model, out.models);
  }

  /** A name is looked up to the ID of its rows. */
  lemma LooksUpRow(uuid: string -> string, prefix: string, es: seq<Named>, rows: seq<Row>, name: Option<string>)
    requires rows == Rows(NamedIDs(uuid, prefix, es), es)
    ensures RowID(rows, name, LookupRef(NamedIDs(uuid, prefix, es), name))
  {
    if name.Some? && name.value in NamedIDs(uuid, prefix, es) {
      var i :| 0 <= i < |es| && es[i].name == name.value;
      assert rows[i] in rows;
    }
  }

  lemma {:induction false} MembershipsMean(consumers: seq<Consumer>, g: string)
    ensures g in Memberships(consumers) <==> exists c :: c in consumers && g in c.groups
  {
    if consumers != [] {
      var init, last := consumers[..|consumers| - 1], consumers[|consumers| - 1];
      assert consumers == init + [last];
      MembershipsMean(init, g);
    }
  }

  lemma LooksUpGroup(uuid: string -> string, d: Document, out: Flat, name: Option<string>)
    requires IsFlat(uuid, d, out)
    ensures GroupID(uuid, d, out, name, LookupRef(DocumentIDs(uuid, d).group, name))
  {
    if name.Some? {
      var es := NamedGroups(d.groups);
      var declared, ids := NamedIDs(uuid, "consumer_group:", es), DocumentIDs(uuid, d).group;
      MembershipIDs(uuid, declared, Memberships(d.consumers), name.value);
      MembershipsMean(d.consumers, name.value);
      if name.value in declared {
        var i :| 0 <= i < |es| && es[i].name == name.value;
        assert out.groups[i] in out.groups;
      }
    }
  }

  lemma MemberJoins(uuid: string -> string, d: Document, out: Flat, c: nat, g: string)
    requires IsFlat(uuid, d, out) && c < |d.consumers| && g in d.consumers[c].groups
    ensures var ids := DocumentIDs(uuid, d);
            var pair := (Lookup(ids.consumer, d.consumers[c].username), Lookup(ids.group, g));
            pair in out.members && Joins(uuid, d, out, c, g, pair)
  {
    LooksUpGroup(uuid, d, out, Some(g));
    assert d.consumers[c] in d.consumers;
    var ids := DocumentIDs(uuid, d);
    assert IsMember(ids, d.consumers, (Lookup(ids.consumer, d.consumers[c].username), Lookup(ids.group, g)));
  }

  lemma MembersAreFlat(uuid: string -> string, d: Document, out: Flat)
    requires IsFlat(uuid, d, out)
    ensures |out.consumers| == |d.consumers| && MembersFlat(uuid, d, out)
  {
    var ids := DocumentIDs(uuid, d);
    forall pair | pair in out.members
      ensures exists c: nat, g :: c < |d.consumers| && g in d.consumers[c].groups && Joins(uuid, d, out, c, g, pair)
    {
      assert IsMember(ids, d.consumers, pair);
      var consumer, g :| consumer in d.consumers && g in consumer.groups &&
                         pair == (Lookup(ids.consumer, consumer.username), Lookup(ids.group, g));
      var c: nat :| c < |d.consumers| && d.consumers[c] == consumer;
      MemberJoins(uuid, d, out, c, g);
    }
    forall c: nat, g | c < |d.consumers| && g in d.consumers[c].groups
      ensures exists pair :: pair in out.members && Joins(uuid, d, out, c, g, pair)
    {
      MemberJoins(uuid, d, out, c, g);
    }
  }

  // ---------------------------------------------------------------------------------------------
  // The theorem
  // ---------------------------------------------------------------------------------------------

  lemma ScopeStands(uuid: string -> string, d: Document, out: Flat, x: Slot, e: Entry, scope: Scope)
    requires IsFlat(uuid, d, out) && StandsAt(d, x, e) && IsScope(uuid, DocumentIDs(uuid, d), e, scope)
    ensures |out.routes| == |AllRouteSlots(d)| && |out.services| == |d.services|
    ensures |out.consumers| == |d.consumers| && |out.groups| == |d.groups|
    ensures ScopeAt(uuid, d, out, AllRouteSlots(d), x, scope)
  {
    RouteRowsStand(uuid, d, out);
    if x.section == TOP {
      TopScope(uuid, d, out, e.plugin, scope);
    } else {
      NestedScopeAt(uuid, d, out, x, e, scope);
    }
  }

  lemma NestedScopeAt(uuid: string -> string, d: Document, out: Flat, x: Slot, e: Entry, scope: Scope)
    requires IsFlat(uuid, d, out) && StandsAt(d, x, e) && IsScope(uuid, DocumentIDs(uuid, d), e, scope)
    requires x.section != TOP && RowsStand(uuid, d, out.routes)
    ensures ScopeAt(uuid, d, out, AllRouteSlots(d), x, scope)
  {
    var rs := AllRouteSlots(d);
    forall k | 0 <= k < |rs| && (rs[k] == RouteSlot(x.entity, x.route) || rs[k] == RouteSlot(|d.services|, x.entity))
      ensures IsRouteSlot(d, rs[k]) && RouteRowAt(uuid, d, rs[k], out.routes[k])
    {
    }
  }

  lemma TopScope(uuid: string -> string, d: Document, out: Flat, p: Plugin, scope: Scope)
    requires IsFlat(uuid, d, out) && IsScope(uuid, DocumentIDs(uuid, d), Entry(TopLevel, p, 0), scope)
    requires RowsStand(uuid, d, out.routes)
    ensures RowID(out.services, p.service, scope.service) && RowID(out.consumers, p.consumer, scope.consumer) &&
            RowID(out.models, p.model, scope.model) && GroupID(uuid, d, out, p.group, scope.group) &&
            RouteIDFor(d, out, AllRouteSlots(d), p.route, scope.route)
  {
    LooksUpRow(uuid, "service:", NamedServices(d.services), out.services, p.service);
    LooksUpRow(uuid, "consumer:", NamedConsumers(d.consumers), out.consumers, p.consumer);
    LooksUpRow(uuid, "ai_model:", NamedModels(d.models), out.models, p.model);
    LooksUpGroup(uuid, d, out, p.group);
    RouteRefFor(uuid, d, out, p.route, scope.route);
  }

  /**
    Flattening keeps everything: each plugin of each list of the document has one flat plugin, in
    order, with its name, body and ID, scoped by the row of the entity around it or by those that it
    names; each entity has its row, with the ID that it was given.
   */
  lemma FlattensAll(uuid: string -> string, d: Document, out: Flat)
    returns (rs: seq<RouteSlot>, slots: seq<Slot>)
    requires IsFlat(uuid, d, out)
    ensures RowsFlat(uuid, d, out) && RoutesFlat(uuid, d, out, rs) && MembersFlat(uuid, d, out)
    ensures PluginsFlat(uuid, d, out, rs, slots)
  {
    rs, slots := AllRouteSlots(d), SlotsOf(d);
    RowsAreFlat(uuid, d, out);
    RoutesAreFlat(uuid, d, out);
    MembersAreFlat(uuid, d, out);
    SlotsMean(d);
    EntriesStand(d);
    var es := DocumentEntries(d);
    forall i | 0 <= i < |slots| ensures PluginFlat(uuid, d, out, rs, slots[i], out.plugins[i]) {
      assert StandsAt(d, slots[i], es[i]) && IsFlattened(uuid, DocumentIDs(uuid, d), es[i], out.plugins[i]);
      ScopeStands(uuid, d, out, slots[i], es[i], out.plugins[i].scope);
    }
  }
}
