/**
  The proxy plugins that models on a route give, in terms of the models and their targets alone
  (convert/model.go, convertModel and convertModelsPass).
 */
module RouteProxies {
  import opened Sequences
  import opened ProxyGroups
  import WrittenRows

  /** The models share a proxy plugin: they are scoped and of one name, or neither has a name that counts. */
  ghost predicate Alike(m: Member, n: Member) {
    (if m.model.scoped then m.model.name else "") == if n.model.scoped then n.model.name else ""
  }

  /** No earlier model shares the plugin of model i. */
  ghost predicate Leads(ms: seq<Member>, i: int) {
    0 <= i < |ms| && forall j :: 0 <= j < i ==> !Alike(ms[j], ms[i])
  }

  ghost predicate InOrder(places: seq<Location>) {
    forall i, j :: 0 <= i < j < |places| ==> places[i].Precedes(places[j])
  }

  /** The targets of all models that share the plugin, model by model. */
  ghost predicate AreTargets(ms: seq<Member>, m: Member, places: seq<Location>, targets: seq<string>) {
    InOrder(places) && |targets| == |places| &&
    (forall x :: x in places <==>
       x.segment < |ms| && Alike(ms[x.segment], m) && x.position < |ms[x.segment].targets|) &&
    forall k :: 0 <= k < |places| ==>
      places[k] in places && targets[k] == ms[places[k].segment].targets[places[k].position]
  }

  /** The aliases of a scoped model; other models have none. */
  ghost predicate AreRows(m: Member, firsts: seq<nat>, rows: seq<string>) {
    if m.model.scoped then WrittenRows.AreAliases(m.model, firsts, rows) else rows == []
  }

  /** The rows and the targets of a proxy plugin, with the positions that they come from. */
  datatype Parts = Parts(rows: seq<string>, targets: seq<string>, firsts: seq<nat>, places: seq<Location>)

  ghost predicate AreParts(ms: seq<Member>, m: Member, parts: Parts) {
    AreRows(m, parts.firsts, parts.rows) && AreTargets(ms, m, parts.places, parts.targets)
  }

  /** One plugin for each row of each proxy, in order, or one without a row if there are none. */
  ghost predicate ArePlugins(parts: seq<Parts>, places: seq<Location>, plugins: seq<ProxyPlugin>) {
    InOrder(places) && |plugins| == |places| &&
    (forall x :: x in places <==>
       x.segment < |parts| && x.position < if parts[x.segment].rows == [] then 1 else |parts[x.segment].rows|) &&
    forall k :: 0 <= k < |places| ==>
      places[k] in places && IsPlugin(parts[places[k].segment], places[k].position, plugins[k])
  }

  predicate IsPlugin(parts: Parts, position: nat, p: ProxyPlugin)
    requires parts.rows != [] ==> position < |parts.rows|
  {
    p.targets == parts.targets && p.row == if parts.rows == [] then None else Some(parts.rows[position])
  }

  /** The segments of targets. */
  ghost function Segments(ms: seq<Member>, key: string): (segments: seq<seq<string>>)
    ensures |segments| == |ms|
  {
    seq(|ms|, i requires 0 <= i < |ms| => if OwnerKey(ms[i].model) == key then ms[i].targets else [])
  }

  lemma {:induction false} TargetsFlat(ms: seq<Member>, key: string)
    ensures TargetsOf(ms, key) == Flatten(Segments(ms, key))
  {
    if ms != [] {
      var n := |ms| - 1;
      TargetsFlat(ms[..n], key);
      assert Segments(ms, key)[..n] == Segments(ms[..n], key);
    }
  }

  lemma TargetsMean(ms: seq<Member>, m: Member) returns (places: seq<Location>)
    ensures AreTargets(ms, m, places, TargetsOf(ms, OwnerKey(m.model)))
  {
    TargetsFlat(ms, OwnerKey(m.model));
    places := FlattenLays(Segments(ms, OwnerKey(m.model)));
    assert forall i :: 0 <= i < |ms| ==> (Alike(ms[i], m) <==> OwnerKey(ms[i].model) == OwnerKey(m.model));
  }

  ghost function CopySegments(proxies: seq<Proxy>): (segments: seq<seq<ProxyPlugin>>)
    ensures |segments| == |proxies|
  {
    seq(|proxies|, i requires 0 <= i < |proxies| => Copies(proxies[i]))
  }

  lemma {:induction false} CopiesFlat(proxies: seq<Proxy>)
    ensures AllCopies(proxies) == Flatten(CopySegments(proxies))
  {
    if proxies != [] {
      var n := |proxies| - 1;
      CopiesFlat(proxies[..n]);
      assert CopySegments(proxies)[..n] == CopySegments(proxies[..n]);
    }
  }

  lemma PluginsMean(proxies: seq<Proxy>, parts: seq<Parts>) returns (places: seq<Location>)
    requires |parts| == |proxies|
    requires forall k :: 0 <= k < |proxies| ==>
               parts[k].rows == proxies[k].aliases && parts[k].targets == proxies[k].targets
    ensures ArePlugins(parts, places, AllCopies(proxies))
  {
    CopiesFlat(proxies);
    places := FlattenLays(CopySegments(proxies));
    assert forall k :: 0 <= k < |proxies| ==>
        |CopySegments(proxies)[k]| == if parts[k].rows == [] then 1 else |parts[k].rows|;
  }

  lemma PartsOf(ms: seq<Member>, m: Member, proxy: Proxy) returns (parts: Parts)
    requires proxy.owner == OwnerKey(m.model) && proxy.aliases == ProxyRows(m.model) && IsProxy(ms, proxy)
    ensures AreParts(ms, m, parts) && parts.rows == proxy.aliases && parts.targets == proxy.targets
  {
    var firsts := WrittenRows.UniquePicks(m.model.values);
    var places := TargetsMean(ms, m);
    parts := Parts(proxy.aliases, proxy.targets, firsts, places);
  }

  lemma LeadsExactly(ms: seq<Member>, i: nat)
    requires i < |ms|
    ensures Opens(ms, i) <==> Leads(ms, i)
  {
    assert forall j :: 0 <= j < i ==> (Alike(ms[j], ms[i]) <==> OwnerKey(ms[j].model) == OwnerKey(ms[i].model));
  }

  ghost predicate LeadersAre(ms: seq<Member>, leaders: seq<nat>) {
    Ascending(leaders) && forall i: nat :: i in leaders <==> Leads(ms, i)
  }

  /**
    The models that lead open the proxies, in order. Each proxy has the aliases of its model and the targets of all
    models that share it, and is emitted once for each alias.
   */
  lemma ProxiesMean(ms: seq<Member>, leaders: seq<nat>, proxies: seq<Proxy>)
    returns (parts: seq<Parts>, places: seq<Location>)
    requires AreProxies(ms, proxies) && OpenedBy(ms, leaders, proxies)
    ensures LeadersAre(ms, leaders) && |parts| == |leaders|
    ensures forall k :: 0 <= k < |leaders| ==> leaders[k] < |ms| && AreParts(ms, ms[leaders[k]], parts[k])
    ensures ArePlugins(parts, places, AllCopies(proxies))
  {
    forall i | 0 <= i < |ms| ensures Opens(ms, i) <==> Leads(ms, i) {
      LeadsExactly(ms, i);
    }
    parts := seq(|leaders|, k requires 0 <= k < |leaders| => PartsAt(ms, leaders, proxies, k));
    assert forall k :: 0 <= k < |leaders| ==> ArePartsOf(ms, leaders, proxies, k, parts[k]);
    places := PluginsMean(proxies, parts);
  }

  ghost predicate ArePartsOf(ms: seq<Member>, leaders: seq<nat>, proxies: seq<Proxy>, k: nat, parts: Parts) {
    k < |leaders| && k < |proxies| && leaders[k] < |ms| && AreParts(ms, ms[leaders[k]], parts) &&
    parts.rows == proxies[k].aliases && parts.targets == proxies[k].targets
  }

  ghost function PartsAt(ms: seq<Member>, leaders: seq<nat>, proxies: seq<Proxy>, k: nat): (parts: Parts)
    requires AreProxies(ms, proxies) && OpenedBy(ms, leaders, proxies) && k < |leaders|
    ensures ArePartsOf(ms, leaders, proxies, k, parts)
  {
    assert exists parts :: ArePartsOf(ms, leaders, proxies, k, parts) by {
      var parts := PartsOfLeader(ms, leaders, proxies, k);
    }
    var parts :| ArePartsOf(ms, leaders, proxies, k, parts);
    parts
  }

  lemma PartsOfLeader(ms: seq<Member>, leaders: seq<nat>, proxies: seq<Proxy>, k: nat) returns (parts: Parts)
    requires AreProxies(ms, proxies) && OpenedBy(ms, leaders, proxies) && k < |leaders|
    ensures ArePartsOf(ms, leaders, proxies, k, parts)
  {
    assert leaders[k] in leaders && IsProxy(ms, proxies[k]);
    parts := PartsOf(ms, ms[leaders[k]], proxies[k]);
  }
}
