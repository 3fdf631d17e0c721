/**
  The proxy plugins of a model route (convert/model.go, the proxyByOwner map in convertModel and the
  emission loop in convertModelsPass).

  The models on an HTTP route share one proxy plugin if they have one owner key, which is the name of a
  model whose plugins are scoped to ai_models rows and empty for an api model. The plugin is copied
  for each alias of the model that comes first, and the others add their targets to it.
 */
module ProxyGroups {
  import opened Sequences
  import Rows = AIModelRows

  function OwnerKey(m: Rows.Model): string {
    if m.scoped then m.name else ""
  }

  /** The rows that the proxy plugin of a model is copied for. */
  function ProxyRows(m: Rows.Model): seq<string> {
    if m.scoped then Rows.AliasesOf(m) else []
  }

  /** A proxy plugin; owner is the key that it is found by. */
  datatype Proxy = Proxy(owner: string, aliases: seq<string>, targets: seq<string>)

  /** A copy of a proxy plugin, with the row that it is scoped to. */
  datatype ProxyPlugin = ProxyPlugin(row: Option<string>, targets: seq<string>)

  /** A model on the route, with the targets that it adds. */
  datatype Member = Member(model: Rows.Model, targets: seq<string>)

  /** No earlier member has the owner key. */
  ghost predicate Opens(ms: seq<Member>, i: nat)
    requires i < |ms|
  {
    forall j :: 0 <= j < i ==> OwnerKey(ms[j].model) != OwnerKey(ms[i].model)
  }

  /** The targets of the members with a key, in order. */
  ghost function TargetsOf(ms: seq<Member>, key: string): seq<string> {
    if ms == [] then []
    else
      var last := ms[|ms| - 1];
      TargetsOf(ms[..|ms| - 1], key) + if OwnerKey(last.model) == key then last.targets else []
  }

  /** proxy is the one of the members with its key: the rows of the first one, and the targets of all. */
  ghost predicate IsProxy(ms: seq<Member>, proxy: Proxy) {
    proxy.targets == TargetsOf(ms, proxy.owner) &&
    exists i: nat :: i < |ms| && Opens(ms, i) && OwnerKey(ms[i].model) == proxy.owner &&
                     ProxyRows(ms[i].model) == proxy.aliases
  }

  /** The index finds each proxy by its key. */
  ghost predicate Indexes(byOwner: map<string, nat>, proxies: seq<Proxy>) {
    (forall key :: key in byOwner ==> byOwner[key] < |proxies| && proxies[byOwner[key]].owner == key) &&
    forall k :: 0 <= k < |proxies| ==> proxies[k].owner in byOwner && byOwner[proxies[k].owner] == k
  }

  ghost predicate AreProxies(ms: seq<Member>, proxies: seq<Proxy>) {
    forall k :: 0 <= k < |proxies| ==> IsProxy(ms, proxies[k])
  }

  ghost predicate HasKeys(byOwner: map<string, nat>, ms: seq<Member>) {
    forall i :: 0 <= i < |ms| ==> OwnerKey(ms[i].model) in byOwner
  }

  /** There is one proxy for each key of the members. */
  ghost predicate HoldsProxies(proxies: seq<Proxy>, byOwner: map<string, nat>, ms: seq<Member>) {
    Indexes(byOwner, proxies) && AreProxies(ms, proxies) && HasKeys(byOwner, ms)
  }

  /** The proxies are in the order of the members that open them. */
  ghost predicate OpenedBy(ms: seq<Member>, openers: seq<nat>, proxies: seq<Proxy>) {
    Ascending(openers) && (forall i: nat :: i in openers <==> i < |ms| && Opens(ms, i)) && |proxies| == |openers| &&
    forall k :: 0 <= k < |openers| ==>
      openers[k] in openers && proxies[k].owner == OwnerKey(ms[openers[k]].model) &&
      proxies[k].aliases == ProxyRows(ms[openers[k]].model)
  }

  class RouteGroup {
    var byOwner: map<string, nat>
    var proxies: seq<Proxy>
    ghost var members: seq<Member>
    ghost var openers: seq<nat>

    ghost predicate Valid()
      reads this
    {
      HoldsProxies(proxies, byOwner, members) && OpenedBy(members, openers, proxies)
    }

    constructor ()
      ensures Valid() && members == []
    {
      byOwner, proxies, members, openers := map[], [], [], [];
    }

    /** A model makes a proxy plugin, or adds its targets to that of an earlier model with its key. */
    method Join(m: Member)
      requires Valid()
      modifies this
      ensures Valid() && members == old(members) + [m]
    {
      var key := OwnerKey(m.model);
      ghost var before, was, index := members, proxies, byOwner;
      if key in byOwner {
        var k := byOwner[key];
        proxies := proxies[k := proxies[k].(targets := proxies[k].targets + m.targets)];
        members := members + [m];
        JoinsProxy(before, m, was, index, k);
        JoinsOpened(before, m, openers, was, k);
      } else {
        byOwner := byOwner[key := |proxies|];
        proxies := proxies + [Proxy(key, ProxyRows(m.model), m.targets)];
        members := members + [m];
        OpensProxy(before, m, was, index, key);
        OpensNext(before, m, openers, was);
        openers := openers + [|before|];
      }
    }

    /** Emits one copy of each proxy plugin for each of its rows, or one without a row. */
    method EmitProxies() returns (plugins: seq<ProxyPlugin>)
      requires Valid()
      ensures plugins == AllCopies(proxies) && forall p :: p in plugins <==> Emits(members, p)
    {
      plugins := EmitAll(proxies);
      EmitsExact(members, proxies, byOwner);
    }
  }

  method EmitAll(proxies: seq<Proxy>) returns (plugins: seq<ProxyPlugin>)
    ensures plugins == AllCopies(proxies)
  {
    plugins := [];
    for k := 0 to |proxies|
      invariant plugins == AllCopies(proxies[..k])
    {
      assert proxies[..k + 1][..k] == proxies[..k];
      var copies := EmitCopies(proxies[k]);
      plugins := plugins + copies;
    }
    TakeAll(proxies);
  }

  /** The copies of a proxy plugin, one for each of its rows. */
  function Copies(proxy: Proxy): (copies: seq<ProxyPlugin>)
    ensures forall p :: p in copies <==> IsCopy(proxy, p)
  {
    var n := |proxy.aliases|;
    if n == 0 then [ProxyPlugin(None, proxy.targets)]
    else
      var copies := seq(n, i requires 0 <= i < n => ProxyPlugin(Some(proxy.aliases[i]), proxy.targets));
      assert forall i :: 0 <= i < n ==> copies[i].row == Some(proxy.aliases[i]) && copies[i].targets == proxy.targets;
      assert forall p :: IsCopy(proxy, p) ==> exists i :: 0 <= i < n && copies[i] == p;
      copies
  }

  function AllCopies(proxies: seq<Proxy>): seq<ProxyPlugin> {
    if proxies == [] then [] else AllCopies(proxies[..|proxies| - 1]) + Copies(proxies[|proxies| - 1])
  }

  method EmitCopies(proxy: Proxy) returns (copies: seq<ProxyPlugin>)
    ensures copies == Copies(proxy)
  {
    if |proxy.aliases| == 0 {
      return [ProxyPlugin(None, proxy.targets)];
    }
    copies := [];
    for i := 0 to |proxy.aliases|
      invariant copies == Copies(proxy)[..i]
    {
      copies := copies + [ProxyPlugin(Some(proxy.aliases[i]), proxy.targets)];
    }
    TakeAll(Copies(proxy));
  }

  predicate IsCopy(proxy: Proxy, p: ProxyPlugin) {
    p.targets == proxy.targets &&
    if proxy.aliases == [] then p.row.None? else p.row.Some? && p.row.value in proxy.aliases
  }

  lemma {:induction false} CopyOfSome(proxies: seq<Proxy>, p: ProxyPlugin)
    ensures p in AllCopies(proxies) <==> exists proxy :: proxy in proxies && IsCopy(proxy, p)
  {
    if proxies != [] {
      var init, last := proxies[..|proxies| - 1], proxies[|proxies| - 1];
      assert proxies == init + [last];
      CopyOfSome(init, p);
    }
  }

  /** p is a copy of a proxy plugin of the members. */
  ghost predicate Emits(ms: seq<Member>, p: ProxyPlugin) {
    exists proxy :: IsProxy(ms, proxy) && IsCopy(proxy, p)
  }

  lemma TargetsNext(ms: seq<Member>, m: Member, key: string)
    ensures TargetsOf(ms + [m], key) == TargetsOf(ms, key) + if OwnerKey(m.model) == key then m.targets else []
  {
    assert (ms + [m])[..|ms|] == ms;
  }

  /** A further member adds its targets to the proxy of its key, and leaves the others alone. */
  lemma ProxyKept(ms: seq<Member>, m: Member, proxy: Proxy)
    requires IsProxy(ms, proxy)
    ensures IsProxy(ms + [m], proxy.(
              targets := proxy.targets + if OwnerKey(m.model) == proxy.owner then m.targets else []))
  {
    var i: nat :| i < |ms| && Opens(ms, i) && OwnerKey(ms[i].model) == proxy.owner &&
                  ProxyRows(ms[i].model) == proxy.aliases;
    assert Opens(ms + [m], i) && (ms + [m])[i] == ms[i];
    TargetsNext(ms, m, proxy.owner);
  }

  lemma JoinsProxy(ms: seq<Member>, m: Member, proxies: seq<Proxy>, byOwner: map<string, nat>, k: nat)
    requires HoldsProxies(proxies, byOwner, ms) && OwnerKey(m.model) in byOwner && k == byOwner[OwnerKey(m.model)]
    ensures HoldsProxies(proxies[k := proxies[k].(targets := proxies[k].targets + m.targets)], byOwner, ms + [m])
  {
    JoinedIndex(byOwner, proxies, k, proxies[k].targets + m.targets);
    JoinedProxies(ms, m, proxies, k);
  }

  lemma OpensBelow(ms: seq<Member>, m: Member)
    ensures forall i :: 0 <= i < |ms| ==> (Opens(ms + [m], i) <==> Opens(ms, i)) && (ms + [m])[i] == ms[i]
    ensures Opens(ms + [m], |ms|) <==> forall j :: 0 <= j < |ms| ==> OwnerKey(ms[j].model) != OwnerKey(m.model)
  {
    var all := ms + [m];
    assert forall j :: 0 <= j < |ms| ==> all[j] == ms[j];
    if Opens(all, |ms|) {
      forall j | 0 <= j < |ms| ensures OwnerKey(ms[j].model) != OwnerKey(m.model) {
        assert OwnerKey(all[j].model) != OwnerKey(all[|ms|].model);
      }
    }
  }

  lemma JoinsOpened(ms: seq<Member>, m: Member, openers: seq<nat>, proxies: seq<Proxy>, k: nat)
    requires AreProxies(ms, proxies) && OpenedBy(ms, openers, proxies) && k < |proxies| &&
             proxies[k].owner == OwnerKey(m.model)
    ensures OpenedBy(ms + [m], openers, proxies[k := proxies[k].(targets := proxies[k].targets + m.targets)])
  {
    OpensBelow(ms, m);
    assert openers[k] in openers && OwnerKey(ms[openers[k]].model) == OwnerKey(m.model);
  }

  lemma OpensNext(ms: seq<Member>, m: Member, openers: seq<nat>, proxies: seq<Proxy>)
    requires OpenedBy(ms, openers, proxies) && forall i :: 0 <= i < |ms| ==> OwnerKey(ms[i].model) != OwnerKey(m.model)
    ensures OpenedBy(ms + [m], openers + [|ms|], proxies + [Proxy(OwnerKey(m.model), ProxyRows(m.model), m.targets)])
  {
    OpensBelow(ms, m);
    AscendingNext(openers, |ms|);
  }

  lemma JoinedIndex(byOwner: map<string, nat>, proxies: seq<Proxy>, k: nat, targets: seq<string>)
    requires Indexes(byOwner, proxies) && k < |proxies|
    ensures Indexes(byOwner, proxies[k := proxies[k].(targets := targets)])
    ensures forall j :: 0 <= j < |proxies| && proxies[j].owner == proxies[k].owner ==> j == k
  {
  }

  lemma JoinedProxies(ms: seq<Member>, m: Member, proxies: seq<Proxy>, k: nat)
    requires AreProxies(ms, proxies) && k < |proxies|
    requires forall j :: 0 <= j < |proxies| ==> (proxies[j].owner == OwnerKey(m.model) <==> j == k)
    ensures AreProxies(ms + [m], proxies[k := proxies[k].(targets := proxies[k].targets + m.targets)])
  {
    var joined := proxies[k := proxies[k].(targets := proxies[k].targets + m.targets)];
    forall j | 0 <= j < |joined| ensures IsProxy(ms + [m], joined[j]) {
      ProxyKept(ms, m, proxies[j]);
      assert proxies[j].targets + [] == proxies[j].targets;
    }
  }

  lemma OpensProxy(ms: seq<Member>, m: Member, proxies: seq<Proxy>, byOwner: map<string, nat>, key: string)
    requires HoldsProxies(proxies, byOwner, ms) && key == OwnerKey(m.model) && key !in byOwner
    ensures HoldsProxies(proxies + [Proxy(key, ProxyRows(m.model), m.targets)], byOwner[key := |proxies|], ms + [m])
  {
    OpenedIndex(byOwner, proxies, Proxy(key, ProxyRows(m.model), m.targets));
    OpenedProxies(ms, m, proxies);
  }

  lemma OpenedIndex(byOwner: map<string, nat>, proxies: seq<Proxy>, proxy: Proxy)
    requires Indexes(byOwner, proxies) && proxy.owner !in byOwner
    ensures Indexes(byOwner[proxy.owner := |proxies|], proxies + [proxy])
    ensures forall j :: 0 <= j < |proxies| ==> proxies[j].owner != proxy.owner
  {
  }

  lemma OpenedProxies(ms: seq<Member>, m: Member, proxies: seq<Proxy>)
    requires AreProxies(ms, proxies) && forall i :: 0 <= i < |ms| ==> OwnerKey(ms[i].model) != OwnerKey(m.model)
    requires forall j :: 0 <= j < |proxies| ==> proxies[j].owner != OwnerKey(m.model)
    ensures AreProxies(ms + [m], proxies + [Proxy(OwnerKey(m.model), ProxyRows(m.model), m.targets)])
  {
    forall j | 0 <= j < |proxies| ensures IsProxy(ms + [m], proxies[j]) {
      ProxyKept(ms, m, proxies[j]);
      assert proxies[j].targets + [] == proxies[j].targets;
    }
    NewProxy(ms, m);
  }

  lemma NewProxy(ms: seq<Member>, m: Member)
    requires forall i :: 0 <= i < |ms| ==> OwnerKey(ms[i].model) != OwnerKey(m.model)
    ensures IsProxy(ms + [m], Proxy(OwnerKey(m.model), ProxyRows(m.model), m.targets))
  {
    NoTargets(ms, OwnerKey(m.model));
    TargetsNext(ms, m, OwnerKey(m.model));
    assert [] + m.targets == m.targets;
    assert Opens(ms + [m], |ms|) && (ms + [m])[|ms|] == m;
  }

  lemma {:induction false} NoTargets(ms: seq<Member>, key: string)
    requires forall i :: 0 <= i < |ms| ==> OwnerKey(ms[i].model) != key
    ensures TargetsOf(ms, key) == []
  {
    if ms != [] {
      NoTargets(ms[..|ms| - 1], key);
    }
  }

  /** A proxy of the members is one of those that are held. */
  lemma ProxyHeld(ms: seq<Member>, proxies: seq<Proxy>, byOwner: map<string, nat>, proxy: Proxy)
    requires HoldsProxies(proxies, byOwner, ms) && IsProxy(ms, proxy)
    ensures proxy in proxies
  {
    var i: nat :| i < |ms| && Opens(ms, i) && OwnerKey(ms[i].model) == proxy.owner &&
                  ProxyRows(ms[i].model) == proxy.aliases;
    var k := byOwner[proxy.owner];
    assert IsProxy(ms, proxies[k]);
    var j: nat :| j < |ms| && Opens(ms, j) && OwnerKey(ms[j].model) == proxy.owner &&
                  ProxyRows(ms[j].model) == proxies[k].aliases;
    assert i == j;
  }

  lemma EmitsExact(ms: seq<Member>, proxies: seq<Proxy>, byOwner: map<string, nat>)
    requires HoldsProxies(proxies, byOwner, ms)
    ensures forall p :: p in AllCopies(proxies) <==> Emits(ms, p)
  {
    forall p ensures p in AllCopies(proxies) <==> Emits(ms, p) {
      CopyOfSome(proxies, p);
      if proxy :| IsProxy(ms, proxy) && IsCopy(proxy, p) {
        ProxyHeld(ms, proxies, byOwner, proxy);
      }
    }
  }

  // ---------------------------------------------------------------------------------------------
  // Which rows have a proxy plugin
  // ---------------------------------------------------------------------------------------------

  /** A row has a proxy plugin on the route. */
  ghost predicate Served(ms: seq<Member>, row: string) {
    exists p :: Emits(ms, p) && p.row == Some(row)
  }

  /** A row is served exactly if it is an alias of a model whose name no earlier model on the route has. */
  lemma ServedExact(ms: seq<Member>, row: string)
    ensures Served(ms, row) <==> exists i: nat :: i < |ms| && Opens(ms, i) && row in ProxyRows(ms[i].model)
  {
    if i: nat :| i < |ms| && Opens(ms, i) && row in ProxyRows(ms[i].model) {
      var key := OwnerKey(ms[i].model);
      var proxy := Proxy(key, ProxyRows(ms[i].model), TargetsOf(ms, key));
      assert IsProxy(ms, proxy) && IsCopy(proxy, ProxyPlugin(Some(row), proxy.targets));
    }
  }

  /** The alias of a second model of the same name has a row, but no proxy plugin serves it. */
  lemma SecondAliasIsNotServed(ms: seq<Member>)
    requires |ms| == 2 && ms[0].model.scoped && ms[1].model.scoped && ms[0].model.name == ms[1].model.name
    ensures forall row :: Served(ms, row) <==> row in Rows.AliasesOf(ms[0].model)
  {
    assert Opens(ms, 0) && !Opens(ms, 1);
    forall row ensures Served(ms, row) <==> row in Rows.AliasesOf(ms[0].model) {
      ServedExact(ms, row);
    }
  }
}
