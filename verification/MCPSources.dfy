/**
  Listeners and sources of MCP servers (convert/mcp.go, revert/mcp.go).

  A listener serves the tools of the sources that it names. Kong has no such reference: the
  ai-mcp-proxy plugin of the listener selects a tag, and the plugin of each source carries that tag
  among its own. The reverter finds the sources of a listener by its tag again.
 */
module MCPSources {
  import opened Sequences
  import opened Sorting
  import opened Labels

  const LISTENER := "listener"
  const CONVERSION_ONLY := "conversion-only"
  const UPSTREAM_SERVER := "upstream-server"

  /** An MCP server; gatePolicy is a policy of its own that is of the type of the generated gate. */
  datatype Server = Server(
    name: string, mode: string, tag: string, sources: seq<string>, labels: map<string, string>,
    gatePolicy: bool, convertible: bool)
  {
    /** The server is a listener that gives its tag to the source of this name. */
    predicate Wires(source: string) {
      mode == LISTENER && tag != "" && source in sources
    }
  }

  /** An ai-mcp-proxy plugin: its mode, the tag that a listener selects, and the tags of the plugin. */
  datatype Proxy = Proxy(mode: string, tag: string, tags: seq<string>)

  datatype Service = Service(name: string, tags: seq<string>, proxy: Option<Proxy>, gated: bool)

  // ---------------------------------------------------------------------------------------------
  // What converting servers has to give
  // ---------------------------------------------------------------------------------------------

  /** Some listener names this server among its sources. */
  ghost predicate Exposed(servers: seq<Server>, name: string) {
    exists m :: m in servers && m.mode == LISTENER && name in m.sources
  }

  /** The route of the server is closed to clients. */
  ghost predicate Gated(servers: seq<Server>, m: Server) {
    m.mode == UPSTREAM_SERVER || (m.mode == CONVERSION_ONLY && Exposed(servers, m.name))
  }

  ghost predicate Converts(servers: seq<Server>, m: Server) {
    m.convertible && !(Gated(servers, m) && m.gatePolicy)
  }

  /** A server that only sources tools stays only if a listener names it. */
  ghost predicate Stays(servers: seq<Server>, m: Server) {
    m.mode == CONVERSION_ONLY ==> Exposed(servers, m.name)
  }

  ghost function ServiceFor(prefix: string, servers: seq<Server>, m: Server): Service {
    var tags := LabelTags(prefix, m.labels);
    Service(m.name, tags, Some(Proxy(m.mode, m.tag, tags)), Gated(servers, m))
  }

  /** The servers among the first n that convert, in order. */
  ghost function Converted(servers: seq<Server>, n: nat): seq<Server>
    requires n <= |servers|
  {
    if n == 0 then []
    else Converted(servers, n - 1) + if Converts(servers, servers[n - 1]) then [servers[n - 1]] else []
  }

  ghost function ServicesFor(prefix: string, servers: seq<Server>, ms: seq<Server>): (r: seq<Service>)
    ensures |r| == |ms|
  {
    seq(|ms|, i requires 0 <= i < |ms| => ServiceFor(prefix, servers, ms[i]))
  }

  /** The tags that the first n servers give to a source. */
  ghost function Buckets(servers: seq<Server>, n: nat, name: string): set<string>
    requires n <= |servers|
  {
    set i | 0 <= i < n && servers[i].Wires(name) :: servers[i].tag
  }

  /** Tags with more tags added, in order if any of them was missing. */
  ghost predicate Tagged(tags: seq<string>, more: set<string>, tags': seq<string>) {
    multiset(tags') == multiset(tags) + multiset(more - Elements(tags)) &&
    if more <= Elements(tags) then tags' == tags else Sorted(tags', ByName())
  }

  /** No later service with a proxy has the name of service i. */
  ghost predicate LastOfName(services: seq<Service>, i: nat)
    requires i < |services|
  {
    services[i].proxy.Some? &&
    forall j :: i < j < |services| && services[j].proxy.Some? ==> services[j].name != services[i].name
  }

  /** s' is service i with the tags added that its name is given. */
  ghost predicate Retagged(services: seq<Service>, i: nat, more: set<string>, s': Service)
    requires i < |services|
  {
    if !LastOfName(services, i) then s' == services[i]
    else
      s'.proxy.Some? && Tagged(services[i].proxy.value.tags, more, s'.proxy.value.tags) &&
      s' == services[i].(proxy := Some(services[i].proxy.value.(tags := s'.proxy.value.tags)))
  }

  /** The tags given after n servers and the first j sources of the next one. */
  ghost function BucketsTo(servers: seq<Server>, n: nat, j: nat, name: string): set<string>
    requires n < |servers| && j <= |servers[n].sources|
  {
    Buckets(servers, n, name) +
    if servers[n].mode == LISTENER && servers[n].tag != "" &&
        name in servers[n].sources[..j] then {servers[n].tag} else {}
  }

  lemma {:induction false} MultisetElements(s: seq<string>, x: string)
    ensures x in multiset(s) <==> x in Elements(s)
  {
  }

  lemma TaggedElements(tags: seq<string>, more: set<string>, tags': seq<string>)
    requires Tagged(tags, more, tags')
    ensures Elements(tags') == Elements(tags) + more
  {
    forall x ensures x in Elements(tags') <==> x in Elements(tags) || x in more {
      MultisetElements(tags, x);
      MultisetElements(tags', x);
      assert x in multiset(more - Elements(tags)) <==> x in more - Elements(tags);
    }
  }

  lemma TaggedTwice(tags: seq<string>, more: set<string>, tags': seq<string>, tag: string, tags'': seq<string>)
    requires Tagged(tags, more, tags') && Tagged(tags', {tag}, tags'')
    ensures Tagged(tags, more + {tag}, tags'')
  {
    TaggedElements(tags, more, tags');
    var missing := more - Elements(tags);
    if tag in Elements(tags') {
      AlreadyTagged(tags, more, tag);
      assert {tag} <= Elements(tags');
    } else {
      assert (more + {tag}) - Elements(tags) == missing + {tag};
      OneMore(missing, tag);
      assert {tag} - Elements(tags') == {tag};
      OneMore({}, tag);
      assert tag in more + {tag} && tag !in Elements(tags);
    }
  }

  lemma AlreadyTagged(tags: seq<string>, more: set<string>, tag: string)
    requires tag in Elements(tags) + more
    ensures (more + {tag}) - Elements(tags) == more - Elements(tags)
    ensures more + {tag} <= Elements(tags) <==> more <= Elements(tags)
  {
  }

  lemma OneMore<T>(a: set<T>, x: T)
    requires x !in a
    ensures multiset(a + {x}) == multiset(a) + multiset{x}
  {
  }

  lemma TaggedNone(tags: seq<string>)
    ensures Tagged(tags, {}, tags)
  {
    assert {} - Elements(tags) == {};
  }

  /** Adds a tag unless it is there, and sorts. */
  method AddTag(tags: seq<string>, tag: string) returns (tags': seq<string>)
    ensures Tagged(tags, {tag}, tags')
  {
    if tag in tags {
      assert {tag} - Elements(tags) == {};
      return tags;
    }
    assert {tag} - Elements(tags) == {tag} && tag in {tag};
    tags' := SortNames(tags + [tag]);
    assert multiset(tags + [tag]) == multiset(tags) + multiset({tag});
  }

  // ---------------------------------------------------------------------------------------------
  // The converter
  // ---------------------------------------------------------------------------------------------

  /** services' is services with each proxy tagged by its name. */
  ghost predicate TaggedBy(services: seq<Service>, servers: seq<Server>, n: nat, services': seq<Service>)
    requires n <= |servers|
  {
    |services'| == |services| &&
        forall i :: 0 <= i < |services| ==> Retagged(services, i, Buckets(servers, n, services[i].name), services'[i])
  }

  ghost predicate TaggedUpTo(services: seq<Service>, servers: seq<Server>, n: nat, j: nat, services': seq<Service>)
    requires n < |servers| && j <= |servers[n].sources|
  {
    |services'| == |services| &&
        forall i :: 0 <= i < |services| ==>
            Retagged(services, i, BucketsTo(servers, n, j, services[i].name), services'[i])
  }

  /** index finds the last service with a proxy of each name. */
  ghost predicate Indexes(services: seq<Service>, index: map<string, nat>) {
    (forall name :: name in index ==>
        index[name] < |services| && services[index[name]].name == name && LastOfName(services, index[name])) &&
    (forall i :: 0 <= i < |services| && services[i].proxy.Some? ==> services[i].name in index)
  }

  /** The services that come from servers and were not dropped. */
  ghost function Surviving(services: seq<Service>, drop: set<nat>, n: nat): seq<Service>
    requires n <= |services|
  {
    if n == 0 then [] else Surviving(services, drop, n - 1) + if n - 1 in drop then [] else [services[n - 1]]
  }

  /** The positions of the services that are dropped. */
  ghost function Dropped(services: seq<Service>, conversionOnly: seq<nat>, exposed: set<string>): set<nat> {
    set i | i in conversionOnly && i < |services| && services[i].name !in exposed
  }

  lemma {:induction false} NoneDropped(services: seq<Service>, n: nat)
    requires n <= |services|
    ensures Surviving(services, {}, n) == services[..n]
  {
    if n > 0 {
      NoneDropped(services, n - 1);
    }
  }

  ghost predicate NoProxies(services: seq<Service>) {
    forall i :: 0 <= i < |services| ==> services[i].proxy.None?
  }

  ghost predicate DistinctServers(servers: seq<Server>) {
    forall i, j :: 0 <= i < j < |servers| ==> servers[i].name != servers[j].name
  }

  ghost function Staying(servers: seq<Server>): Server -> bool {
    m => Stays(servers, m)
  }

  /** The servers whose services are in the document in the end: those that convert and stay, in order. */
  ghost function Survivors(servers: seq<Server>): seq<Server> {
    Filtered(Staying(servers), Converted(servers, |servers|))
  }

  /** The final service of a server: gated as it has to be, and tagged by exactly the listeners that name it. */
  ghost predicate IsFinalService(prefix: string, servers: seq<Server>, m: Server, s: Service) {
    s.name == m.name && s.gated == Gated(servers, m) && s.proxy.Some? &&
    s.proxy.value.mode == m.mode && s.proxy.value.tag == m.tag &&
    s.tags == LabelTags(prefix, m.labels) &&
    Tagged(s.tags, Buckets(servers, |servers|, m.name), s.proxy.value.tags)
  }

  /** The services of the document, then those of the surviving servers. */
  ghost predicate IsFinal(prefix: string, servers: seq<Server>, start: seq<Service>, services: seq<Service>) {
    start <= services && Pairwise(ByServers(prefix, servers), Survivors(servers), services[|start|..])
  }

  class Converter {
    const prefix: string
    var services: seq<Service>

    constructor (prefix: string, services: seq<Service>)
      ensures this.prefix == prefix && this.services == services
    {
      this.prefix, this.services := prefix, services;
    }

    method ExposedSources(servers: seq<Server>) returns (exposed: set<string>)
      ensures forall name :: name in exposed <==> Exposed(servers, name)
    {
      exposed := {};
      for i := 0 to |servers|
        invariant forall name :: name in exposed <==> Exposed(servers[..i], name)
      {
        TakeSnoc(servers, i);
        if servers[i].mode == LISTENER {
          exposed := exposed + set name | name in servers[i].sources;
        }
        forall name ensures Exposed(servers[..i + 1], name) <==>
                            Exposed(servers[..i], name) || (servers[i].mode == LISTENER && name in servers[i].sources) {
          ExposedNext(servers[..i], servers[i], name);
        }
      }
      TakeAll(servers);
    }

    /** Converts the servers in order. Returns the positions of the services of conversion-only servers. */
    method ConvertServers(servers: seq<Server>, exposed: set<string>) returns (conversionOnly: seq<nat>)
      requires forall name :: name in exposed <==> Exposed(servers, name)
      modifies this
      ensures services == old(services) + ServicesFor(prefix, servers, Converted(servers, |servers|))
      ensures forall i :: i in conversionOnly <==>
                |old(services)| <= i < |services| && services[i].proxy.Some? &&
                    services[i].proxy.value.mode == CONVERSION_ONLY
    {
      conversionOnly := [];
      for n := 0 to |servers|
        invariant services == old(services) + ServicesFor(prefix, servers, Converted(servers, n))
        invariant forall i :: i in conversionOnly <==>
                    |old(services)| <= i < |services| && services[i].proxy.Some? &&
                        services[i].proxy.value.mode == CONVERSION_ONLY
      {
        var m := servers[n];
        var gated := m.mode == UPSTREAM_SERVER || (m.mode == CONVERSION_ONLY && m.name in exposed);
        if m.convertible && !(gated && m.gatePolicy) {
          if m.mode == CONVERSION_ONLY {
            conversionOnly := conversionOnly + [|services|];
          }
          var proxyTags := LabelsToTags(prefix, m.labels);
          var tags := LabelsToTags(prefix, m.labels);
          services := services + [Service(m.name, tags, Some(Proxy(m.mode, m.tag, proxyTags)), gated)];
        }
      }
    }

    /** Gives each source the tags of the listeners that name it. */
    method WireListenerSources(servers: seq<Server>)
      modifies this
      ensures TaggedBy(old(services), servers, |servers|, services)
    {
      var index := IndexProxies();
      ghost var start := services;
      Untagged(start, servers);
      for n := 0 to |servers|
        invariant TaggedBy(start, servers, n, services)
      {
        var m := servers[n];
        if m.mode != LISTENER || |m.sources| == 0 || m.tag == "" {
          NothingWired(start, servers, n, services);
        } else {
          WireListener(servers, n, index, start);
        }
      }
    }

    method IndexProxies() returns (index: map<string, nat>)
      ensures Indexes(services, index)
    {
      index := map[];
      for i := 0 to |services|
        invariant Indexes(services[..i], index)
      {
        if services[i].proxy.Some? {
          index := index[services[i].name := i];
        }
      }
      TakeAll(services);
    }

    method WireListener(servers: seq<Server>, n: nat, index: map<string, nat>, ghost start: seq<Service>)
      requires n < |servers| && servers[n].mode == LISTENER && servers[n].tag != ""
      requires Indexes(start, index) && TaggedBy(start, servers, n, services)
      modifies this
      ensures TaggedBy(start, servers, n + 1, services)
    {
      var m := servers[n];
      WiringStarts(start, servers, n, services);
      for j := 0 to |m.sources|
        invariant TaggedUpTo(start, servers, n, j, services)
      {
        var source := m.sources[j];
        ghost var before := services;
        if source in index {
          var i := index[source];
          assert Retagged(start, i, BucketsTo(servers, n, j, source), services[i]);
          var p := services[i].proxy.value;
          var tags := AddTag(p.tags, m.tag);
          services := services[i := services[i].(proxy := Some(p.(tags := tags)))];
          SourceWired(start, servers, n, j, before, i, services);
        } else {
          SourceAbsent(start, servers, n, j, services, index);
        }
      }
      WiringEnds(start, servers, n, services);
    }

    /** Drops the conversion-only servers that no listener names. */
    method PruneUnexposedSources(conversionOnly: seq<nat>, exposed: set<string>)
      requires forall i :: i in conversionOnly ==> i < |services|
      modifies this
      ensures services == Surviving(old(services), Dropped(old(services), conversionOnly, exposed), |old(services)|)
    {
      var drop: set<nat> := {};
      for k := 0 to |conversionOnly|
        invariant services == old(services) && drop == Dropped(services, conversionOnly[..k], exposed)
      {
        var i := conversionOnly[k];
        assert i in conversionOnly;
        TakeSnoc(conversionOnly, k);
        if services[i].name !in exposed {
          drop := drop + {i};
        }
      }
      TakeAll(conversionOnly);
      if drop == {} {
        NoneDropped(services, |services|);
        return;
      }
      var kept: seq<Service> := [];
      for i := 0 to |services|
        invariant services == old(services) && kept == Surviving(services, drop, i)
      {
        if i !in drop {
          kept := kept + [services[i]];
        }
      }
      services := kept;
    }

    /** Converts all MCP servers of a document. */
    method ConvertMCPServers(servers: seq<Server>)
      requires NoProxies(services) && DistinctServers(servers)
      modifies this
      ensures IsFinal(prefix, servers, old(services), services)
    {
      ghost var start := services;
      var exposed := ExposedSources(servers);
      var conversionOnly := ConvertServers(servers, exposed);
      ghost var built := services;
      WireListenerSources(servers);
      ghost var wired := services;
      PruneUnexposedSources(conversionOnly, exposed);
      FinalServices(prefix, servers, start, built, wired, conversionOnly, exposed, services);
    }
  }

  lemma ExposedNext(servers: seq<Server>, m: Server, name: string)
    ensures Exposed(servers + [m], name) <==> Exposed(servers, name) || (m.mode == LISTENER && name in m.sources)
  {
    if Exposed(servers, name) {
      var l :| l in servers && l.mode == LISTENER && name in l.sources;
      assert l in servers + [m];
    }
    if m.mode == LISTENER && name in m.sources {
      assert m in servers + [m];
    }
  }

  lemma Untagged(services: seq<Service>, servers: seq<Server>)
    ensures TaggedBy(services, servers, 0, services)
  {
    forall i | 0 <= i < |services| ensures Retagged(services, i, Buckets(servers, 0, services[i].name), services[i]) {
      if services[i].proxy.Some? {
        TaggedNone(services[i].proxy.value.tags);
      }
    }
  }

  lemma BucketsNext(servers: seq<Server>, n: nat, k: nat, name: string)
    requires k == n + 1 <= |servers|
    ensures Buckets(servers, k, name) == Buckets(servers, n, name) +
            if servers[n].Wires(name) then {servers[n].tag} else {}
  {
  }

  lemma NothingWired(start: seq<Service>, servers: seq<Server>, n: nat, services: seq<Service>)
    requires n < |servers| && TaggedBy(start, servers, n, services)
    requires servers[n].mode != LISTENER || |servers[n].sources| == 0 || servers[n].tag == ""
    ensures TaggedBy(start, servers, n + 1, services)
  {
    forall i | 0 <= i < |start| ensures Retagged(start, i, Buckets(servers, n + 1, start[i].name), services[i]) {
      BucketsNext(servers, n, n + 1, start[i].name);
    }
  }

  lemma WiringStarts(start: seq<Service>, servers: seq<Server>, n: nat, services: seq<Service>)
    requires n < |servers| && TaggedBy(start, servers, n, services)
    ensures TaggedUpTo(start, servers, n, 0, services)
  {
    forall i | 0 <= i < |start| ensures Retagged(start, i, BucketsTo(servers, n, 0, start[i].name), services[i]) {
      assert BucketsTo(servers, n, 0, start[i].name) == Buckets(servers, n, start[i].name);
    }
  }

  lemma WiringEnds(start: seq<Service>, servers: seq<Server>, n: nat, services: seq<Service>)
    requires n < |servers| && TaggedUpTo(start, servers, n, |servers[n].sources|, services)
    ensures TaggedBy(start, servers, n + 1, services)
  {
    TakeAll(servers[n].sources);
    forall i | 0 <= i < |start| ensures Retagged(start, i, Buckets(servers, n + 1, start[i].name), services[i]) {
      BucketsNext(servers, n, n + 1, start[i].name);
    }
  }

  lemma BucketsToNext(servers: seq<Server>, n: nat, j: nat, k: nat, name: string)
    requires n < |servers| && k == j + 1 <= |servers[n].sources| && servers[n].mode == LISTENER && servers[n].tag != ""
    ensures BucketsTo(servers, n, k, name) == BucketsTo(servers, n, j, name) +
            if name == servers[n].sources[j] then {servers[n].tag} else {}
  {
    TakeSnoc(servers[n].sources, j);
  }

  lemma SourceWired(start: seq<Service>, servers: seq<Server>, n: nat, j: nat, before: seq<Service>, i: nat,
      services: seq<Service>)
    requires n < |servers| && j < |servers[n].sources| && servers[n].mode == LISTENER && servers[n].tag != ""
    requires TaggedUpTo(start, servers, n, j, before)
    requires i < |start| && LastOfName(start, i) && start[i].name == servers[n].sources[j]
    requires |services| == |before| && forall k :: 0 <= k < |before| && k != i ==> services[k] == before[k]
    requires before[i].proxy.Some? && services[i].proxy.Some? &&
             Tagged(before[i].proxy.value.tags, {servers[n].tag}, services[i].proxy.value.tags)
    requires services[i] == before[i].(proxy := Some(before[i].proxy.value.(tags := services[i].proxy.value.tags)))
    ensures TaggedUpTo(start, servers, n, j + 1, services)
  {
    forall k | 0 <= k < |start| ensures Retagged(start, k, BucketsTo(servers, n, j + 1, start[k].name), services[k]) {
      assert Retagged(start, k, BucketsTo(servers, n, j, start[k].name), before[k]);
      BucketsToNext(servers, n, j, j + 1, start[k].name);
      if k == i {
        TaggedTwice(start[i].proxy.value.tags, BucketsTo(servers, n, j, start[i].name), before[i].proxy.value.tags,
            servers[n].tag, services[i].proxy.value.tags);
      }
    }
  }

  lemma SourceAbsent(start: seq<Service>, servers: seq<Server>, n: nat, j: nat, services: seq<Service>,
      index: map<string, nat>)
    requires n < |servers| && j < |servers[n].sources| && servers[n].mode == LISTENER && servers[n].tag != ""
    requires TaggedUpTo(start, servers, n, j, services) && Indexes(start, index) && servers[n].sources[j] !in index
    ensures TaggedUpTo(start, servers, n, j + 1, services)
  {
    forall k | 0 <= k < |start| ensures Retagged(start, k, BucketsTo(servers, n, j + 1, start[k].name), services[k]) {
      assert Retagged(start, k, BucketsTo(servers, n, j, start[k].name), services[k]);
      BucketsToNext(servers, n, j, j + 1, start[k].name);
    }
  }

  lemma {:induction false} ConvertedServers(servers: seq<Server>, n: nat)
    requires n <= |servers|
    ensures forall m :: m in Converted(servers, n) <==> m in servers[..n] && Converts(servers, m)
    ensures DistinctServers(servers) ==> DistinctServers(Converted(servers, n))
  {
    if n > 0 {
      ConvertedServers(servers, n - 1);
      TakeSnoc(servers, n - 1);
      if DistinctServers(servers) {
        assert forall i :: 0 <= i < n - 1 ==> servers[i].name != servers[n - 1].name;
        assert forall m :: m in Converted(servers, n - 1) ==> m.name != servers[n - 1].name;
      }
    }
  }

  /** With distinct names, the service of each server is the last one of its name. */
  lemma LastServiceOfName(prefix: string, servers: seq<Server>, start: seq<Service>, ms: seq<Server>,
      built: seq<Service>, k: nat)
    requires DistinctServers(ms) && built == start + ServicesFor(prefix, servers, ms) && k < |ms|
    ensures built[|start| + k] == ServiceFor(prefix, servers, ms[k]) && LastOfName(built, |start| + k)
  {
    var i := |start| + k;
    forall j | i < j < |built| ensures built[j].name != built[i].name {
      assert built[j] == ServiceFor(prefix, servers, ms[j - |start|]);
    }
  }

  /** With distinct names, every service of a server is tagged. */
  lemma WiredService(prefix: string, servers: seq<Server>, start: seq<Service>, built: seq<Service>,
      wired: seq<Service>, k: nat)
    requires NoProxies(start) && DistinctServers(servers) &&
             built == start + ServicesFor(prefix, servers, Converted(servers, |servers|))
    requires TaggedBy(built, servers, |servers|, wired) && k < |Converted(servers, |servers|)|
    ensures IsFinalService(prefix, servers, Converted(servers, |servers|)[k], wired[|start| + k])
  {
    var ms, i := Converted(servers, |servers|), |start| + k;
    ConvertedServers(servers, |servers|);
    LastServiceOfName(prefix, servers, start, ms, built, k);
    assert Retagged(built, i, Buckets(servers, |servers|, built[i].name), wired[i]);
  }

  // Filtering, for any relation between kept elements and their services

  ghost predicate Pairwise<A, B>(related: (A, B) -> bool, xs: seq<A>, ys: seq<B>) {
    |xs| == |ys| && forall k :: 0 <= k < |xs| ==> related(xs[k], ys[k])
  }

  ghost function Filtered<A>(keep: A -> bool, xs: seq<A>): seq<A> {
    if xs == [] then []
    else Filtered(keep, xs[..|xs| - 1]) + if keep(xs[|xs| - 1]) then [xs[|xs| - 1]] else []
  }

  /** Position offset + k is dropped exactly if element k is not kept. */
  ghost predicate DropsAt<A>(keep: A -> bool, xs: seq<A>, drop: set<nat>, offset: nat, k: nat)
    requires k < |xs|
  {
    offset + k in drop <==> !keep(xs[k])
  }

  lemma {:induction false} SurvivingStart(start: seq<Service>, wired: seq<Service>, drop: set<nat>, n: nat)
    requires n <= |start| && start <= wired && forall i :: i in drop ==> |start| <= i
    ensures Surviving(wired, drop, n) == start[..n]
  {
    if n > 0 {
      SurvivingStart(start, wired, drop, n - 1);
    }
  }

  /** What survives behind the start is related to the kept elements, in order. */
  lemma {:induction false} SurvivingRest<A>(related: (A, Service) -> bool, keep: A -> bool, start: seq<Service>,
      tail: seq<Service>, xs: seq<A>, drop: set<nat>, k: nat)
    returns (rest: seq<Service>)
    requires k <= |xs| && Pairwise(related, xs, tail) && forall i :: i in drop ==> |start| <= i
    requires forall j: nat :: j < |xs| ==> DropsAt(keep, xs, drop, |start|, j)
    ensures Surviving(start + tail, drop, |start| + k) == start + rest &&
            Pairwise(related, Filtered(keep, xs[..k]), rest)
  {
    if k == 0 {
      SurvivingStart(start, start + tail, drop, |start|);
      rest := [];
    } else {
      var j := k - 1;
      rest := SurvivingRest(related, keep, start, tail, xs, drop, j);
      assert xs[..k][..j] == xs[..j];
      assert DropsAt(keep, xs, drop, |start|, j);
      assert (start + tail)[|start| + j] == tail[j];
      if keep(xs[j]) {
        assert start + rest + [tail[j]] == start + (rest + [tail[j]]);
        rest := rest + [tail[j]];
      }
    }
  }

  ghost function ByServers(prefix: string, servers: seq<Server>): (related: (Server, Service) -> bool)
    ensures forall m, s :: related(m, s) <==> IsFinalService(prefix, servers, m, s)
  {
    (m, s) => IsFinalService(prefix, servers, m, s)
  }

  lemma FinalServices(prefix: string, servers: seq<Server>, start: seq<Service>, built: seq<Service>,
      wired: seq<Service>, conversionOnly: seq<nat>, exposed: set<string>, services: seq<Service>)
    requires NoProxies(start) && DistinctServers(servers) &&
             built == start + ServicesFor(prefix, servers, Converted(servers, |servers|))
    requires TaggedBy(built, servers, |servers|, wired)
    requires forall name :: name in exposed <==> Exposed(servers, name)
    requires forall i :: i in conversionOnly <==>
               |start| <= i < |built| && built[i].proxy.Some? && built[i].proxy.value.mode == CONVERSION_ONLY
    requires services == Surviving(wired, Dropped(wired, conversionOnly, exposed), |wired|)
    ensures IsFinal(prefix, servers, start, services)
  {
    var ms, drop := Converted(servers, |servers|), Dropped(wired, conversionOnly, exposed);
    var tail := WiredTail(prefix, servers, start, built, wired);
    DropsAll(prefix, servers, start, built, tail, conversionOnly, exposed, ms);
    var rest := SurvivingRest(ByServers(prefix, servers), Staying(servers), start, tail, ms, drop, |ms|);
    TakeAll(ms);
    assert |wired| == |start| + |ms|;
    assert services == start + rest;
    assert (start + rest)[|start|..] == rest;
  }

  lemma ServiceAt(prefix: string, servers: seq<Server>, start: seq<Service>, ms: seq<Server>, built: seq<Service>,
      k: nat)
    requires built == start + ServicesFor(prefix, servers, ms) && k < |ms|
    ensures |start| + k < |built| && built[|start| + k] == ServiceFor(prefix, servers, ms[k])
  {
    assert built[|start| + k] == ServicesFor(prefix, servers, ms)[k];
  }

  lemma DropsAll(prefix: string, servers: seq<Server>, start: seq<Service>, built: seq<Service>, tail: seq<Service>,
      conversionOnly: seq<nat>, exposed: set<string>, ms: seq<Server>)
    requires built == start + ServicesFor(prefix, servers, ms) && Pairwise(ByServers(prefix, servers), ms, tail)
    requires forall name :: name in exposed <==> Exposed(servers, name)
    requires forall i :: i in conversionOnly <==>
               |start| <= i < |built| && built[i].proxy.Some? && built[i].proxy.value.mode == CONVERSION_ONLY
    ensures forall k: nat ::
            k < |ms| ==> DropsAt(Staying(servers), ms, Dropped(start + tail, conversionOnly, exposed), |start|, k)
  {
    forall k: nat | k < |ms|
      ensures DropsAt(Staying(servers), ms, Dropped(start + tail, conversionOnly, exposed), |start|, k)
    {
      assert ByServers(prefix, servers)(ms[k], tail[k]);
      ServiceAt(prefix, servers, start, ms, built, k);
      assert (start + tail)[|start| + k] == tail[k] && |start + tail| == |built|;
      DropsExact(prefix, servers, built, start + tail, conversionOnly, exposed, ms, |start|, k);
    }
  }

  lemma DropsExact(prefix: string, servers: seq<Server>, built: seq<Service>, wired: seq<Service>,
      conversionOnly: seq<nat>, exposed: set<string>, ms: seq<Server>, offset: nat, k: nat)
    requires k < |ms| && |wired| == |built| && offset + k < |built|
    requires built[offset + k] == ServiceFor(prefix, servers, ms[k]) && wired[offset + k].name == ms[k].name
    requires ms[k].name in exposed <==> Exposed(servers, ms[k].name)
    requires offset + k in conversionOnly <==>
               built[offset + k].proxy.Some? && built[offset + k].proxy.value.mode == CONVERSION_ONLY
    ensures DropsAt(Staying(servers), ms, Dropped(wired, conversionOnly, exposed), offset, k)
  {
  }

  lemma WiredTail(prefix: string, servers: seq<Server>, start: seq<Service>, built: seq<Service>,
      wired: seq<Service>) returns (tail: seq<Service>)
    requires NoProxies(start) && DistinctServers(servers) &&
             built == start + ServicesFor(prefix, servers, Converted(servers, |servers|))
    requires TaggedBy(built, servers, |servers|, wired)
    ensures wired == start + tail && Pairwise(ByServers(prefix, servers), Converted(servers, |servers|), tail)
  {
    var ms := Converted(servers, |servers|);
    tail := wired[|start|..];
    forall i | 0 <= i < |start| ensures wired[i] == start[i] {
      assert Retagged(built, i, Buckets(servers, |servers|, built[i].name), wired[i]);
    }
    forall k: nat | k < |ms| ensures ByServers(prefix, servers)(ms[k], tail[k]) {
      WiredService(prefix, servers, start, built, wired, k);
    }
  }

  // ---------------------------------------------------------------------------------------------
  // The reverter
  // ---------------------------------------------------------------------------------------------

  /** The listeners among the first n services by the tag that they select. The last one of a tag counts. */
  function ByTag(services: seq<Service>, n: nat): map<string, string>
    requires n <= |services|
  {
    if n == 0 then map[]
    else
      var s := services[n - 1];
      if SelectsTag(s) then ByTag(services, n - 1)[s.proxy.value.tag := s.name] else ByTag(services, n - 1)
  }

  predicate SelectsTag(s: Service) {
    s.proxy.Some? && s.proxy.value.mode == LISTENER && s.proxy.value.tag != ""
  }

  /** The service, once for each of the tags that leads to the listener, unless it is the listener itself. */
  function JoinedBy(service: string, byTag: map<string, string>, listener: string, tags: seq<string>): seq<string> {
    if tags == [] then []
    else
      var init, tag := JoinedBy(service, byTag, listener, tags[..|tags| - 1]), tags[|tags| - 1];
      if tag in byTag && byTag[tag] == listener && listener != service then init + [service] else init
  }

  function TagsOf(s: Service): seq<string> {
    if s.proxy.Some? then s.proxy.value.tags else []
  }

  /** The services among the first n whose tags lead to the listener. */
  function Collected(services: seq<Service>, byTag: map<string, string>, listener: string, n: nat): seq<string>
    requires n <= |services|
  {
    if n == 0 then []
    else
      var last := services[n - 1];
      Collected(services, byTag, listener, n - 1) + JoinedBy(last.name, byTag, listener, TagsOf(last))
  }

  /** The tags that are not bucket tags. */
  function Stripped(tags: seq<string>, buckets: set<string>): seq<string> {
    if tags == [] then []
    else
      var init, tag := Stripped(tags[..|tags| - 1], buckets), tags[|tags| - 1];
      if tag in buckets then init else init + [tag]
  }

  /** The labels that are read for a service. */
  function LabelsRead(prefix: string, s: Service, buckets: set<string>): map<string, string> {
    var own := Read(prefix, Stripped(TagsOf(s), buckets));
    if own == map[] then Read(prefix, Stripped(s.tags, buckets)) else own
  }

  /** sources maps the listeners to what is collected for them, where anything is. */
  ghost predicate Collects(sources: map<string, seq<string>>, services: seq<Service>, byTag: map<string, string>,
      n: nat)
    requires n <= |services|
  {
    forall l :: Holds(sources, l, Collected(services, byTag, l, n))
  }

  ghost predicate CollectsTo(sources: map<string, seq<string>>, services: seq<Service>,
      byTag: map<string, string>, n: nat, j: nat)
    requires n < |services| && j <= |TagsOf(services[n])|
  {
    forall l :: Holds(sources, l,
        Collected(services, byTag, l, n) + JoinedBy(services[n].name, byTag, l, TagsOf(services[n])[..j]))
  }

  ghost predicate Holds(sources: map<string, seq<string>>, listener: string, collected: seq<string>) {
    if collected == [] then listener !in sources else listener in sources && sources[listener] == collected
  }

  class Reverter {
    const prefix: string
    var bucketTags: set<string>
    var sources: map<string, seq<string>>

    constructor (prefix: string)
      ensures this.prefix == prefix && bucketTags == {} && sources == map[]
    {
      this.prefix, bucketTags, sources := prefix, {}, map[];
    }

    /** Finds the sources of each listener by the tag that it selects. */
    method IndexListenerSources(services: seq<Service>)
      requires bucketTags == {} && sources == map[]
      modifies this
      ensures bucketTags == ByTag(services, |services|).Keys
      ensures forall l :: l in sources <==> Collected(services, ByTag(services, |services|), l, |services|) != []
      ensures forall l :: l in sources ==>
                IsPermutation(sources[l], Collected(services, ByTag(services, |services|), l, |services|)) &&
                    Sorted(sources[l], ByName())
    {
      var byTag: map<string, string> := map[];
      for i := 0 to |services|
        invariant sources == map[] && byTag == ByTag(services, i) && bucketTags == byTag.Keys
      {
        var s := services[i];
        if s.proxy.Some? && s.proxy.value.mode == LISTENER && s.proxy.value.tag != "" {
          byTag := byTag[s.proxy.value.tag := s.name];
          bucketTags := bucketTags + {s.proxy.value.tag};
        }
      }
      for n := 0 to |services|
        invariant bucketTags == byTag.Keys && Collects(sources, services, byTag, n)
      {
        CollectTags(services, byTag, n);
      }
      ghost var collected := sources;
      SortSources();
      forall l ensures Holds(collected, l, Collected(services, byTag, l, |services|)) {
      }
    }

    method CollectTags(services: seq<Service>, byTag: map<string, string>, n: nat)
      requires n < |services| && Collects(sources, services, byTag, n)
      modifies this`sources
      ensures Collects(sources, services, byTag, n + 1)
    {
      var service, tags := services[n].name, TagsOf(services[n]);
      CollectingStarts(sources, services, byTag, n);
      for j := 0 to |tags|
        invariant CollectsTo(sources, services, byTag, n, j)
      {
        var tag := tags[j];
        ghost var before := sources;
        if tag in byTag && byTag[tag] != service {
          var listener := byTag[tag];
          sources := sources[listener := (if listener in sources then sources[listener] else []) + [service]];
        }
        TagCollected(before, services, byTag, n, j, sources);
      }
      TakeAll(tags);
    }

    method SortSources()
      modifies this`sources
      ensures sources.Keys == old(sources).Keys
      ensures forall l :: l in sources ==> IsPermutation(sources[l], old(sources)[l]) && Sorted(sources[l], ByName())
    {
      var keys := sources.Keys;
      while keys != {}
        invariant keys <= sources.Keys && sources.Keys == old(sources).Keys
        invariant forall l :: l in sources ==> IsPermutation(sources[l], old(sources)[l])
        invariant forall l :: l in sources ==> l in keys || Sorted(sources[l], ByName())
        decreases |keys|
      {
        var l :| l in keys;
        var sorted := SortNames(sources[l]);
        sources := sources[l := sorted];
        keys := keys - {l};
      }
    }

    /** The tags without those that only select tools. */
    method StripBucketTags(tags: seq<string>) returns (r: seq<string>)
      ensures r == Stripped(tags, bucketTags)
    {
      if |bucketTags| == 0 {
        NothingStripped(tags);
        return tags;
      }
      r := [];
      for i := 0 to |tags|
        invariant r == Stripped(tags[..i], bucketTags)
      {
        assert tags[..i + 1][..i] == tags[..i];
        if tags[i] !in bucketTags {
          r := r + [tags[i]];
        }
      }
      TakeAll(tags);
    }

    /** The labels of a server: those of its plugin, or those of its service if the plugin has none. */
    method ReadLabels(s: Service) returns (labels: map<string, string>)
      ensures labels == LabelsRead(prefix, s, bucketTags)
    {
      var tags := StripBucketTags(TagsOf(s));
      var rest: seq<string>;
      labels, rest := TagsToLabels(prefix, tags);
      if labels == map[] {
        tags := StripBucketTags(s.tags);
        labels, rest := TagsToLabels(prefix, tags);
      }
    }
  }

  lemma {:induction false} NothingStripped(tags: seq<string>)
    ensures Stripped(tags, {}) == tags
  {
    if tags != [] {
      NothingStripped(tags[..|tags| - 1]);
    }
  }

  lemma CollectingStarts(sources: map<string, seq<string>>, services: seq<Service>, byTag: map<string, string>, n: nat)
    requires n < |services| && Collects(sources, services, byTag, n)
    ensures CollectsTo(sources, services, byTag, n, 0)
  {
    forall l ensures Holds(sources, l,
        Collected(services, byTag, l, n) + JoinedBy(services[n].name, byTag, l, TagsOf(services[n])[..0])) {
      assert Holds(sources, l, Collected(services, byTag, l, n));
      assert Collected(services, byTag, l, n) + [] == Collected(services, byTag, l, n);
    }
  }

  lemma JoinedNext(service: string, byTag: map<string, string>, listener: string, tags: seq<string>, j: nat)
    requires j < |tags|
    ensures JoinedBy(service, byTag, listener, tags[..j + 1]) ==
            JoinedBy(service, byTag, listener, tags[..j]) +
            if tags[j] in byTag && byTag[tags[j]] == listener && listener != service then [service] else []
  {
    assert tags[..j + 1][..j] == tags[..j];
  }

  /** The sources with the service added to the listener that the tag leads to, unless it is the service itself. */
  function WithSource(sources: map<string, seq<string>>, byTag: map<string, string>, service: string, tag: string):
    map<string, seq<string>>
  {
    if tag in byTag && byTag[tag] != service then
      var listener := byTag[tag];
      sources[listener := (if listener in sources then sources[listener] else []) + [service]]
    else sources
  }

  lemma TagCollected(before: map<string, seq<string>>, services: seq<Service>, byTag: map<string, string>,
      n: nat, j: nat, sources: map<string, seq<string>>)
    requires n < |services| && j < |TagsOf(services[n])| && CollectsTo(before, services, byTag, n, j)
    requires sources == WithSource(before, byTag, services[n].name, TagsOf(services[n])[j])
    ensures CollectsTo(sources, services, byTag, n, j + 1)
  {
    var tags, service := TagsOf(services[n]), services[n].name;
    forall l ensures Holds(sources, l, Collected(services, byTag, l, n) + JoinedBy(service, byTag, l, tags[..j + 1])) {
      assert Holds(before, l, Collected(services, byTag, l, n) + JoinedBy(service, byTag, l, tags[..j]));
      TagCollectedFor(before, byTag, service, tags, j, sources, l, Collected(services, byTag, l, n));
    }
  }

  lemma TagCollectedFor(before: map<string, seq<string>>, byTag: map<string, string>, service: string,
      tags: seq<string>, j: nat, sources: map<string, seq<string>>, l: string, collected: seq<string>)
    requires j < |tags| && Holds(before, l, collected + JoinedBy(service, byTag, l, tags[..j]))
    requires sources == WithSource(before, byTag, service, tags[j])
    ensures Holds(sources, l, collected + JoinedBy(service, byTag, l, tags[..j + 1]))
  {
    JoinedNext(service, byTag, l, tags, j);
    var was := collected + JoinedBy(service, byTag, l, tags[..j]);
    if tags[j] in byTag && byTag[tags[j]] == l && l != service {
      assert collected + JoinedBy(service, byTag, l, tags[..j + 1]) == was + [service];
    } else {
      assert collected + JoinedBy(service, byTag, l, tags[..j + 1]) == was;
    }
  }

  // ---------------------------------------------------------------------------------------------
  // The round trip
  // ---------------------------------------------------------------------------------------------

  /** tag is the one tag that leads to the listener. */
  ghost predicate LeadsTo(byTag: map<string, string>, tag: string, listener: string) {
    forall t :: t in byTag && byTag[t] == listener <==> t == tag
  }

  ghost predicate LeadsNowhere(byTag: map<string, string>, listener: string) {
    forall t :: t in byTag ==> byTag[t] != listener
  }

  lemma {:induction false} JoinedOnce(service: string, byTag: map<string, string>, listener: string,
      tags: seq<string>, tag: string)
    requires LeadsTo(byTag, tag, listener) && multiset(tags)[tag] <= 1
    ensures JoinedBy(service, byTag, listener, tags) == if tag in tags && listener != service then [service] else []
  {
    if tags != [] {
      var init, last := tags[..|tags| - 1], tags[|tags| - 1];
      assert tags == init + [last];
      assert multiset(tags) == multiset(init) + multiset{last};
      assert tag in init ==> multiset(init)[tag] >= 1;
      JoinedOnce(service, byTag, listener, init, tag);
    }
  }

  lemma {:induction false} JoinedNever(service: string, byTag: map<string, string>, listener: string, tags: seq<string>)
    requires LeadsNowhere(byTag, listener)
    ensures JoinedBy(service, byTag, listener, tags) == []
  {
    if tags != [] {
      JoinedNever(service, byTag, listener, tags[..|tags| - 1]);
    }
  }

  lemma {:induction false} CollectedNever(services: seq<Service>, byTag: map<string, string>, listener: string, n: nat)
    requires n <= |services| && LeadsNowhere(byTag, listener)
    ensures Collected(services, byTag, listener, n) == []
  {
    if n > 0 {
      var m := n - 1;
      CollectedNever(services, byTag, listener, m);
      NoneCollected(services, byTag, listener, m);
    }
  }

  lemma NoneCollected(services: seq<Service>, byTag: map<string, string>, listener: string, m: nat)
    requires m < |services| && LeadsNowhere(byTag, listener) && Collected(services, byTag, listener, m) == []
    ensures Collected(services, byTag, listener, m + 1) == []
  {
    JoinedNever(services[m].name, byTag, listener, TagsOf(services[m]));
  }

  /** One of the first n services has this name and this tag. */
  ghost predicate Carries(services: seq<Service>, n: nat, name: string, tag: string)
    requires n <= |services|
  {
    exists i :: 0 <= i < n && services[i].name == name && tag in TagsOf(services[i])
  }

  ghost predicate DistinctProxies(services: seq<Service>) {
    forall i, j :: 0 <= i < j < |services| && services[i].proxy.Some? && services[j].proxy.Some? ==>
        services[i].name != services[j].name
  }

  lemma {:induction false} CollectedOnce(services: seq<Service>, byTag: map<string, string>, listener: string,
      tag: string, n: nat)
    requires n <= |services| && DistinctProxies(services) && LeadsTo(byTag, tag, listener)
    requires forall i :: 0 <= i < |services| ==> multiset(TagsOf(services[i]))[tag] <= 1
    ensures NoDup(Collected(services, byTag, listener, n))
    ensures forall x :: x in Collected(services, byTag, listener, n) <==> x != listener && Carries(services, n, x, tag)
  {
    if n > 0 {
      var m := n - 1;
      CollectedOnce(services, byTag, listener, tag, m);
      JoinedOnce(services[m].name, byTag, listener, TagsOf(services[m]), tag);
      forall x ensures Carries(services, n, x, tag) <==>
          Carries(services, m, x, tag) || (x == services[m].name && tag in TagsOf(services[m])) {
        CarriesNext(services, m, n, x, tag);
      }
      NoDupConcat(Collected(services, byTag, listener, m),
          JoinedBy(services[m].name, byTag, listener, TagsOf(services[m])));
    }
  }

  lemma CarriesNext(services: seq<Service>, m: nat, n: nat, name: string, tag: string)
    requires n == m + 1 <= |services|
    ensures Carries(services, n, name, tag) <==>
            Carries(services, m, name, tag) || (name == services[m].name && tag in TagsOf(services[m]))
  {
  }

  /** A selected tag leads to the one service that selects it. */
  ghost predicate DistinctTags(services: seq<Service>) {
    forall i, j :: 0 <= i < j < |services| && SelectsTag(services[i]) && SelectsTag(services[j]) ==>
      services[i].proxy.value.tag != services[j].proxy.value.tag
  }

  lemma {:induction false} TagsSelected(services: seq<Service>, n: nat, tag: string)
    requires n <= |services|
    ensures tag in ByTag(services, n) <==>
            exists i :: 0 <= i < n && SelectsTag(services[i]) && services[i].proxy.value.tag == tag
  {
    if n > 0 {
      TagsSelected(services, n - 1, tag);
    }
  }

  lemma {:induction false} ByTagMeans(services: seq<Service>, n: nat, tag: string)
    requires n <= |services| && DistinctTags(services)
    ensures forall i :: 0 <= i < n && SelectsTag(services[i]) && services[i].proxy.value.tag == tag ==>
              tag in ByTag(services, n) && ByTag(services, n)[tag] == services[i].name
  {
    if n > 0 {
      ByTagMeans(services, n - 1, tag);
    }
  }

  /** The tags of different listeners differ, and no label has the form of one. */
  ghost predicate TagsApart(prefix: string, servers: seq<Server>) {
    (forall i, j :: 0 <= i < j < |servers| && servers[i].mode == servers[j].mode == LISTENER && servers[i].tag != "" ==>
       servers[i].tag != servers[j].tag) &&
    (forall m, l :: m in servers && l in servers && l.mode == LISTENER && l.tag != "" ==>
       l.tag !in LabelTags(prefix, m.labels))
  }

  ghost predicate Apart(prefix: string, servers: seq<Server>) {
    DistinctServers(servers) && TagsApart(prefix, servers)
  }

  lemma {:induction false} FilteredDistinct(keep: Server -> bool, ms: seq<Server>)
    ensures forall m :: m in Filtered(keep, ms) <==> m in ms && keep(m)
    ensures DistinctServers(ms) ==> DistinctServers(Filtered(keep, ms))
  {
    if ms != [] {
      var init, last := ms[..|ms| - 1], ms[|ms| - 1];
      assert ms == init + [last];
      FilteredDistinct(keep, init);
      assert DistinctServers(ms) ==> DistinctServers(init) && forall m :: m in init ==> m.name != last.name;
    }
  }

  lemma SurvivorsMean(servers: seq<Server>)
    requires DistinctServers(servers)
    ensures DistinctServers(Survivors(servers))
    ensures forall m :: m in Survivors(servers) <==> m in servers && Converts(servers, m) && Stays(servers, m)
  {
    ConvertedServers(servers, |servers|);
    TakeAll(servers);
    FilteredDistinct(Staying(servers), Converted(servers, |servers|));
  }

  /**
    After pruning, a conversion-only server has its service exactly if it converts and some listener
    names it; the service then carries the gate.
   */
  lemma ConversionOnlyStays(servers: seq<Server>, m: Server)
    requires DistinctServers(servers) && m in servers && m.mode == CONVERSION_ONLY
    ensures m in Survivors(servers) <==> m.convertible && Exposed(servers, m.name) && !m.gatePolicy
    ensures m in Survivors(servers) ==> Gated(servers, m)
  {
    SurvivorsMean(servers);
  }

  lemma SameTag(prefix: string, servers: seq<Server>, l: Server, m: Server)
    requires TagsApart(prefix, servers) && l in servers && m in servers && l.mode == m.mode == LISTENER &&
             l.tag == m.tag != ""
    ensures l == m
  {
    var i :| 0 <= i < |servers| && servers[i] == l;
    var j :| 0 <= j < |servers| && servers[j] == m;
  }

  /** A source carries the tag of a listener exactly if the listener names it, and then once. */
  lemma CarriesExact(prefix: string, servers: seq<Server>, l: Server, m: Server, s: Service)
    requires TagsApart(prefix, servers) && l in servers && m in servers && l.mode == LISTENER && l.tag != ""
    requires IsFinalService(prefix, servers, m, s)
    ensures l.tag in TagsOf(s) <==> l.Wires(m.name)
    ensures multiset(TagsOf(s))[l.tag] <= 1
  {
    var buckets := Buckets(servers, |servers|, m.name);
    TaggedElements(s.tags, buckets, TagsOf(s));
    assert l.tag in TagsOf(s) <==> l.tag in Elements(TagsOf(s));
    if l.tag in buckets {
      var i :| 0 <= i < |servers| && servers[i].Wires(m.name) && servers[i].tag == l.tag;
      SameTag(prefix, servers, l, servers[i]);
    }
    if l.Wires(m.name) {
      var i :| 0 <= i < |servers| && servers[i] == l;
      assert servers[i].tag in buckets;
    }
    assert l.tag !in multiset(s.tags);
    assert multiset(buckets - Elements(s.tags))[l.tag] <= 1;
  }

  /** Service number k behind the start is that of survivor k. */
  lemma SurvivorAt(prefix: string, servers: seq<Server>, start: seq<Service>, services: seq<Service>, k: nat)
    requires IsFinal(prefix, servers, start, services) && k < |Survivors(servers)|
    ensures |services| == |start| + |Survivors(servers)|
    ensures IsFinalService(prefix, servers, Survivors(servers)[k], services[|start| + k])
  {
    assert ByServers(prefix, servers)(Survivors(servers)[k], services[|start|..][k]);
  }

  /** A service with a proxy is that of some survivor. */
  lemma SurvivorOf(prefix: string, servers: seq<Server>, start: seq<Service>, services: seq<Service>, i: nat)
    returns (k: nat)
    requires IsFinal(prefix, servers, start, services) && NoProxies(start) && i < |services| && services[i].proxy.Some?
    ensures k < |Survivors(servers)| && i == |start| + k &&
            IsFinalService(prefix, servers, Survivors(servers)[k], services[i])
  {
    assert forall j :: 0 <= j < |start| ==> services[j] == start[j];
    k := i - |start|;
    assert |services[|start|..]| == |Survivors(servers)|;
    SurvivorAt(prefix, servers, start, services, k);
  }

  lemma FinalDistinct(prefix: string, servers: seq<Server>, start: seq<Service>, services: seq<Service>)
    requires Apart(prefix, servers) && NoProxies(start) && IsFinal(prefix, servers, start, services)
    ensures DistinctProxies(services) && DistinctTags(services)
  {
    SurvivorsMean(servers);
    var ms := Survivors(servers);
    forall i, j | 0 <= i < j < |services| && services[i].proxy.Some? && services[j].proxy.Some?
      ensures services[i].name != services[j].name
      ensures SelectsTag(services[i]) && SelectsTag(services[j]) ==>
              services[i].proxy.value.tag != services[j].proxy.value.tag
    {
      var a := SurvivorOf(prefix, servers, start, services, i);
      var b := SurvivorOf(prefix, servers, start, services, j);
      assert ms[a] in ms && ms[b] in ms;
      if SelectsTag(services[i]) && SelectsTag(services[j]) &&
          services[i].proxy.value.tag == services[j].proxy.value.tag {
        SameTag(prefix, servers, ms[a], ms[b]);
      }
    }
  }

  /** The tag of a surviving listener, and no other, leads to it. */
  lemma TagLeads(prefix: string, servers: seq<Server>, start: seq<Service>, services: seq<Service>, l: Server)
    requires Apart(prefix, servers) && NoProxies(start) && IsFinal(prefix, servers, start, services)
    requires l in Survivors(servers) && l.mode == LISTENER && l.tag != ""
    ensures LeadsTo(ByTag(services, |services|), l.tag, l.name)
  {
    FinalDistinct(prefix, servers, start, services);
    SurvivorsMean(servers);
    var ms, byTag := Survivors(servers), ByTag(services, |services|);
    var k :| 0 <= k < |ms| && ms[k] == l;
    SurvivorAt(prefix, servers, start, services, k);
    ByTagMeans(services, |services|, l.tag);
    assert SelectsTag(services[|start| + k]);
    forall t | t in byTag && byTag[t] == l.name ensures t == l.tag {
      TagsSelected(services, |services|, t);
      ByTagMeans(services, |services|, t);
      var i :| 0 <= i < |services| && SelectsTag(services[i]) && services[i].proxy.value.tag == t;
      var a := SurvivorOf(prefix, servers, start, services, i);
      assert ms[a].name == l.name && ms[a] in ms;
    }
  }

  /** A service carries the tag of a listener exactly if it is that of a survivor that the listener names. */
  lemma CarriersExact(prefix: string, servers: seq<Server>, start: seq<Service>, services: seq<Service>, l: Server,
      name: string)
    requires Apart(prefix, servers) && NoProxies(start) && IsFinal(prefix, servers, start, services)
    requires l in servers && l.mode == LISTENER && l.tag != ""
    ensures Carries(services, |services|, name, l.tag) <==>
            l.Wires(name) && exists m :: m in Survivors(servers) && m.name == name
  {
    if Carries(services, |services|, name, l.tag) {
      CarrierIsNamed(prefix, servers, start, services, l, name);
    }
    if m :| m in Survivors(servers) && m.name == name {
      NamedCarries(prefix, servers, start, services, l, m);
    }
  }

  lemma CarrierIsNamed(prefix: string, servers: seq<Server>, start: seq<Service>, services: seq<Service>, l: Server,
      name: string)
    requires Apart(prefix, servers) && NoProxies(start) && IsFinal(prefix, servers, start, services)
    requires l in servers && l.mode == LISTENER && l.tag != "" && Carries(services, |services|, name, l.tag)
    ensures l.Wires(name) && exists m :: m in Survivors(servers) && m.name == name
  {
    SurvivorsMean(servers);
    var i :| 0 <= i < |services| && services[i].name == name && l.tag in TagsOf(services[i]);
    var a := SurvivorOf(prefix, servers, start, services, i);
    var m := Survivors(servers)[a];
    assert m in Survivors(servers);
    CarriesExact(prefix, servers, l, m, services[i]);
  }

  lemma NamedCarries(prefix: string, servers: seq<Server>, start: seq<Service>, services: seq<Service>, l: Server,
      m: Server)
    requires Apart(prefix, servers) && NoProxies(start) && IsFinal(prefix, servers, start, services)
    requires l in servers && l.mode == LISTENER && l.tag != "" && m in Survivors(servers)
    ensures l.Wires(m.name) ==> Carries(services, |services|, m.name, l.tag)
  {
    SurvivorsMean(servers);
    var ms := Survivors(servers);
    var k :| 0 <= k < |ms| && ms[k] == m;
    SurvivorAt(prefix, servers, start, services, k);
    CarriesExact(prefix, servers, l, m, services[|start| + k]);
  }

  /**
    The listener/source relation survives the encoding: for a listener with a tag, the reverter
    collects exactly the servers that the listener names and that have a service, other than the
    listener itself, each once.
   */
  lemma SourcesRecovered(prefix: string, servers: seq<Server>, start: seq<Service>, services: seq<Service>, l: Server,
      sources: seq<string>)
    requires Apart(prefix, servers) && NoProxies(start) && IsFinal(prefix, servers, start, services)
    requires l in Survivors(servers) && l.mode == LISTENER && l.tag != ""
    requires IsPermutation(sources, Collected(services, ByTag(services, |services|), l.name, |services|))
    ensures NoDup(sources)
    ensures forall x :: x in sources <==>
            x != l.name && x in l.sources && exists m :: m in Survivors(servers) && m.name == x
  {
    var collected := Collected(services, ByTag(services, |services|), l.name, |services|);
    FinalDistinct(prefix, servers, start, services);
    TagLeads(prefix, servers, start, services, l);
    SurvivorsMean(servers);
    forall i | 0 <= i < |services| ensures multiset(TagsOf(services[i]))[l.tag] <= 1 {
      if services[i].proxy.Some? {
        var a := SurvivorOf(prefix, servers, start, services, i);
        assert Survivors(servers)[a] in Survivors(servers);
        CarriesExact(prefix, servers, l, Survivors(servers)[a], services[i]);
      }
    }
    CollectedOnce(services, ByTag(services, |services|), l.name, l.tag, |services|);
    PermutationFacts(collected, sources);
    forall x ensures x in sources <==>
        x != l.name && x in l.sources && exists m :: m in Survivors(servers) && m.name == x {
      CarriersExact(prefix, servers, start, services, l, x);
    }
  }

  /** A name that no surviving listener with a tag has gets no sources. */
  lemma NoSourcesForOthers(prefix: string, servers: seq<Server>, start: seq<Service>, services: seq<Service>,
      name: string)
    requires Apart(prefix, servers) && NoProxies(start) && IsFinal(prefix, servers, start, services)
    requires forall l :: l in Survivors(servers) && l.name == name ==> l.mode != LISTENER || l.tag == ""
    ensures Collected(services, ByTag(services, |services|), name, |services|) == []
  {
    FinalDistinct(prefix, servers, start, services);
    var byTag := ByTag(services, |services|);
    forall t | t in byTag ensures byTag[t] != name {
      TagsSelected(services, |services|, t);
      ByTagMeans(services, |services|, t);
      var i :| 0 <= i < |services| && SelectsTag(services[i]) && services[i].proxy.value.tag == t;
      var a := SurvivorOf(prefix, servers, start, services, i);
      assert Survivors(servers)[a] in Survivors(servers);
    }
    CollectedNever(services, byTag, name, |services|);
  }

  // ---------------------------------------------------------------------------------------------
  // The labels
  // ---------------------------------------------------------------------------------------------

  /** A listener that has a service selects the tag. */
  ghost predicate Selected(servers: seq<Server>, tag: string) {
    exists l :: l in Survivors(servers) && l.mode == LISTENER && l.tag == tag != ""
  }

  lemma BucketTagSurvives(prefix: string, servers: seq<Server>, start: seq<Service>, services: seq<Service>, i: nat)
    requires NoProxies(start) && IsFinal(prefix, servers, start, services)
    requires i < |services| && SelectsTag(services[i])
    ensures Selected(servers, services[i].proxy.value.tag)
  {
    var k := SurvivorOf(prefix, servers, start, services, i);
    assert Survivors(servers)[k] in Survivors(servers);
  }

  lemma SurvivorHasBucket(prefix: string, servers: seq<Server>, start: seq<Service>, services: seq<Service>, k: nat)
    requires NoProxies(start) && IsFinal(prefix, servers, start, services) && k < |Survivors(servers)|
    requires Survivors(servers)[k].mode == LISTENER && Survivors(servers)[k].tag != ""
    ensures Survivors(servers)[k].tag in ByTag(services, |services|)
  {
    SurvivorAt(prefix, servers, start, services, k);
    TagsSelected(services, |services|, Survivors(servers)[k].tag);
    assert SelectsTag(services[|start| + k]);
  }

  /** The tags are those that the surviving listeners select. */
  ghost predicate AreSelected(servers: seq<Server>, tags: set<string>) {
    forall tag :: tag in tags <==> Selected(servers, tag)
  }

  /** The bucket tags that the reverter finds are the selected ones. */
  lemma BucketTagsMean(prefix: string, servers: seq<Server>, start: seq<Service>, services: seq<Service>)
    requires NoProxies(start) && IsFinal(prefix, servers, start, services)
    ensures AreSelected(servers, ByTag(services, |services|).Keys)
  {
    var buckets := ByTag(services, |services|).Keys;
    forall tag | tag in buckets ensures Selected(servers, tag) {
      TagsSelected(services, |services|, tag);
      var i :| 0 <= i < |services| && SelectsTag(services[i]) && services[i].proxy.value.tag == tag;
      BucketTagSurvives(prefix, servers, start, services, i);
    }
    forall tag | Selected(servers, tag) ensures tag in buckets {
      var l :| l in Survivors(servers) && l.mode == LISTENER && l.tag == tag != "";
      var k :| 0 <= k < |Survivors(servers)| && Survivors(servers)[k] == l;
      SurvivorHasBucket(prefix, servers, start, services, k);
    }
  }

  lemma {:induction false} StrippedMeans(tags: seq<string>, buckets: set<string>, tag: string)
    ensures tag in Stripped(tags, buckets) <==> tag in tags && tag !in buckets
  {
    if tags != [] {
      var init, last := tags[..|tags| - 1], tags[|tags| - 1];
      assert tags == init + [last];
      StrippedMeans(init, buckets, tag);
    }
  }

  lemma {:induction false} StrippedAscends(prefix: string, tags: seq<string>, buckets: set<string>)
    requires Ascends(prefix, tags)
    ensures Ascends(prefix, Stripped(tags, buckets))
  {
    if tags != [] {
      var init, last := tags[..|tags| - 1], tags[|tags| - 1];
      assert forall i :: 0 <= i < |init| ==> init[i] == tags[i];
      StrippedAscends(prefix, init, buckets);
      var kept := Stripped(init, buckets);
      forall i | 0 <= i < |kept| ensures InOrder(Parse(prefix, kept[i]), Parse(prefix, last)) {
        StrippedMeans(init, buckets, kept[i]);
        var j :| 0 <= j < |init| && init[j] == kept[i];
        assert InOrder(Parse(prefix, tags[j]), Parse(prefix, tags[|tags| - 1]));
      }
    }
  }

  /** What is left of the tags of a server: its label tags and the tags that it is given, without the selected ones. */
  lemma LeftTags(prefix: string, servers: seq<Server>, m: Server, s: Service,
      buckets: set<string>, tag: string)
    requires AreSelected(servers, buckets) && IsFinalService(prefix, servers, m, s)
    ensures tag in Stripped(TagsOf(s), buckets) <==>
            !Selected(servers, tag) &&
            (tag in LabelTags(prefix, m.labels) || exists l :: l in servers && l.Wires(m.name) && l.tag == tag)
  {
    var given := Buckets(servers, |servers|, m.name);
    StrippedMeans(TagsOf(s), buckets, tag);
    assert tag in buckets <==> Selected(servers, tag);
    TaggedElements(s.tags, given, TagsOf(s));
    assert tag in TagsOf(s) <==> tag in Elements(TagsOf(s));
    GivenMeans(servers, m.name, tag);
  }

  lemma GivenMeans(servers: seq<Server>, name: string, tag: string)
    ensures tag in Buckets(servers, |servers|, name) <==> exists l :: l in servers && l.Wires(name) && l.tag == tag
  {
    if tag in Buckets(servers, |servers|, name) {
      var i :| 0 <= i < |servers| && servers[i].Wires(name) && servers[i].tag == tag;
      assert servers[i] in servers;
    }
    if l :| l in servers && l.Wires(name) && l.tag == tag {
      var i :| 0 <= i < |servers| && servers[i] == l;
      assert servers[i].Wires(name);
    }
  }

  /** With plain keys, the tags that are left ascend: they are sorted, or just those of the labels. */
  lemma LeftAscends(prefix: string, servers: seq<Server>, m: Server, s: Service, buckets: set<string>)
    requires IsFinalService(prefix, servers, m, s) && forall k :: k in m.labels ==> PlainKey(k)
    ensures Ascends(prefix, Stripped(TagsOf(s), buckets))
  {
    if Sorted(TagsOf(s), ByName()) {
      SortedAscends(prefix, TagsOf(s));
    } else {
      PlainAscends(prefix, m.labels, TagsOf(s));
    }
    StrippedAscends(prefix, TagsOf(s), buckets);
  }

  /** The tags of the service are among those of the plugin, so that reading them instead adds nothing. */
  lemma PluginTagsSuffice(prefix: string, servers: seq<Server>, m: Server, s: Service, buckets: set<string>)
    requires IsFinalService(prefix, servers, m, s)
    ensures LabelsRead(prefix, s, buckets) == Read(prefix, Stripped(TagsOf(s), buckets))
  {
    var own, other := Stripped(TagsOf(s), buckets), Stripped(s.tags, buckets);
    if Read(prefix, own) == map[] {
      forall k ensures k !in Read(prefix, other) {
        if k in Read(prefix, other) {
          ReadOnlyGiven(prefix, other, k);
          var v := Read(prefix, other)[k];
          var i :| 0 <= i < |other| && Parse(prefix, other[i]) == Some((k, v));
          StrippedMeans(s.tags, buckets, other[i]);
          StrippedMeans(TagsOf(s), buckets, other[i]);
          TaggedElements(s.tags, Buckets(servers, |servers|, m.name), TagsOf(s));
          assert other[i] in Elements(TagsOf(s));
          var j :| 0 <= j < |own| && own[j] == other[i];
          assert Gives(prefix, own, k, v);
          ReadOnlyGiven(prefix, own, k);
          assert false;
        }
      }
    }
  }

  /** Reading the tag besides those of the labels changes no label. */
  predicate Harmless(prefix: string, labels: map<string, string>, tag: string) {
    var parsed := Parse(prefix, tag);
    parsed.None? || (parsed.value.0 in labels && !StringLess(labels[parsed.value.0], parsed.value.1))
  }

  /**
    No label is lost: its key is plain and its tag is not one that a listener selects. And none is
    added or overwritten: the tag of a listener without a service is no label, or one with the key
    of a label of the server and no larger value.
   */
  ghost predicate KeepsLabels(prefix: string, servers: seq<Server>, m: Server) {
    (forall k :: k in m.labels ==> PlainKey(k) && !Selected(servers, Tag(prefix, k, m.labels[k]))) &&
    forall l :: l in servers && l.Wires(m.name) && !Selected(servers, l.tag) ==> Harmless(prefix, m.labels, l.tag)
  }

  /** A tag of the server that is left, its own or a listener's, is that of this label. */
  ghost predicate Offered(prefix: string, servers: seq<Server>, m: Server, key: string, value: string) {
    PlainKey(key) && !Selected(servers, Tag(prefix, key, value)) &&
    ((key in m.labels && m.labels[key] == value) ||
    exists l :: l in servers && l.Wires(m.name) && l.tag == Tag(prefix, key, value))
  }

  lemma LeftGives(prefix: string, servers: seq<Server>, m: Server, s: Service,
      buckets: set<string>, key: string, value: string)
    requires AreSelected(servers, buckets) && IsFinalService(prefix, servers, m, s)
    requires forall k :: k in m.labels ==> PlainKey(k)
    ensures Gives(prefix, Stripped(TagsOf(s), buckets), key, value) <==> Offered(prefix, servers, m, key, value)
  {
    var left, tag := Stripped(TagsOf(s), buckets), Tag(prefix, key, value);
    LeftTags(prefix, servers, m, s, buckets, tag);
    GivesTag(prefix, left, key, value);
    if PlainKey(key) {
      LabelTagExact(prefix, m.labels, key, value);
    }
  }

  lemma GivesTag(prefix: string, tags: seq<string>, key: string, value: string)
    ensures Gives(prefix, tags, key, value) <==> PlainKey(key) && Tag(prefix, key, value) in tags
  {
    forall i | 0 <= i < |tags|
      ensures Parse(prefix, tags[i]) == Some((key, value)) <==> PlainKey(key) && tags[i] == Tag(prefix, key, value)
    {
      ParseExact(prefix, tags[i], key, value);
    }
  }

  lemma LabelTagExact(prefix: string, labels: map<string, string>, key: string, value: string)
    requires PlainKey(key) && forall k :: k in labels ==> PlainKey(k)
    ensures Tag(prefix, key, value) in LabelTags(prefix, labels) <==> key in labels && labels[key] == value
  {
    var tag := Tag(prefix, key, value);
    LabelTagsMean(prefix, labels, tag);
    if tag in LabelTags(prefix, labels) {
      GivesTag(prefix, [tag], key, value);
      GivenByLabel(prefix, labels, [tag], key, value);
    }
  }

  /** The key is read with the largest value that is offered for it, if there is one. */
  ghost predicate ReadsLargest(prefix: string, servers: seq<Server>, m: Server, read: map<string, string>,
      key: string) {
    if key in read then
      Offered(prefix, servers, m, key, read[key]) &&
      forall v :: Offered(prefix, servers, m, key, v) ==> !StringLess(read[key], v)
    else forall v :: !Offered(prefix, servers, m, key, v)
  }

  /** With plain keys, the labels read are those offered; of several with one key it is the largest. */
  lemma LabelsReadExact(prefix: string, servers: seq<Server>, m: Server, s: Service,
      buckets: set<string>, key: string)
    requires AreSelected(servers, buckets) && IsFinalService(prefix, servers, m, s)
    requires forall k :: k in m.labels ==> PlainKey(k)
    ensures ReadsLargest(prefix, servers, m, LabelsRead(prefix, s, buckets), key)
  {
    var left := Stripped(TagsOf(s), buckets);
    PluginTagsSuffice(prefix, servers, m, s, buckets);
    LeftAscends(prefix, servers, m, s, buckets);
    ReadOnlyGiven(prefix, left, key);
    forall v ensures Gives(prefix, left, key, v) <==> Offered(prefix, servers, m, key, v) {
      LeftGives(prefix, servers, m, s, buckets, key, v);
    }
    forall v | Gives(prefix, left, key, v) ensures !StringLess(Read(prefix, left)[key], v) {
      ReadLargest(prefix, left, key, v);
    }
  }

  /** The labels of m are offered, and nothing else or larger is. */
  ghost predicate OffersExactly(prefix: string, servers: seq<Server>, m: Server) {
    (forall k :: k in m.labels ==> Offered(prefix, servers, m, k, m.labels[k])) &&
    forall k, v :: Offered(prefix, servers, m, k, v) ==> k in m.labels && !StringLess(m.labels[k], v)
  }

  lemma LargestExact(prefix: string, servers: seq<Server>, m: Server, read: map<string, string>)
    requires forall k :: ReadsLargest(prefix, servers, m, read, k)
    ensures read == m.labels <==> OffersExactly(prefix, servers, m)
  {
    if read == m.labels {
      forall k, v | Offered(prefix, servers, m, k, v) ensures k in m.labels && !StringLess(m.labels[k], v) {
        assert ReadsLargest(prefix, servers, m, read, k);
      }
      assert forall k :: k in read ==> ReadsLargest(prefix, servers, m, read, k);
    }
    if OffersExactly(prefix, servers, m) {
      forall k ensures (k in read <==> k in m.labels) && (k in read ==> read[k] == m.labels[k]) {
        assert ReadsLargest(prefix, servers, m, read, k);
        if k in read {
          LessTotal(read[k], m.labels[k]);
        }
      }
    }
  }

  lemma KeptIsOffered(prefix: string, servers: seq<Server>, m: Server)
    requires forall k :: k in m.labels ==> PlainKey(k)
    ensures KeepsLabels(prefix, servers, m) <==> OffersExactly(prefix, servers, m)
  {
    forall l, k, v | l in servers && l.Wires(m.name)
      ensures Parse(prefix, l.tag) == Some((k, v)) <==> PlainKey(k) && l.tag == Tag(prefix, k, v)
    {
      ParseExact(prefix, l.tag, k, v);
    }
    forall v: string ensures !StringLess(v, v) {
      NotLessThanItself(v);
    }
    if OffersExactly(prefix, servers, m) {
      forall l | l in servers && l.Wires(m.name) && !Selected(servers, l.tag)
        ensures Harmless(prefix, m.labels, l.tag)
      {
        var parsed := Parse(prefix, l.tag);
        if parsed.Some? {
          assert Offered(prefix, servers, m, parsed.value.0, parsed.value.1);
        }
      }
    }
    if KeepsLabels(prefix, servers, m) {
      forall k, v | Offered(prefix, servers, m, k, v) ensures k in m.labels && !StringLess(m.labels[k], v) {
        if l :| l in servers && l.Wires(m.name) && l.tag == Tag(prefix, k, v) {
          assert Parse(prefix, l.tag) == Some((k, v));
        }
      }
    }
  }

  lemma PlainLabelsRecovered(prefix: string, servers: seq<Server>, m: Server, s: Service, buckets: set<string>)
    requires AreSelected(servers, buckets) && IsFinalService(prefix, servers, m, s)
    requires forall k :: k in m.labels ==> PlainKey(k)
    ensures LabelsRead(prefix, s, buckets) == m.labels <==> KeepsLabels(prefix, servers, m)
  {
    var read := LabelsRead(prefix, s, buckets);
    forall k ensures ReadsLargest(prefix, servers, m, read, k) {
      LabelsReadExact(prefix, servers, m, s, buckets, k);
    }
    LargestExact(prefix, servers, m, read);
    KeptIsOffered(prefix, servers, m);
  }

  /**
    The labels of a server come back exactly if none of its tags is taken for a listener's and no tag
    of a listener that has no service is read as a label of another key or with a larger value.
   */
  lemma LabelsRecovered(prefix: string, servers: seq<Server>, start: seq<Service>, services: seq<Service>, m: Server,
      s: Service)
    requires NoProxies(start) && IsFinal(prefix, servers, start, services) && IsFinalService(prefix, servers, m, s)
    ensures LabelsRead(prefix, s, ByTag(services, |services|).Keys) == m.labels <==> KeepsLabels(prefix, servers, m)
  {
    var buckets := ByTag(services, |services|).Keys;
    BucketTagsMean(prefix, servers, start, services);
    if forall k :: k in m.labels ==> PlainKey(k) {
      PlainLabelsRecovered(prefix, servers, m, s, buckets);
    } else {
      var k :| k in m.labels && !PlainKey(k);
      PluginTagsSuffice(prefix, servers, m, s, buckets);
      NotRead(prefix, Stripped(TagsOf(s), buckets), k);
    }
  }

  /** Of the listeners that name m, just those with the tag of l have no service, and m's own tags are its own. */
  ghost predicate OneFails(prefix: string, servers: seq<Server>, m: Server, l: Server) {
    l in servers && l.Wires(m.name) && !Selected(servers, l.tag) &&
    (forall k :: k in m.labels ==> PlainKey(k) && !Selected(servers, Tag(prefix, k, m.labels[k]))) &&
    forall l' :: l' in servers && l'.Wires(m.name) && !Selected(servers, l'.tag) ==> l'.tag == l.tag
  }

  function WithTag(prefix: string, labels: map<string, string>, tag: string): map<string, string> {
    if Harmless(prefix, labels, tag) then labels
    else
      var parsed := Parse(prefix, tag);
      labels[parsed.value.0 := parsed.value.1]
  }

  lemma OfferedByEither(prefix: string, servers: seq<Server>, m: Server, l: Server, key: string, value: string)
    requires OneFails(prefix, servers, m, l)
    ensures Offered(prefix, servers, m, key, value) <==>
            (key in m.labels && value == m.labels[key]) || Parse(prefix, l.tag) == Some((key, value))
  {
    ParseExact(prefix, l.tag, key, value);
  }

  lemma LabelLeft(prefix: string, servers: seq<Server>, m: Server, l: Server, read: map<string, string>, key: string)
    requires OneFails(prefix, servers, m, l)
    requires ReadsLargest(prefix, servers, m, read, key)
    ensures var left := WithTag(prefix, m.labels, l.tag);
            (key in read <==> key in left) && (key in read ==> read[key] == left[key])
  {
    var parsed := Parse(prefix, l.tag);
    if key in m.labels {
      OfferedByEither(prefix, servers, m, l, key, m.labels[key]);
    }
    if parsed.Some? && parsed.value.0 == key {
      OfferedByEither(prefix, servers, m, l, key, parsed.value.1);
    }
    if key in read {
      OfferedByEither(prefix, servers, m, l, key, read[key]);
      NotLessThanItself(read[key]);
      if key in m.labels && !StringLess(m.labels[key], read[key]) {
        LessTotal(read[key], m.labels[key]);
      }
    }
  }

  /** The tag of a listener without a service, if it is read as a label, is added to the labels or overwrites one. */
  lemma FailedListenerLeavesTag(prefix: string, servers: seq<Server>, start: seq<Service>, services: seq<Service>,
      m: Server, s: Service, l: Server)
    requires NoProxies(start) && IsFinal(prefix, servers, start, services) && IsFinalService(prefix, servers, m, s)
    requires OneFails(prefix, servers, m, l)
    ensures LabelsRead(prefix, s, ByTag(services, |services|).Keys) == WithTag(prefix, m.labels, l.tag)
  {
    var buckets := ByTag(services, |services|).Keys;
    BucketTagsMean(prefix, servers, start, services);
    LabelsWithTag(prefix, servers, m, s, buckets, l);
  }

  lemma LabelsWithTag(prefix: string, servers: seq<Server>, m: Server, s: Service, buckets: set<string>, l: Server)
    requires AreSelected(servers, buckets) && IsFinalService(prefix, servers, m, s) && OneFails(prefix, servers, m, l)
    ensures LabelsRead(prefix, s, buckets) == WithTag(prefix, m.labels, l.tag)
  {
    var read, left := LabelsRead(prefix, s, buckets), WithTag(prefix, m.labels, l.tag);
    forall k ensures (k in read <==> k in left) && (k in read ==> read[k] == left[k]) {
      LabelsReadExact(prefix, servers, m, s, buckets, k);
      LabelLeft(prefix, servers, m, l, read, k);
    }
  }

  // A document of one source with labels and of one listener that names it but cannot be converted

  const AGGREGATE := "aggregate"
  const REPORTS := "reports"

  function Source(labels: map<string, string>): Server {
    Server(REPORTS, UPSTREAM_SERVER, "", [], labels, false, true)
  }

  function Listener(tag: string): Server {
    Server(AGGREGATE, LISTENER, tag, [REPORTS], map[], false, false)
  }

  lemma OnlyTheSourceSurvives(tag: string, labels: map<string, string>)
    ensures Survivors([Listener(tag), Source(labels)]) == [Source(labels)]
  {
    var hub, files := Listener(tag), Source(labels);
    var servers := [hub, files];
    assert LISTENER != UPSTREAM_SERVER && Converts(servers, files) && !Converts(servers, hub);
    assert Converted(servers, 0) == [] && Converted(servers, 1) == [] && Converted(servers, 2) == [files];
    assert Filtered(Staying(servers), []) == [] && [files][..0] == [];
  }

  lemma TheListenerFails(prefix: string, tag: string, labels: map<string, string>)
    requires tag != "" && forall k :: k in labels ==> PlainKey(k)
    ensures OneFails(prefix, [Listener(tag), Source(labels)], Source(labels), Listener(tag))
  {
    OnlyTheSourceSurvives(tag, labels);
    assert LISTENER != UPSTREAM_SERVER && Listener(tag).Wires(REPORTS) && !Source(labels).Wires(REPORTS);
  }

  lemma SourceOfFailedListener(prefix: string, tag: string, labels: map<string, string>, services: seq<Service>)
    requires tag != "" && forall k :: k in labels ==> PlainKey(k)
    requires IsFinal(prefix, [Listener(tag), Source(labels)], [], services)
    ensures |services| == 1
    ensures LabelsRead(prefix, services[0], ByTag(services, 1).Keys) == WithTag(prefix, labels, tag)
  {
    var servers := [Listener(tag), Source(labels)];
    OnlyTheSourceSurvives(tag, labels);
    TheListenerFails(prefix, tag, labels);
    SurvivorAt(prefix, servers, [], services, 0);
    FailedListenerLeavesTag(prefix, servers, [], services, Source(labels), services[0], Listener(tag));
  }

  lemma TagAdds(prefix: string, labels: map<string, string>, tag: string, key: string, value: string)
    requires Parse(prefix, tag) == Some((key, value)) && (key in labels ==> StringLess(labels[key], value))
    ensures WithTag(prefix, labels, tag) == labels[key := value]
  {
  }

  const AGGREGATE_TAG := "mcp-listener:aggregate-id"
  const PROD_TAG := "env:prod"
  const PLAIN_TAG := "hub-tools"

  lemma AggregateTagParses()
    ensures Parse("", AGGREGATE_TAG) == Some(("mcp-listener", "aggregate-id"))
  {
    assert AGGREGATE_TAG == Tag("", "mcp-listener", "aggregate-id");
    TagParses("", "mcp-listener", "aggregate-id");
  }

  lemma ProdTagParses()
    ensures Parse("", PROD_TAG) == Some(("env", "prod"))
  {
    assert PROD_TAG == Tag("", "env", "prod");
    TagParses("", "env", "prod");
  }

  lemma PlainTagIsNoLabel()
    ensures Parse("", PLAIN_TAG).None?
  {
    NoSeparator(PLAIN_TAG);
  }

  lemma NoSeparator(tag: string)
    requires SEPARATOR !in tag
    ensures Parse("", tag).None?
  {
    assert tag[0..] == tag;
  }

  lemma EnvIsPlain()
    ensures PlainKey("env")
  {
  }

  /** A tag that is read as a label that the source never had. */
  lemma TagBecomesLabel(labels: map<string, string>, services: seq<Service>)
    requires labels == map["env" := "dev"] && IsFinal("", [Listener(AGGREGATE_TAG), Source(labels)], [], services)
    ensures |services| == 1
    ensures LabelsRead("", services[0], ByTag(services, 1).Keys) == labels["mcp-listener" := "aggregate-id"]
  {
    EnvIsPlain();
    SourceOfFailedListener("", AGGREGATE_TAG, labels, services);
    WithAggregateTag(labels);
  }

  lemma WithAggregateTag(labels: map<string, string>)
    requires labels == map["env" := "dev"]
    ensures WithTag("", labels, AGGREGATE_TAG) == labels["mcp-listener" := "aggregate-id"]
  {
    AggregateTagParses();
    assert |"mcp-listener"| != |"env"|;
    TagAdds("", labels, AGGREGATE_TAG, "mcp-listener", "aggregate-id");
  }

  /** A tag that overwrites the label of the source. */
  lemma TagOverwritesLabel(labels: map<string, string>, services: seq<Service>)
    requires labels == map["env" := "dev"] && IsFinal("", [Listener(PROD_TAG), Source(labels)], [], services)
    ensures |services| == 1 && LabelsRead("", services[0], ByTag(services, 1).Keys) == labels["env" := "prod"]
  {
    EnvIsPlain();
    SourceOfFailedListener("", PROD_TAG, labels, services);
    WithProdTag(labels);
  }

  lemma WithProdTag(labels: map<string, string>)
    requires labels == map["env" := "dev"]
    ensures WithTag("", labels, PROD_TAG) == labels["env" := "prod"]
  {
    ProdTagParses();
    assert StringLess("dev", "prod");
    TagAdds("", labels, PROD_TAG, "env", "prod");
  }

  /** A tag without a separator is no label and changes nothing. */
  lemma TagIsNoLabel(labels: map<string, string>, services: seq<Service>)
    requires labels == map["env" := "dev"] && IsFinal("", [Listener(PLAIN_TAG), Source(labels)], [], services)
    ensures |services| == 1 && LabelsRead("", services[0], ByTag(services, 1).Keys) == labels
  {
    EnvIsPlain();
    SourceOfFailedListener("", PLAIN_TAG, labels, services);
    PlainTagIsNoLabel();
  }
}
