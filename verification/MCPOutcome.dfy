/**
  What converting MCP servers gives, and what reverting services collects, in terms of the servers and
  of the services alone (convert/mcp.go, revert/mcp.go).
 */
module MCPOutcome {
  import opened Sequences
  import opened Sorting
  import opened Labels
  import opened MCPSources

  // ---------------------------------------------------------------------------------------------
  // The services of servers
  // ---------------------------------------------------------------------------------------------

  ghost predicate Listed(servers: seq<Server>, name: string) {
    exists l :: l in servers && l.mode == "listener" && name in l.sources
  }

  /** Clients do not reach the route of the server: it is a third party's, or stands behind a listener. */
  ghost predicate Closed(servers: seq<Server>, m: Server) {
    m.mode == "upstream-server" || (m.mode == "conversion-only" && Listed(servers, m.name))
  }

  /** The server has a service in the end. */
  ghost predicate Serves(servers: seq<Server>, m: Server) {
    m.convertible && (Closed(servers, m) ==> !m.gatePolicy) && (m.mode == "conversion-only" ==> Listed(servers, m.name))
  }

  /** A listener that names the server selects the tag. */
  ghost predicate Given(servers: seq<Server>, name: string, tag: string) {
    exists l :: l in servers && l.mode == "listener" && name in l.sources && l.tag == tag != ""
  }

  /** The tags are those of the labels, one for each key, in the order of the keys. */
  ghost predicate OfLabels(prefix: string, labels: map<string, string>, keys: seq<string>, tags: seq<string>) {
    NoDup(keys) && Sorted(keys, ByName()) && (forall k :: k in keys <==> k in labels) && |tags| == |keys| &&
    forall i :: 0 <= i < |keys| ==> keys[i] in keys && tags[i] == prefix + keys[i] + ":" + labels[keys[i]]
  }

  /** Each tag is kept as often as it was there, each missing one is added once, and then the tags are sorted. */
  ghost predicate WithGiven(servers: seq<Server>, name: string, tags: seq<string>, more: seq<string>) {
    (forall tag :: multiset(more)[tag] ==
       if tag in tags then multiset(tags)[tag] else if Given(servers, name, tag) then 1 else 0) &&
    if forall tag :: Given(servers, name, tag) ==> tag in tags then more == tags else Sorted(more, ByName())
  }

  ghost predicate IsServiceOf(prefix: string, servers: seq<Server>, m: Server, s: Service) {
    s.name == m.name && s.proxy.Some? && s.proxy.value.mode == m.mode && s.proxy.value.tag == m.tag &&
    (s.gated <==> Closed(servers, m)) && WithGiven(servers, m.name, s.tags, s.proxy.value.tags)
  }

  /** Behind the services there were, the servers that serve have theirs, in order. */
  lemma ServicesMean(prefix: string, servers: seq<Server>, start: seq<Service>, services: seq<Service>)
    returns (positions: seq<nat>, keys: seq<seq<string>>)
    requires IsFinal(prefix, servers, start, services)
    ensures start <= services && |services| == |start| + |positions| && |keys| == |positions|
    ensures Ascending(positions) && forall i: nat :: i in positions <==> i < |servers| && Serves(servers, servers[i])
    ensures forall k :: 0 <= k < |positions| ==>
              positions[k] < |servers| &&
              IsServiceOf(prefix, servers, servers[positions[k]], services[|start| + k]) &&
              OfLabels(prefix, servers[positions[k]].labels, keys[k], services[|start| + k].tags)
  {
    positions := SurvivorsPick(servers, |servers|);
    TakeAll(servers);
    forall i: nat | i < |servers|
      ensures Converts(servers, servers[i]) && Stays(servers, servers[i]) <==> Serves(servers, servers[i])
    {
      ServesExactly(servers, servers[i]);
    }
    keys := [];
    for k := 0 to |positions|
      invariant |keys| == k
      invariant forall j :: 0 <= j < k ==>
                  IsServiceOf(prefix, servers, servers[positions[j]], services[|start| + j]) &&
                  OfLabels(prefix, servers[positions[j]].labels, keys[j], services[|start| + j].tags)
    {
      SurvivorAt(prefix, servers, start, services, k);
      var more := FinalMeans(prefix, servers, servers[positions[k]], services[|start| + k]);
      keys := keys + [more];
    }
  }

  lemma ListedExactly(servers: seq<Server>, name: string)
    ensures Listed(servers, name) <==> Exposed(servers, name)
  {
    if l :| l in servers && l.mode == "listener" && name in l.sources {
      assert l.mode == LISTENER;
    }
  }

  lemma ServesExactly(servers: seq<Server>, m: Server)
    ensures Gated(servers, m) <==> Closed(servers, m)
    ensures Converts(servers, m) && Stays(servers, m) <==> Serves(servers, m)
  {
    ListedExactly(servers, m.name);
  }

  lemma {:induction false} FilteredSnoc<A>(keep: A -> bool, xs: seq<A>, x: A)
    ensures Filtered(keep, xs + [x]) == Filtered(keep, xs) + if keep(x) then [x] else []
  {
    assert (xs + [x])[..|xs|] == xs;
  }

  ghost predicate ServeUpTo(servers: seq<Server>, n: nat, positions: seq<nat>) {
    forall i: nat ::
      i in positions <==> i < n && i < |servers| && Converts(servers, servers[i]) && Stays(servers, servers[i])
  }

  lemma {:induction false} SurvivorsPick(servers: seq<Server>, n: nat) returns (positions: seq<nat>)
    requires n <= |servers|
    ensures Picks(servers[..n], positions, Filtered(Staying(servers), Converted(servers, n)))
    ensures ServeUpTo(servers, n, positions)
  {
    positions := [];
    if n > 0 {
      positions := SurvivorsPick(servers, n - 1);
      positions := NextSurvivor(servers, n - 1, n, positions);
    }
  }

  lemma NextSurvivor(servers: seq<Server>, m: nat, n: nat, before: seq<nat>) returns (positions: seq<nat>)
    requires m < |servers| && n == m + 1 && ServeUpTo(servers, m, before)
    requires Picks(servers[..m], before, Filtered(Staying(servers), Converted(servers, m)))
    ensures Picks(servers[..n], positions, Filtered(Staying(servers), Converted(servers, n)))
    ensures ServeUpTo(servers, n, positions)
  {
    var s, ms := servers[m], Converted(servers, m);
    var kept := Filtered(Staying(servers), ms);
    TakeSnoc(servers, m);
    PicksNext(servers[..m], s, before, kept);
    positions := before;
    if Converts(servers, s) {
      assert Converted(servers, n) == ms + [s];
      FilteredSnoc(Staying(servers), ms, s);
      if Stays(servers, s) {
        assert Filtered(Staying(servers), ms + [s]) == kept + [s];
        positions := before + [|servers[..m]|];
      } else {
        assert Filtered(Staying(servers), ms + [s]) == kept + [] == kept;
      }
    } else {
      assert Converted(servers, n) == ms + [] == ms;
    }
  }

  lemma FinalMeans(prefix: string, servers: seq<Server>, m: Server, s: Service) returns (keys: seq<string>)
    requires IsFinalService(prefix, servers, m, s)
    ensures IsServiceOf(prefix, servers, m, s) && OfLabels(prefix, m.labels, keys, s.tags)
  {
    keys := TagsListed(prefix, m.labels);
    ServesExactly(servers, m);
    TaggedMeans(servers, m.name, s.tags, s.proxy.value.tags);
  }

  lemma TaggedMeans(servers: seq<Server>, name: string, tags: seq<string>, more: seq<string>)
    requires Tagged(tags, Buckets(servers, |servers|, name), more)
    ensures WithGiven(servers, name, tags, more)
  {
    var given := Buckets(servers, |servers|, name);
    forall tag ensures tag in given <==> Given(servers, name, tag) {
      GivenMeans(servers, name, tag);
      GivenExactly(servers, name, tag);
    }
    forall tag ensures multiset(more)[tag] ==
                       if tag in tags then multiset(tags)[tag] else if Given(servers, name, tag) then 1 else 0
    {
      assert tag in given - Elements(tags) <==> Given(servers, name, tag) && tag !in tags;
      assert multiset(given - Elements(tags))[tag] == if tag in given - Elements(tags) then 1 else 0;
      assert tag !in tags ==> multiset(tags)[tag] == 0;
    }
  }

  lemma GivenExactly(servers: seq<Server>, name: string, tag: string)
    ensures Given(servers, name, tag) <==> exists l :: l in servers && l.Wires(name) && l.tag == tag
  {
    if l :| l in servers && l.mode == "listener" && name in l.sources && l.tag == tag != "" {
      assert l.Wires(name);
    }
  }

  // ---------------------------------------------------------------------------------------------
  // What the reverter collects
  // ---------------------------------------------------------------------------------------------

  ghost predicate Selects(s: Service, tag: string) {
    s.proxy.Some? && s.proxy.value.mode == "listener" && s.proxy.value.tag == tag != ""
  }

  /** The last service that selects the tag has this name. */
  ghost predicate Leads(services: seq<Service>, tag: string, name: string) {
    exists k :: IsLastSelector(services, tag, k) && services[k].name == name
  }

  ghost predicate IsLastSelector(services: seq<Service>, tag: string, k: int) {
    0 <= k < |services| && Selects(services[k], tag) && forall j :: k < j < |services| ==> !Selects(services[j], tag)
  }

  /** A tag of a service by the position of the service, and its own among the tags of the plugin. */
  datatype TagPlace = TagPlace(service: nat, tag: nat)

  ghost predicate Earlier(x: TagPlace, y: TagPlace) {
    x.service < y.service || (x.service == y.service && x.tag < y.tag)
  }

  /** The tag at this place leads to the listener, which is not the service itself. */
  ghost predicate Sources(services: seq<Service>, listener: string, x: TagPlace) {
    x.service < |services| && services[x.service].proxy.Some? && x.tag < |services[x.service].proxy.value.tags| &&
    Leads(services, services[x.service].proxy.value.tags[x.tag], listener) && services[x.service].name != listener
  }

  /** The names of the services at the places, which are all those in front of a bound, in order. */
  ghost predicate GathersTo(services: seq<Service>, listener: string, bound: TagPlace, places: seq<TagPlace>,
      names: seq<string>) {
    (forall i, j :: 0 <= i < j < |places| ==> Earlier(places[i], places[j])) &&
    (forall x :: x in places <==> Sources(services, listener, x) && Earlier(x, bound)) &&
    |names| == |places| &&
    forall k :: 0 <= k < |places| ==> places[k].service < |services| && names[k] == services[places[k].service].name
  }

  lemma {:induction false} ByTagLast(services: seq<Service>, n: nat, tag: string, name: string)
    requires n <= |services|
    ensures tag in ByTag(services, n) && ByTag(services, n)[tag] == name <==> Leads(services[..n], tag, name)
  {
    if n > 0 {
      var s := services[n - 1];
      ByTagLast(services, n - 1, tag, name);
      TakeSnoc(services, n - 1);
      LeadsNext(services[..n - 1], s, tag, name);
      assert SelectsTag(s) && s.proxy.value.tag == tag <==> Selects(s, tag);
    }
  }

  lemma LeadsNext(services: seq<Service>, s: Service, tag: string, name: string)
    ensures Leads(services + [s], tag, name) <==>
            if Selects(s, tag) then s.name == name else Leads(services, tag, name)
  {
    var more := services + [s];
    assert more[|services|] == s;
    if Selects(s, tag) {
      assert IsLastSelector(more, tag, |services|);
      assert forall k :: IsLastSelector(more, tag, k) ==> k == |services|;
    } else {
      forall k ensures IsLastSelector(more, tag, k) <==> IsLastSelector(services, tag, k) {
        assert forall j :: 0 <= j < |services| ==> more[j] == services[j];
      }
      assert forall k :: IsLastSelector(services, tag, k) ==> more[k] == services[k];
    }
  }

  lemma {:induction false} JoinedCollects(services: seq<Service>, byTag: map<string, string>, listener: string, n: nat,
      j: nat, places: seq<TagPlace>, names: seq<string>) returns (places': seq<TagPlace>)
    requires forall tag :: tag in byTag && byTag[tag] == listener <==> Leads(services, tag, listener)
    requires n < |services| && j <= |TagsOf(services[n])| &&
             GathersTo(services, listener, TagPlace(n, 0), places, names)
    ensures GathersTo(services, listener, TagPlace(n, j), places',
                names + JoinedBy(services[n].name, byTag, listener, TagsOf(services[n])[..j]))
  {
    var s := services[n];
    if j == 0 {
      places' := places;
      assert names + JoinedBy(s.name, byTag, listener, TagsOf(s)[..0]) == names;
    } else {
      places' := JoinedCollects(services, byTag, listener, n, j - 1, places, names);
      var had := names + JoinedBy(s.name, byTag, listener, TagsOf(s)[..j - 1]);
      assert TagsOf(s)[..j][..j - 1] == TagsOf(s)[..j - 1];
      if Sources(services, listener, TagPlace(n, j - 1)) {
        assert names + JoinedBy(s.name, byTag, listener, TagsOf(s)[..j]) == had + [s.name];
        OneMorePlace(services, listener, n, j - 1, places', had);
        places' := places' + [TagPlace(n, j - 1)];
      } else {
        assert names + JoinedBy(s.name, byTag, listener, TagsOf(s)[..j]) == had;
        SamePlaces(services, listener, TagPlace(n, j - 1), TagPlace(n, j), places', had);
      }
    }
  }

  lemma SamePlaces(services: seq<Service>, listener: string, bound: TagPlace, bound': TagPlace, places: seq<TagPlace>,
      names: seq<string>)
    requires GathersTo(services, listener, bound, places, names)
    requires forall x :: Sources(services, listener, x) ==> (Earlier(x, bound) <==> Earlier(x, bound'))
    ensures GathersTo(services, listener, bound', places, names)
  {
  }

  lemma OneMorePlace(services: seq<Service>, listener: string, n: nat, j: nat, places: seq<TagPlace>,
      names: seq<string>)
    requires GathersTo(services, listener, TagPlace(n, j), places, names) && Sources(services, listener, TagPlace(n, j))
    ensures GathersTo(services, listener, TagPlace(n, j + 1), places + [TagPlace(n, j)], names + [services[n].name])
  {
    var more := places + [TagPlace(n, j)];
    assert forall k :: 0 <= k < |places| ==> places[k] in places;
    forall x ensures x in more <==> Sources(services, listener, x) && Earlier(x, TagPlace(n, j + 1)) {
      assert Earlier(x, TagPlace(n, j + 1)) <==> Earlier(x, TagPlace(n, j)) || x == TagPlace(n, j);
    }
  }

  lemma {:induction false} CollectedPlaces(services: seq<Service>, byTag: map<string, string>, listener: string, n: nat)
    returns (places: seq<TagPlace>)
    requires forall tag :: tag in byTag && byTag[tag] == listener <==> Leads(services, tag, listener)
    requires n <= |services|
    ensures GathersTo(services, listener, TagPlace(n, 0), places, Collected(services, byTag, listener, n))
  {
    if n == 0 {
      places := [];
    } else {
      var m := n - 1;
      var tags := TagsOf(services[m]);
      var before := CollectedPlaces(services, byTag, listener, m);
      places := JoinedCollects(services, byTag, listener, m, |tags|, before, Collected(services, byTag, listener, m));
      TakeAll(tags);
      SamePlaces(services, listener, TagPlace(m, |tags|), TagPlace(n, 0), places,
          Collected(services, byTag, listener, n));
    }
  }

  /** A listener collects a service once for each tag of the plugin of the service that leads to it. */
  lemma CollectedMeans(services: seq<Service>, listener: string) returns (places: seq<TagPlace>)
    ensures forall i, j :: 0 <= i < j < |places| ==> Earlier(places[i], places[j])
    ensures forall x :: x in places <==> Sources(services, listener, x)
    ensures |Collected(services, ByTag(services, |services|), listener, |services|)| == |places|
    ensures forall k :: 0 <= k < |places| ==>
              places[k].service < |services| &&
              Collected(services, ByTag(services, |services|), listener, |services|)[k] ==
              services[places[k].service].name
  {
    var byTag := ByTag(services, |services|);
    TakeAll(services);
    forall tag ensures tag in byTag && byTag[tag] == listener <==> Leads(services, tag, listener) {
      ByTagLast(services, |services|, tag, listener);
    }
    places := CollectedPlaces(services, byTag, listener, |services|);
  }

  /** The bucket tags are those that some service selects. */
  lemma BucketsMean(services: seq<Service>, tag: string)
    ensures tag in ByTag(services, |services|) <==> exists i :: 0 <= i < |services| && Selects(services[i], tag)
  {
    TagsSelected(services, |services|, tag);
    assert forall i :: 0 <= i < |services| ==>
        (SelectsTag(services[i]) && services[i].proxy.value.tag == tag <==> Selects(services[i], tag));
  }

  lemma {:induction false} StrippedPicks(tags: seq<string>, buckets: set<string>) returns (positions: seq<nat>)
    ensures Picks(tags, positions, Stripped(tags, buckets))
    ensures forall i: nat :: i in positions <==> i < |tags| && tags[i] !in buckets
  {
    positions := [];
    if tags != [] {
      var init, last := tags[..|tags| - 1], tags[|tags| - 1];
      assert tags == init + [last];
      positions := StrippedPicks(init, buckets);
      PicksNext(init, last, positions, Stripped(init, buckets));
      if last !in buckets {
        positions := positions + [|init|];
      }
    }
  }

  /** Some of the tags spells a label. */
  ghost predicate SpellAny(prefix: string, tags: seq<string>) {
    exists i, key, value :: 0 <= i < |tags| && Spells(prefix, tags[i], key, value)
  }

  ghost predicate Holding(labels: map<string, string>, key: string, value: string) {
    key in labels && labels[key] == value
  }

  /**
    The labels are read from the tags of the plugin without the bucket tags, or from those of the service
    if the former spell none. Of several tags for one key the last counts.
   */
  lemma LabelsReadMean(prefix: string, s: Service, buckets: set<string>)
    returns (own: seq<string>, positions: seq<nat>, left: seq<string>, positions': seq<nat>)
    ensures Picks(TagsOf(s), positions, own) &&
            forall i: nat :: i in positions <==> i < |TagsOf(s)| && TagsOf(s)[i] !in buckets
    ensures Picks(s.tags, positions', left) &&
            forall i: nat :: i in positions' <==> i < |s.tags| && s.tags[i] !in buckets
    ensures forall key, value ::
            Holding(LabelsRead(prefix, s, buckets), key, value) <==>
            LastSpells(prefix, if SpellAny(prefix, own) then own else left, key, value)
  {
    own, left := Stripped(TagsOf(s), buckets), Stripped(s.tags, buckets);
    positions := StrippedPicks(TagsOf(s), buckets);
    positions' := StrippedPicks(s.tags, buckets);
    SpellsSome(prefix, own);
    forall key, value
      ensures Holding(LabelsRead(prefix, s, buckets), key, value) <==>
              LastSpells(prefix, if SpellAny(prefix, own) then own else left, key, value)
    {
      ReadsLast(prefix, own, key, value);
      ReadsLast(prefix, left, key, value);
    }
  }

  lemma SpellsSome(prefix: string, tags: seq<string>)
    ensures SpellAny(prefix, tags) <==> Read(prefix, tags) != map[]
  {
    if i, key, value :| 0 <= i < |tags| && Spells(prefix, tags[i], key, value) {
      ParseSpells(prefix, tags[i]);
      assert Gives(prefix, tags, key, value);
      ReadOnlyGiven(prefix, tags, key);
    }
    if key :| key in Read(prefix, tags) {
      ReadsLast(prefix, tags, key, Read(prefix, tags)[key]);
    }
  }
}
