/**
  Rolling the output document back (convert/issue.go, convertEntity; convert/model.go, convertModels).

  The snapshot of the document is shallow: it copies the slices, not the arrays behind them. The
  entities of the document are restored nevertheless, because every step of a conversion appends
  to a slice, replaces a slice by a modified clone, or writes an element behind the snapshot.
 */
module Rollback {
  import opened GoSlices
  import opened Sequences

  datatype Plugin = Plugin(name: string, config: string)

  /** A consumer holds a slice of its own, so that even its copies share the array of their plugins. */
  datatype Consumer = Consumer(username: string, customID: string, plugins: Slice<Plugin>)

  /** An entity of one of the other lists of the document. */
  datatype Entity = Entity(content: string)

  datatype Document = Document(consumers: Slice<Consumer>, lists: seq<Slice<Entity>>)

  /** What a document denotes, with nothing shared. */
  datatype Value = Value(consumers: seq<Person>, lists: seq<seq<Entity>>)

  datatype Person = Person(username: string, customID: string, plugins: seq<Plugin>)
  {
    predicate Anonymous() {
      username == ANONYMOUS || customID == ANONYMOUS
    }
  }

  const ANONYMOUS := "anonymous"
  const TERMINATION := Plugin("request-termination", "401 Unauthorized")

  // ---------------------------------------------------------------------------------------------
  // Values
  // ---------------------------------------------------------------------------------------------

  ghost predicate PluginsValid(cs: seq<Consumer>) {
    forall i :: 0 <= i < |cs| ==> cs[i].plugins.Valid()
  }

  ghost function PersonOf(c: Consumer): Person
    requires c.plugins.Valid()
    reads c.plugins.data
  {
    Person(c.username, c.customID, c.plugins.Contents())
  }

  ghost function PeopleOf(cs: seq<Consumer>): (ps: seq<Person>)
    requires PluginsValid(cs)
    reads set i | 0 <= i < |cs| :: cs[i].plugins.data
    ensures |ps| == |cs|
  {
    seq(|cs|, i requires 0 <= i < |cs| && PluginsValid(cs) reads if 0 <= i < |cs| then {cs[i].plugins.data} else {} =>
      PersonOf(cs[i]))
  }

  ghost function ListsOf(lists: seq<Slice<Entity>>): (vs: seq<seq<Entity>>)
    requires forall i :: 0 <= i < |lists| ==> lists[i].Valid()
    reads set i | 0 <= i < |lists| :: lists[i].data
    ensures |vs| == |lists|
  {
    seq(|lists|, i requires 0 <= i < |lists| &&
        lists[i].Valid() reads if 0 <= i < |lists| then {lists[i].data} else {} =>
      lists[i].Contents())
  }

  /** The plugins with p in place of the first plugin of its name, or behind all. */
  function With(plugins: seq<Plugin>, p: Plugin): seq<Plugin> {
    if plugins == [] then [p]
    else if plugins[0].name == p.name then [p] + plugins[1..]
    else [plugins[0]] + With(plugins[1..], p)
  }

  function Terminated(p: Person): Person {
    if p.Anonymous() then p.(plugins := With(p.plugins, TERMINATION)) else p
  }

  /** The first n people, with the anonymous ones terminated, and the others. */
  function TerminatedUpTo(ps: seq<Person>, n: nat): (r: seq<Person>)
    ensures |r| == |ps|
  {
    seq(|ps|, i requires 0 <= i < |ps| => if i < n then Terminated(ps[i]) else ps[i])
  }

  /** Some of the first n people are anonymous. */
  predicate SomeAnonymous(ps: seq<Person>, n: nat)
    requires n <= |ps|
  {
    exists i :: 0 <= i < n && ps[i].Anonymous()
  }

  lemma NextTerminated(ps: seq<Person>, i: nat)
    requires i < |ps|
    ensures TerminatedUpTo(ps, i)[i := Terminated(ps[i])] == TerminatedUpTo(ps, i + 1)
    ensures SomeAnonymous(ps, i + 1) == (SomeAnonymous(ps, i) || ps[i].Anonymous())
  {
  }

  /** The consumers after the anonymous consumer is ensured. */
  function Secured(ps: seq<Person>): seq<Person> {
    if SomeAnonymous(ps, |ps|) then TerminatedUpTo(ps, |ps|)
    else
      ps + [Person(ANONYMOUS, ANONYMOUS, [TERMINATION])]
  }

  lemma {:induction false} WithTwice(plugins: seq<Plugin>, p: Plugin)
    ensures With(With(plugins, p), p) == With(plugins, p)
  {
    if plugins != [] && plugins[0].name != p.name {
      WithTwice(plugins[1..], p);
      assert With(plugins, p)[1..] == With(plugins[1..], p);
    }
  }

  /** Ensuring the anonymous consumer again changes nothing. */
  lemma SecuredTwice(ps: seq<Person>)
    ensures Secured(Secured(ps)) == Secured(ps)
  {
    var once := Secured(ps);
    if i :| 0 <= i < |ps| && ps[i].Anonymous() {
      assert once[i].Anonymous();
      forall k | 0 <= k < |ps| ensures Terminated(once[k]) == once[k] {
        WithTwice(ps[k].plugins, TERMINATION);
      }
    } else {
      assert once[|ps|].Anonymous();
      forall k | 0 <= k < |once| ensures Terminated(once[k]) == once[k] {
        WithTwice([], TERMINATION);
      }
    }
  }

  lemma {:induction false} WithAt(plugins: seq<Plugin>, p: Plugin, i: nat)
    requires i <= |plugins| && forall k :: 0 <= k < i ==> plugins[k].name != p.name
    requires i < |plugins| ==> plugins[i].name == p.name
    ensures With(plugins, p) == if i < |plugins| then plugins[i := p] else plugins + [p]
  {
    if i > 0 {
      WithAt(plugins[1..], p, i - 1);
    }
  }

  /** The position of the first plugin of a name, or the number of plugins. */
  function FirstIndex(plugins: seq<Plugin>, name: string): (i: nat)
    ensures i <= |plugins| && forall k :: 0 <= k < i ==> plugins[k].name != name
    ensures i < |plugins| ==> plugins[i].name == name
  {
    if plugins == [] || plugins[0].name == name then 0 else FirstIndex(plugins[1..], name) + 1
  }

  ghost predicate FirstNamed(plugins: seq<Plugin>, name: string, i: int) {
    0 <= i < |plugins| && plugins[i].name == name && forall k :: 0 <= k < i ==> plugins[k].name != name
  }

  /** p has replaced the first plugin of its name, at i, or has come behind all if there was none. */
  ghost predicate Replaced(before: seq<Plugin>, p: Plugin, i: int, after: seq<Plugin>) {
    0 <= i <= |before| && (i < |before| ==> before[i].name == p.name) &&
    |after| == (if i < |before| then |before| else |before| + 1) &&
    FirstNamed(after, p.name, i) && after[i] == p &&
    forall k :: 0 <= k < |before| && k != i ==> after[k] == before[k]
  }

  /** The first plugin of p's name is now p, and every other plugin is as before. */
  lemma WithMeans(plugins: seq<Plugin>, p: Plugin)
    ensures Replaced(plugins, p, FirstIndex(plugins, p.name), With(plugins, p))
  {
    WithAt(plugins, p, FirstIndex(plugins, p.name));
  }

  ghost predicate CalledAnonymous(p: Person) {
    p.username == "anonymous" || p.customID == "anonymous"
  }

  /** q is p with a plugin that rejects every request. */
  ghost predicate Rejecting(p: Person, q: Person) {
    q.username == p.username && q.customID == p.customID &&
    exists i :: Replaced(p.plugins, Plugin("request-termination", "401 Unauthorized"), i, q.plugins)
  }

  /** Every anonymous consumer rejects requests, the others are as before, and one is added if none was anonymous. */
  ghost predicate IsSecured(ps: seq<Person>, qs: seq<Person>) {
    |ps| <= |qs| &&
    (forall k :: 0 <= k < |ps| ==> if CalledAnonymous(ps[k]) then Rejecting(ps[k], qs[k]) else qs[k] == ps[k]) &&
    qs[|ps|..] == (if exists k :: 0 <= k < |ps| && CalledAnonymous(ps[k]) then []
                   else [Person("anonymous", "anonymous", [Plugin("request-termination", "401 Unauthorized")])])
  }

  lemma SecuredMeans(ps: seq<Person>)
    ensures IsSecured(ps, Secured(ps))
  {
    var qs := Secured(ps);
    forall k | 0 <= k < |ps|
      ensures if CalledAnonymous(ps[k]) then Rejecting(ps[k], qs[k]) else qs[k] == ps[k]
    {
      WithMeans(ps[k].plugins, TERMINATION);
    }
  }

  // ---------------------------------------------------------------------------------------------
  // Steps
  // ---------------------------------------------------------------------------------------------

  /** What a conversion step does to the document. */
  datatype Step =
    | Add(list: nat, entity: Entity)
    | Replace(list: nat, edit: seq<Entity> -> seq<Entity>)
    | Write(list: nat, index: nat, entity: Entity)
    | AddConsumer(person: Person)
    | ReplaceConsumers(change: seq<Person> -> seq<Person>)
    | EnsureAnonymous
  {
    predicate OnConsumers() {
      AddConsumer? || ReplaceConsumers? || EnsureAnonymous?
    }
  }

  ghost function Effect(step: Step, v: Value): Value
  {
    if step.OnConsumers() then v.(consumers := Changed(step, v.consumers))
    else if step.list < |v.lists| then v.(lists := v.lists[step.list := Edited(step, v.lists[step.list])])
    else v
  }

  ghost function Changed(step: Step, consumers: seq<Person>): seq<Person>
    requires step.OnConsumers()
  {
    match step
    case AddConsumer(p) => consumers + [p]
    case ReplaceConsumers(change) => change(consumers)
    case EnsureAnonymous => Secured(consumers)
  }

  ghost function Edited(step: Step, list: seq<Entity>): seq<Entity>
    requires !step.OnConsumers()
  {
    match step
    case Add(_, e) => list + [e]
    case Replace(_, edit) => edit(list)
    case Write(_, i, e) => if i < |list| then list[i := e] else list
  }

  lemma EffectOnLists(step: Step, v: Value)
    requires !step.OnConsumers()
    ensures Effect(step, v) == v.(lists := Effect(step, Value([], v.lists)).lists)
  {
  }

  ghost function Effects(steps: seq<Step>, v: Value): Value
  {
    if steps == [] then v else Effect(steps[|steps| - 1], Effects(steps[..|steps| - 1], v))
  }

  /** The step appends to the list. */
  predicate AddsTo(step: Step, l: nat) {
    step.Add? && step.list == l
  }

  /** If steps only append to a list, it ends up with what they append, in order, behind what it held. */
  lemma {:induction false} AddsAppend(steps: seq<Step>, v: Value, l: nat)
    returns (positions: seq<nat>, added: seq<Entity>)
    requires l < |v.lists|
    requires forall k :: 0 <= k < |steps| ==> steps[k].OnConsumers() || steps[k].list != l || steps[k].Add?
    ensures |Effects(steps, v).lists| == |v.lists| && Effects(steps, v).lists[l] == v.lists[l] + added
    ensures Ascending(positions) && |added| == |positions|
    ensures forall k: nat :: k in positions <==> k < |steps| && AddsTo(steps[k], l)
    ensures forall i :: 0 <= i < |positions| ==>
              positions[i] in positions && steps[positions[i]].Add? && added[i] == steps[positions[i]].entity
  {
    positions, added := [], [];
    if steps != [] {
      var n := |steps| - 1;
      positions, added := AddsAppend(steps[..n], v, l);
      if AddsTo(steps[n], l) {
        AscendingNext(positions, n);
        positions, added := positions + [n], added + [steps[n].entity];
      }
    }
  }

  /** A step may write only behind the snapshot, whose lists have the given lengths. */
  ghost predicate Allowed(step: Step, v: Value, floor: seq<nat>) {
    if step.OnConsumers() then true
    else
      step.list < |v.lists| &&
      (step.Write? ==> step.list < |floor| && floor[step.list] <= step.index < |v.lists[step.list]|)
  }

  ghost predicate Disciplined(steps: seq<Step>, v: Value, floor: seq<nat>) {
    forall k :: 0 <= k < |steps| ==> Allowed(steps[k], Effects(steps[..k], v), floor)
  }

  ghost function Lengths(lists: seq<Slice<Entity>>): seq<nat> {
    seq(|lists|, i requires 0 <= i < |lists| => lists[i].len)
  }

  // ---------------------------------------------------------------------------------------------
  // The document in memory
  // ---------------------------------------------------------------------------------------------

  /** Returns a copy of plugins with p, or plugins itself if p is in it; it writes no array of the caller. */
  method WithPlugin(plugins: Slice<Plugin>, p: Plugin) returns (r: Slice<Plugin>, changed: bool)
    requires plugins.Valid()
    ensures r.Valid() && r.Contents() == With(plugins.Contents(), p)
    ensures changed <==> r.Contents() != plugins.Contents()
    ensures if changed then fresh(r.data) else r == plugins
  {
    ghost var was := plugins.Contents();
    var i := 0;
    while i < plugins.len && plugins.data[i].name != p.name
      invariant i <= plugins.len
      invariant forall k :: 0 <= k < i ==> was[k].name != p.name
    {
      i := i + 1;
    }
    WithAt(was, p, i);
    if i < plugins.len && plugins.data[i] == p {
      return plugins, false;
    }
    r := Clone(plugins, 0);
    changed := true;
    if i < plugins.len {
      r.data[i] := p;
    } else {
      r := Append(r, p);
    }
  }

  ghost predicate ConsumersValid(s: Slice<Consumer>)
    reads s.data
  {
    s.Valid() && PluginsValid(s.Contents())
  }

  ghost function ArraysOf(lists: seq<Slice<Entity>>): set<object> {
    set i | 0 <= i < |lists| :: lists[i].data
  }

  /** Each list has an array of its own. */
  ghost predicate ListsValid(lists: seq<Slice<Entity>>) {
    (forall i :: 0 <= i < |lists| ==> lists[i].Valid()) &&
    (forall i, j :: 0 <= i < j < |lists| ==> lists[i].data != lists[j].data)
  }

  ghost predicate Is(c: Consumer, p: Person)
    reads c.plugins.data
  {
    c.plugins.Valid() && PersonOf(c) == p
  }

  /** The consumers of s, in order, are these people. */
  ghost predicate Are(s: Slice<Consumer>, ps: seq<Person>)
    reads s.data, set i | 0 <= i < s.len && i < s.data.Length :: s.data[i].plugins.data
  {
    s.Valid() && |ps| == s.len && forall k :: 0 <= k < s.len ==> Is(s.data[k], ps[k])
  }

  lemma ArePeople(s: Slice<Consumer>, ps: seq<Person>)
    requires Are(s, ps)
    ensures ConsumersValid(s) && PeopleOf(s.Contents()) == ps
  {
    forall k | 0 <= k < s.len ensures s.Contents()[k].plugins.Valid() && PersonOf(s.Contents()[k]) == ps[k] {
      assert Is(s.data[k], ps[k]);
    }
    assert PluginsValid(s.Contents());
    assert forall k :: 0 <= k < s.len ==> PeopleOf(s.Contents())[k] == ps[k];
  }

  lemma PeopleAre(s: Slice<Consumer>)
    requires ConsumersValid(s)
    ensures Are(s, PeopleOf(s.Contents()))
  {
    forall k | 0 <= k < s.len ensures Is(s.data[k], PeopleOf(s.Contents())[k]) {
      assert s.Contents()[k] == s.data[k];
    }
  }

  method SetPlugins(s: Slice<Consumer>, i: nat, plugins: Slice<Plugin>, ghost ps: seq<Person>)
    requires Are(s, ps) && i < s.len && plugins.Valid()
    modifies s.data
    ensures Are(s, ps[i := ps[i].(plugins := plugins.Contents())])
  {
    assert Is(s.data[i], ps[i]);
    s.data[i] := s.data[i].(plugins := plugins);
  }

  method CloneConsumers(s: Slice<Consumer>, ghost ps: seq<Person>) returns (r: Slice<Consumer>)
    requires Are(s, ps)
    ensures fresh(r.data) && Are(r, ps)
  {
    r := Clone(s, 0);
    assert s.Contents()[0..] == s.Contents();
    forall k | 0 <= k < r.len ensures Is(r.data[k], ps[k]) {
      assert r.Contents()[k] == s.Contents()[k];
      assert Is(s.data[k], ps[k]);
    }
  }

  /** Secures consumer i of r, which is s or a clone of it. */
  method SecureOne(s: Slice<Consumer>, r: Slice<Consumer>, i: nat, ghost before: seq<Person>, ghost now: seq<Person>)
    returns (r': Slice<Consumer>, anonymous: bool)
    requires Are(s, before) && Are(r, now) && i < s.len == r.len && now[i] == before[i]
    requires r.data == s.data ==> r == s
    modifies if r.data == s.data then {} else {r.data}
    ensures r' == r || fresh(r'.data)
    ensures Are(r', now[i := Terminated(now[i])])
    ensures anonymous == before[i].Anonymous()
  {
    r', anonymous := r, false;
    var c := s.data[i];
    assert Is(c, before[i]);
    if c.username == ANONYMOUS || c.customID == ANONYMOUS {
      anonymous := true;
      var plugins, changed := WithPlugin(c.plugins, TERMINATION);
      if changed {
        if r.data == s.data {
          r' := CloneConsumers(s, now);
        }
        SetPlugins(r', i, plugins, now);
      }
    }
  }

  /** Gives the anonymous consumers among s the termination plugin, in a clone of s if any lacks it. */
  method SecureConsumers(s: Slice<Consumer>, ghost before: seq<Person>) returns (r: Slice<Consumer>, provided: bool)
    requires Are(s, before)
    ensures r == s || fresh(r.data)
    ensures Are(r, TerminatedUpTo(before, s.len)) && |before| == s.len
    ensures provided == SomeAnonymous(before, s.len)
  {
    r, provided := s, false;
    assert TerminatedUpTo(before, 0) == before;
    for i := 0 to s.len
      invariant r == s || fresh(r.data)
      invariant Are(s, before) && Are(r, TerminatedUpTo(before, i))
      invariant |before| == s.len && provided == SomeAnonymous(before, i)
    {
      NextTerminated(before, i);
      var anonymous: bool;
      r, anonymous := SecureOne(s, r, i, before, TerminatedUpTo(before, i));
      provided := provided || anonymous;
    }
  }

  /** A consumer with plugins in an array of its own. */
  method NewConsumer(p: Person) returns (c: Consumer)
    ensures Is(c, p) && fresh(c.plugins.data)
  {
    var plugins := new Plugin[|p.plugins|](i requires 0 <= i < |p.plugins| => p.plugins[i]);
    c := Consumer(p.username, p.customID, Slice(plugins, |p.plugins|));
    assert plugins[..|p.plugins|] == p.plugins;
  }

  /** Appends a consumer, possibly in place behind s. */
  method AddPerson(s: Slice<Consumer>, ghost ps: seq<Person>, p: Person) returns (r: Slice<Consumer>)
    requires Are(s, ps)
    modifies s.data
    ensures Are(r, ps + [p])
    ensures Are(s, ps) && s.Contents() == old(s.Contents())
    ensures fresh(r.data) || (r.data == s.data && r.len >= s.len)
  {
    var consumer := NewConsumer(p);
    r := Append(s, consumer);
    forall k | 0 <= k < s.len ensures r.data[k] == old(s.data[k]) == s.data[k] {
      assert r.Contents()[k] == old(s.Contents())[k] == s.Contents()[k];
    }
    assert r.Contents()[s.len] == consumer;
  }

  /** Appends a consumer to s, in front of a snapshot base that denotes kept. */
  method AddPersonOver(s: Slice<Consumer>, ghost ps: seq<Person>, p: Person,
      ghost base: Slice<Consumer>, ghost kept: seq<Person>)
    returns (r: Slice<Consumer>)
    requires Are(s, ps) && Are(base, kept) && Grown(base, s)
    modifies s.data
    ensures Are(r, ps + [p])
    ensures Are(base, kept) && Grown(base, r)
    ensures fresh(r.data) || r.data == s.data
  {
    r := AddPerson(s, ps, p);
    forall k | 0 <= k < base.len ensures base.data[k] == old(base.data[k]) {
      if base.data == s.data {
        assert s.Contents()[k] == old(s.Contents())[k];
      }
    }
  }

  /** What the consumers of s are. */
  method ReadPeople(s: Slice<Consumer>, ghost ps: seq<Person>) returns (people: seq<Person>)
    requires Are(s, ps)
    ensures people == ps
  {
    people := [];
    for k := 0 to s.len
      invariant people == ps[..k]
    {
      var c := s.data[k];
      assert Is(c, ps[k]);
      people := people + [Person(c.username, c.customID, c.plugins.data[..c.plugins.len])];
    }
  }

  /** Replaces the consumers by an edited clone, with arrays of its own throughout. */
  method EditPeople(s: Slice<Consumer>, ghost ps: seq<Person>, edit: seq<Person> -> seq<Person>)
    returns (r: Slice<Consumer>)
    requires Are(s, ps)
    ensures fresh(r.data) && Are(r, edit(ps))
  {
    var people := ReadPeople(s, ps);
    var edited := edit(people);
    var data := new Consumer[0];
    r := Slice(data, 0);
    for k := 0 to |edited|
      invariant fresh(r.data) && Are(r, edited[..k])
    {
      r := AddPerson(r, edited[..k], edited[k]);
      assert edited[..k] + [edited[k]] == edited[..k + 1];
    }
    assert edited[..|edited|] == edited;
  }

  /** Ensures the anonymous consumer in s, in front of a snapshot base that denotes kept. */
  method EnsureIn(s: Slice<Consumer>, ghost ps: seq<Person>, ghost base: Slice<Consumer>, ghost kept: seq<Person>)
    returns (r: Slice<Consumer>)
    requires Are(s, ps) && Are(base, kept) && Grown(base, s)
    modifies s.data
    ensures Are(r, Secured(ps)) && Are(base, kept) && Grown(base, r)
    ensures fresh(r.data) || r.data == s.data
  {
    var provided;
    r, provided := SecureConsumers(s, ps);
    if !provided {
      assert TerminatedUpTo(ps, |ps|) == ps;
      r := AddPersonOver(r, ps, Person(ANONYMOUS, ANONYMOUS, [TERMINATION]), base, kept);
    }
  }

  /** The lists hold these values. */
  ghost predicate Hold(lists: seq<Slice<Entity>>, vs: seq<seq<Entity>>)
    reads ArraysOf(lists)
  {
    |vs| == |lists| && forall i :: 0 <= i < |lists| ==> lists[i].Valid() && lists[i].Contents() == vs[i]
  }

  lemma HoldLists(lists: seq<Slice<Entity>>)
    requires ListsValid(lists)
    ensures Hold(lists, ListsOf(lists))
    ensures forall vs :: Hold(lists, vs) ==> vs == ListsOf(lists)
  {
  }

  /** No list reaches behind the snapshot: it has grown from its own list in base, or has an array of its own. */
  ghost predicate Covers(base: seq<Slice<Entity>>, lists: seq<Slice<Entity>>) {
    |base| == |lists| &&
    forall i, j :: 0 <= i < |lists| && 0 <= j < |base| && lists[i].data == base[j].data ==>
        i == j && base[j].len <= lists[i].len
  }

  /** Performs a step on one list; the elements in front of floor stay as they are. */
  method StepSlice(step: Step, s: Slice<Entity>, ghost floor: nat) returns (r: Slice<Entity>)
    requires !step.OnConsumers() && s.Valid() && floor <= s.len
    requires step.Write? ==> floor <= step.index < s.len
    modifies s.data
    ensures r.Valid() && r.Contents() == Edited(step, old(s.Contents()))
    ensures s.data[..floor] == old(s.data[..floor])
    ensures fresh(r.data) || (r.data == s.data && floor <= r.len)
  {
    match step {
      case Add(_, e) =>
        r := Append(s, e);
        assert s.data[..floor] == s.data[..s.len][..floor];
      case Replace(_, edit) =>
        var edited := edit(s.data[..s.len]);
        var data := new Entity[|edited|](i requires 0 <= i < |edited| => edited[i]);
        r := Slice(data, |edited|);
        assert data[..|edited|] == edited;
      case Write(_, i, e) =>
        s.data[i] := e;
        r := s;
    }
  }

  /** Performs a step on one list, in front of a snapshot base that denotes kept. */
  method StepList(step: Step, lists: seq<Slice<Entity>>, ghost vs: seq<seq<Entity>>,
      ghost base: seq<Slice<Entity>>, ghost kept: seq<seq<Entity>>)
    returns (r: seq<Slice<Entity>>)
    requires !step.OnConsumers() && ListsValid(lists) && Hold(lists, vs)
    requires ListsValid(base) && Hold(base, kept) && Covers(base, lists)
    requires Allowed(step, Value([], vs), Lengths(base))
    modifies ArraysOf(lists)
    ensures ListsValid(r) && Hold(r, Effect(step, Value([], vs)).lists)
    ensures Hold(base, kept) && Covers(base, r)
    ensures forall i :: 0 <= i < |r| ==> fresh(r[i].data) || (i < |lists| && r[i].data == lists[i].data)
  {
    var l := step.list;
    var s := StepSlice(step, lists[l], if base[l].data == lists[l].data then base[l].len else 0);
    r := lists[l := s];
    assert Effect(step, Value([], vs)).lists == vs[l := Edited(step, vs[l])];
    assert forall i :: 0 <= i < |lists| && i != l ==> lists[i].data[..] == old(lists[i].data[..]);
    assert forall j :: 0 <= j < |base| && j != l ==> base[j].data != lists[l].data;
  }

  // ---------------------------------------------------------------------------------------------
  // Snapshot and rollback
  // ---------------------------------------------------------------------------------------------

  ghost function Arrays(d: Document): set<object> {
    {d.consumers.data} + ArraysOf(d.lists)
  }

  ghost predicate DocumentValid(d: Document)
    reads d.consumers.data
  {
    ConsumersValid(d.consumers) && ListsValid(d.lists)
  }

  /** The value of a document in the current state. */
  ghost function View(d: Document): Value
    requires DocumentValid(d)
    reads d.consumers.data, ArraysOf(d.lists), set i | 0 <= i < d.consumers.len &&
        i < d.consumers.data.Length :: d.consumers.data[i].plugins.data
  {
    assert forall i :: 0 <= i < d.consumers.len ==> d.consumers.Contents()[i] == d.consumers.data[i];
    Value(PeopleOf(d.consumers.Contents()), ListsOf(d.lists))
  }

  /** The document denotes v, and base still denotes kept and is out of its reach. */
  ghost predicate Safe(d: Document, v: Value, base: Document, kept: Value)
    reads d.consumers.data, ArraysOf(d.lists), set i | 0 <= i < d.consumers.len &&
        i < d.consumers.data.Length :: d.consumers.data[i].plugins.data
    reads base.consumers.data, ArraysOf(base.lists), set i | 0 <= i < base.consumers.len &&
        i < base.consumers.data.Length :: base.consumers.data[i].plugins.data
  {
    ListsValid(d.lists) && ListsValid(base.lists) &&
    Are(d.consumers, v.consumers) && Hold(d.lists, v.lists) &&
    Are(base.consumers, kept.consumers) && Hold(base.lists, kept.lists) &&
    Covers(base.lists, d.lists) && Grown(base.consumers, d.consumers)
  }

  lemma ViewSafe(d: Document)
    requires DocumentValid(d)
    ensures Safe(d, View(d), d, View(d))
  {
    PeopleAre(d.consumers);
    HoldLists(d.lists);
  }

  lemma SafeView(d: Document, v: Value, base: Document, kept: Value)
    requires Safe(d, v, base, kept)
    ensures DocumentValid(d) && View(d) == v
    ensures DocumentValid(base) && View(base) == kept
  {
    ArePeople(d.consumers, v.consumers);
    ArePeople(base.consumers, kept.consumers);
    HoldLists(d.lists);
    HoldLists(base.lists);
  }

  class Converter {
    var out: Document

    /** Makes sure that the document has a consumer for unauthenticated requests, and that it rejects them. */
    method EnsureAnonymousConsumer(ghost v: Value, ghost base: Document, ghost kept: Value)
      requires Safe(out, v, base, kept)
      modifies this, out.consumers.data
      ensures Safe(out, v.(consumers := Secured(v.consumers)), base, kept)
      ensures IsSecured(v.consumers, Secured(v.consumers))
      ensures out.lists == old(out.lists)
      ensures fresh(out.consumers.data) || out.consumers.data == old(out.consumers.data)
    {
      var consumers := EnsureIn(out.consumers, v.consumers, base.consumers, kept.consumers);
      out := out.(consumers := consumers);
      SecuredMeans(v.consumers);
    }

    method Perform(step: Step, ghost v: Value, ghost base: Document, ghost kept: Value)
      requires Safe(out, v, base, kept) && Allowed(step, v, Lengths(base.lists))
      modifies this, Arrays(out)
      ensures Safe(out, Effect(step, v), base, kept)
      ensures forall a :: a in Arrays(out) ==> fresh(a) || a in old(Arrays(out))
    {
      if step.OnConsumers() {
        PerformOnConsumers(step, v, base, kept);
      } else {
        PerformOnLists(step, v, base, kept);
      }
    }

    method PerformOnConsumers(step: Step, ghost v: Value, ghost base: Document, ghost kept: Value)
      requires Safe(out, v, base, kept) && step.OnConsumers()
      modifies this, out.consumers.data
      ensures Safe(out, Effect(step, v), base, kept)
      ensures out.lists == old(out.lists)
      ensures fresh(out.consumers.data) || out.consumers.data == old(out.consumers.data)
    {
      match step {
        case AddConsumer(p) =>
          var consumers := AddPersonOver(out.consumers, v.consumers, p, base.consumers, kept.consumers);
          out := out.(consumers := consumers);
        case ReplaceConsumers(change) =>
          var consumers := EditPeople(out.consumers, v.consumers, change);
          out := out.(consumers := consumers);
        case EnsureAnonymous =>
          EnsureAnonymousConsumer(v, base, kept);
      }
    }

    method PerformOnLists(step: Step, ghost v: Value, ghost base: Document, ghost kept: Value)
      requires Safe(out, v, base, kept) && Allowed(step, v, Lengths(base.lists)) && !step.OnConsumers()
      modifies this, ArraysOf(out.lists)
      ensures Safe(out, Effect(step, v), base, kept)
      ensures out.consumers == old(out.consumers)
      ensures forall a :: a in ArraysOf(out.lists) ==> fresh(a) || a in old(ArraysOf(out.lists))
    {
      EffectOnLists(step, v);
      ghost var consumers := out.consumers;
      var lists := StepList(step, out.lists, v.lists, base.lists, kept.lists);
      forall k | 0 <= k < consumers.len ensures Is(consumers.data[k], v.consumers[k]) {
        assert old(Is(consumers.data[k], v.consumers[k]));
      }
      forall k | 0 <= k < base.consumers.len ensures Is(base.consumers.data[k], kept.consumers[k]) {
        assert old(Is(base.consumers.data[k], kept.consumers[k]));
      }
      out := out.(lists := lists);
    }

    method PerformAll(steps: seq<Step>, ghost v: Value, ghost base: Document, ghost kept: Value)
      requires Safe(out, v, base, kept) && Disciplined(steps, v, Lengths(base.lists))
      modifies this, Arrays(out)
      ensures Safe(out, Effects(steps, v), base, kept)
      ensures forall a :: a in Arrays(out) ==> fresh(a) || a in old(Arrays(out))
    {
      for k := 0 to |steps|
        invariant Safe(out, Effects(steps[..k], v), base, kept)
        invariant forall a :: a in Arrays(out) ==> fresh(a) || a in old(Arrays(out))
      {
        Perform(steps[k], Effects(steps[..k], v), base, kept);
        assert steps[..k + 1][..k] == steps[..k];
      }
      assert steps[..|steps|] == steps;
    }

    /** Converts one entity. A failed entity leaves the document as it was, although the snapshot is shallow. */
    method ConvertEntity(steps: seq<Step>, fails: bool)
      requires DocumentValid(out) && Disciplined(steps, View(out), Lengths(out.lists))
      modifies this, Arrays(out)
      ensures DocumentValid(out)
      ensures View(out) == if fails then old(View(out)) else Effects(steps, old(View(out)))
    {
      var snapshot := out;
      ghost var v := View(out);
      ViewSafe(out);
      PerformAll(steps, v, snapshot, v);
      SafeView(out, Effects(steps, v), snapshot, v);
      if fails {
        out := snapshot;
      }
    }

    /** Restores one snapshot after each pass but the last: only the last pass shows in the document. */
    method ConvertPasses(passes: seq<seq<Step>>)
      requires passes != [] && DocumentValid(out)
      requires forall k :: 0 <= k < |passes| ==> Disciplined(passes[k], View(out), Lengths(out.lists))
      modifies this, Arrays(out)
      ensures DocumentValid(out)
      ensures View(out) == Effects(passes[|passes| - 1], old(View(out)))
    {
      var snapshot := out;
      ghost var v := View(out);
      ViewSafe(out);
      for k := 0 to |passes| - 1
        invariant out == snapshot && Safe(out, v, snapshot, v)
      {
        PerformAll(passes[k], v, snapshot, v);
        out := snapshot;
        assert Safe(out, v, snapshot, v);
      }
      PerformAll(passes[|passes| - 1], v, snapshot, v);
      SafeView(out, Effects(passes[|passes| - 1], v), snapshot, v);
    }
  }
}
