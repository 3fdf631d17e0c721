/**
  Merging the plugin copies of one model (revert/model.go, mergeableAliasFKs).

  The converter writes one ai-proxy-advanced plugin for each alias of a model and marks the
  ai_models rows of the aliases with the first alias. The reverter finds such copies on a route,
  puts the copy of the marked alias first, and redirects the other aliases to it. It does not
  trust the order of the plugins.
 */
module AliasMerge {
  import opened Sequences

  datatype Target = Target(modelAlias: Option<string>, rest: string)

  /** An ai-proxy-advanced plugin; config stands for everything but its targets. */
  datatype Plugin = Plugin(model: Option<string>, config: string, targets: seq<Target>)

  /** The config with the alias of every target left out. */
  datatype Shape = Shape(config: string, targets: seq<string>)

  function ShapeOf(p: Plugin): Shape {
    Shape(p.config, seq(|p.targets|, i requires 0 <= i < |p.targets| => p.targets[i].rest))
  }

  /** Copies of one model agree on the marker of their row and on their shape. */
  datatype ClassKey = ClassKey(group: string, shape: Shape)

  /** The marker of each ai_models row; rows without a marker, and missing rows, have none. */
  type Markers = map<string, string>

  function GroupOf(markers: Markers, name: string): string {
    if name in markers then markers[name] else ""
  }

  /** The class of a plugin, if it can be in one. */
  function KeyOf(markers: Markers, p: Plugin): Option<ClassKey> {
    if p.model.None? || GroupOf(markers, p.model.value) == "" then None
    else Some(ClassKey(GroupOf(markers, p.model.value), ShapeOf(p)))
  }

  /** The rows of both plugins have one marker, and the plugins agree on all but the aliases of their targets. */
  ghost predicate InOneClass(markers: Markers, p: Plugin, q: Plugin) {
    p.model.Some? && q.model.Some? && p.model.value in markers && q.model.value in markers &&
    markers[p.model.value] == markers[q.model.value] != "" && p.config == q.config && |p.targets| == |q.targets| &&
    forall i :: 0 <= i < |p.targets| ==> p.targets[i].rest == q.targets[i].rest
  }

  lemma InOneClassExactly(markers: Markers, p: Plugin, q: Plugin)
    ensures KeyOf(markers, p).Some? && KeyOf(markers, p) == KeyOf(markers, q) <==> InOneClass(markers, p, q)
    ensures KeyOf(markers, p).Some? ==> KeyOf(markers, p).value.group == markers[p.model.value]
  {
    if InOneClass(markers, p, q) {
      assert ShapeOf(p).targets == ShapeOf(q).targets;
    }
    if ShapeOf(p) == ShapeOf(q) {
      assert |ShapeOf(p).targets| == |p.targets| && |ShapeOf(q).targets| == |q.targets|;
      forall i | 0 <= i < |p.targets| ensures p.targets[i].rest == q.targets[i].rest {
        assert ShapeOf(p).targets[i] == ShapeOf(q).targets[i];
      }
    }
  }

  /** What the merge looks at in a plugin: its class, its alias, and whether the marker names that alias. */
  datatype Slot = Slot(key: Option<ClassKey>, fk: string)
  {
    predicate Marked() {
      key.Some? && fk == key.value.group
    }
  }

  function SlotOf(markers: Markers, p: Plugin): Slot {
    Slot(KeyOf(markers, p), if p.model.Some? then p.model.value else "")
  }

  function SlotsOf(markers: Markers, ps: seq<Plugin>): (slots: seq<Slot>)
    ensures |slots| == |ps|
  {
    seq(|ps|, i requires 0 <= i < |ps| => SlotOf(markers, ps[i]))
  }

  /** The first member and the canonical member of a class, by position. */
  datatype Class = Class(first: nat, canonical: nat)

  type Classes = map<ClassKey, Class>

  // ---------------------------------------------------------------------------------------------
  // What the merge has to give
  // ---------------------------------------------------------------------------------------------

  ghost predicate Member(slots: seq<Slot>, n: nat, key: ClassKey, i: int)
    requires n <= |slots|
  {
    0 <= i < n && slots[i].key == Some(key)
  }

  /** c is the class of key in slots: its first member, and its first marked member or else the first. */
  ghost predicate IsClass(slots: seq<Slot>, n: nat, key: ClassKey, c: Class)
    requires n <= |slots|
  {
    Member(slots, n, key, c.first) && Member(slots, n, key, c.canonical) &&
    (forall j :: Member(slots, n, key, j) ==> c.first <= j) &&
    (if slots[c.canonical].Marked() then forall j :: Member(slots, n, key, j) && slots[j].Marked() ==> c.canonical <= j
     else c.canonical == c.first && forall j :: Member(slots, n, key, j) ==> !slots[j].Marked())
  }

  /** classes holds exactly the classes of the first n slots. */
  ghost predicate AreClasses(slots: seq<Slot>, n: nat, classes: Classes)
    requires n <= |slots|
  {
    (forall key :: key in classes ==> IsClass(slots, n, key, classes[key])) &&
    (forall i :: 0 <= i < n && slots[i].key.Some? ==> slots[i].key.value in classes)
  }

  /** The class of slot i; a slot outside every class is a class of its own. */
  function ClassOf(slots: seq<Slot>, classes: Classes, i: nat): Class
    requires i < |slots|
  {
    var key := slots[i].key;
    if key.Some? && key.value in classes then classes[key.value] else Class(i, i)
  }

  /** The positions that slot i contributes to the new order. */
  function Emitted(slots: seq<Slot>, classes: Classes, i: nat): seq<nat>
    requires i < |slots|
  {
    var c := ClassOf(slots, classes, i);
    if i == c.first then if c.canonical == i then [i] else [c.canonical, i]
    else if i == c.canonical then []
    else [i]
  }

  /** The new order of the first n slots, as positions. */
  function Order(slots: seq<Slot>, classes: Classes, n: nat): seq<nat>
    requires n <= |slots|
  {
    if n == 0 then [] else Order(slots, classes, n - 1) + Emitted(slots, classes, n - 1)
  }

  /** The redirections that the first n slots give: the alias of each other member of a class, to the canonical one. */
  function Redirects(slots: seq<Slot>, classes: Classes, n: nat): map<string, string>
    requires n <= |slots|
  {
    if n == 0 then map[] else
      var before, canonical := Redirects(slots, classes, n - 1), ClassOf(slots, classes, n - 1).canonical;
      if canonical == n - 1 || canonical >= |slots| then before
      else before[slots[n - 1].fk := slots[canonical].fk]
  }

  // ---------------------------------------------------------------------------------------------
  // The merge
  // ---------------------------------------------------------------------------------------------

  method FindClasses(slots: seq<Slot>) returns (classes: Classes)
    ensures AreClasses(slots, |slots|, classes)
  {
    classes := map[];
    for i := 0 to |slots|
      invariant AreClasses(slots, i, classes)
    {
      classes := Classify(slots, i, classes);
    }
  }

  method Classify(slots: seq<Slot>, i: nat, classes: Classes) returns (classes': Classes)
    requires i < |slots| && AreClasses(slots, i, classes)
    ensures AreClasses(slots, i + 1, classes')
  {
    classes' := classes;
    var key := slots[i].key;
    if key.Some? {
      if key.value !in classes {
        classes' := classes[key.value := Class(i, i)];
      } else {
        var c := classes[key.value];
        if slots[i].fk == key.value.group && slots[c.canonical].fk != key.value.group {
          classes' := classes[key.value := Class(c.first, i)];
        }
      }
    }
    ghost var n := i + 1;
    forall k | k in classes' ensures IsClass(slots, n, k, classes'[k]) {
      if k in classes {
        ClassGrows(slots, i, n, k, classes[k]);
      } else {
        NoMembers(slots, i, classes, k);
        ClassStarts(slots, i, n, k);
      }
    }
  }

  lemma NoMembers(slots: seq<Slot>, n: nat, classes: Classes, key: ClassKey)
    requires n <= |slots| && AreClasses(slots, n, classes) && key !in classes
    ensures forall j :: !Member(slots, n, key, j)
  {
  }

  lemma MembersGrow(slots: seq<Slot>, i: nat, n: nat, key: ClassKey)
    requires i < |slots| && n == i + 1
    ensures forall j :: Member(slots, n, key, j) <==> Member(slots, i, key, j) || (j == i && slots[i].key == Some(key))
  {
  }

  lemma ClassStarts(slots: seq<Slot>, i: nat, n: nat, key: ClassKey)
    requires i < |slots| && n == i + 1 && slots[i].key == Some(key)
    requires forall j :: !Member(slots, i, key, j)
    ensures IsClass(slots, n, key, Class(i, i))
  {
    MembersGrow(slots, i, n, key);
  }

  lemma ClassGrows(slots: seq<Slot>, i: nat, n: nat, key: ClassKey, c: Class)
    requires i < |slots| && n == i + 1 && IsClass(slots, i, key, c)
    ensures IsClass(slots, n, key,
                    if slots[i].key == Some(key) && slots[i].Marked() && !slots[c.canonical].Marked()
                    then Class(c.first, i) else c)
  {
    MembersGrow(slots, i, n, key);
  }

  method MergeableAliasFKs(markers: Markers, ps: seq<Plugin>)
    returns (ordered: seq<Plugin>, redirect: map<string, string>)
    ensures IsMerged(ps, SlotsOf(markers, ps), ordered, redirect)
  {
    var slots := SlotsOf(markers, ps);
    var classes := FindClasses(slots);
    ordered, redirect := MergeSlots(ps, slots, classes);
  }

  /** The plugins in the order that their classes give, and the redirections of those classes. */
  ghost predicate IsMerged(ps: seq<Plugin>, slots: seq<Slot>, ordered: seq<Plugin>, redirect: map<string, string>)
    requires |slots| == |ps|
  {
    exists classes :: AreClasses(slots, |slots|, classes) &&
      (forall i :: i in Order(slots, classes, |slots|) ==> i < |ps|) &&
      ordered == At(ps, Order(slots, classes, |slots|)) && redirect == Redirects(slots, classes, |slots|)
  }

  method MergeSlots(ps: seq<Plugin>, slots: seq<Slot>, classes: Classes)
    returns (ordered: seq<Plugin>, redirect: map<string, string>)
    requires |slots| == |ps| && AreClasses(slots, |slots|, classes)
    ensures forall i :: i in Order(slots, classes, |ps|) ==> i < |ps|
    ensures ordered == At(ps, Order(slots, classes, |ps|))
    ensures redirect == Redirects(slots, classes, |ps|)
  {
    ordered, redirect := [], map[];
    ghost var order: seq<nat> := [];
    for i := 0 to |ps|
      invariant order == Order(slots, classes, i) && forall j :: j in order ==> j < |ps|
      invariant ordered == At(ps, order)
      invariant redirect == Redirects(slots, classes, i)
    {
      ghost var emitted := Emitted(slots, classes, i);
      var chosen;
      chosen, redirect := MergeOne(ps, slots, classes, i, redirect);
      AtConcat(ps, order, emitted);
      ordered, order := ordered + chosen, order + emitted;
    }
  }

  /** What plugin i adds to the order and to the redirections. */
  method MergeOne(ps: seq<Plugin>, slots: seq<Slot>, classes: Classes, i: nat, redirect: map<string, string>)
    returns (chosen: seq<Plugin>, redirect': map<string, string>)
    requires i < |slots| == |ps| && AreClasses(slots, |slots|, classes)
    ensures forall j :: j in Emitted(slots, classes, i) ==> j < |ps|
    ensures chosen == At(ps, Emitted(slots, classes, i))
    ensures redirect' == var canonical := ClassOf(slots, classes, i).canonical;
                         if canonical == i then redirect else redirect[slots[i].fk := slots[canonical].fk]
    ensures ClassOf(slots, classes, i).canonical < |slots|
  {
    redirect' := redirect;
    var key := slots[i].key;
    if key.None? || key.value !in classes {
      return [ps[i]], redirect;
    }
    var c := classes[key.value];
    var canon := ps[c.canonical];
    if i == c.first {
      chosen := [canon];
      if c.canonical != i {
        chosen := chosen + [ps[i]];
      }
    } else if i == c.canonical {
      chosen := [];
    } else {
      chosen := [ps[i]];
    }
    if i != c.canonical {
      redirect' := redirect'[slots[i].fk := slots[c.canonical].fk];
    }
  }

  // ---------------------------------------------------------------------------------------------
  // What the merge promises
  // ---------------------------------------------------------------------------------------------

  /** Position i belongs to the order of the first n slots. */
  predicate Placed(slots: seq<Slot>, classes: Classes, n: nat, i: int) {
    0 <= i < |slots| && (i < n || (ClassOf(slots, classes, i).canonical == i && ClassOf(slots, classes, i).first < n))
  }

  lemma SameClass(slots: seq<Slot>, classes: Classes, i: nat)
    requires AreClasses(slots, |slots|, classes) && i < |slots|
    ensures var c := ClassOf(slots, classes, i);
            c.first <= i && c.first <= c.canonical < |slots| &&
            slots[c.first].key == slots[c.canonical].key == slots[i].key &&
            ClassOf(slots, classes, c.first) == ClassOf(slots, classes, c.canonical) == c
  {
    var key := slots[i].key;
    if key.Some? {
      assert Member(slots, |slots|, key.value, i);
    }
  }

  lemma EmittedOrPlaced(slots: seq<Slot>, classes: Classes, n: nat, i: int)
    requires AreClasses(slots, |slots|, classes) && 0 < n <= |slots|
    ensures Placed(slots, classes, n, i) <==>
            Placed(slots, classes, n - 1, i) || i in Emitted(slots, classes, n - 1)
    ensures !(Placed(slots, classes, n - 1, i) && i in Emitted(slots, classes, n - 1))
  {
    SameClass(slots, classes, n - 1);
    if 0 <= i < |slots| {
      SameClass(slots, classes, i);
    }
  }

  /** The order so far holds the first n positions and the canonical positions of the classes met, each once. */
  lemma {:induction false} OrderHolds(slots: seq<Slot>, classes: Classes, n: nat)
    requires AreClasses(slots, |slots|, classes) && n <= |slots|
    ensures NoDup(Order(slots, classes, n))
    ensures forall i :: i in Order(slots, classes, n) <==> Placed(slots, classes, n, i)
  {
    if n > 0 {
      OrderHolds(slots, classes, n - 1);
      var m := n - 1;
      forall i: int
        ensures Placed(slots, classes, n, i) <==> Placed(slots, classes, m, i) || i in Emitted(slots, classes, m)
        ensures !(Placed(slots, classes, m, i) && i in Emitted(slots, classes, m))
      {
        EmittedOrPlaced(slots, classes, n, i);
      }
      NoDupConcat(Order(slots, classes, n - 1), Emitted(slots, classes, n - 1));
    }
  }

  /** The merge reorders the plugins and loses none. */
  lemma MergePermutes(ps: seq<Plugin>, slots: seq<Slot>, classes: Classes)
    requires AreClasses(slots, |slots|, classes) && |slots| == |ps|
    ensures forall i :: i in Order(slots, classes, |slots|) ==> i < |ps|
    ensures IsPermutation(At(ps, Order(slots, classes, |slots|)), ps)
  {
    OrderHolds(slots, classes, |slots|);
    AtPermutes(ps, Order(slots, classes, |slots|));
  }

  lemma {:induction false} OrderPrefix(slots: seq<Slot>, classes: Classes, m: nat, n: nat)
    requires m <= n <= |slots|
    ensures Order(slots, classes, m) <= Order(slots, classes, n)
    decreases n
  {
    if m < n {
      OrderPrefix(slots, classes, m, n - 1);
    }
  }

  /** Every occurrence of a comes before every occurrence of b. */
  ghost predicate AllAhead(order: seq<nat>, a: nat, b: nat) {
    a in order && b in order &&
    forall p, q :: 0 <= p < |order| && 0 <= q < |order| && order[p] == a && order[q] == b ==> p < q
  }

  /** What an initial part of a repeat-free order holds comes before what it does not hold. */
  lemma PrefixAhead(head: seq<nat>, order: seq<nat>, a: nat, b: nat)
    requires head <= order && NoDup(order) && a in head && b in order && b !in head
    ensures AllAhead(order, a, b)
  {
    var k :| 0 <= k < |head| && head[k] == a;
    assert order[k] == a;
    forall q | 0 <= q < |head| ensures order[q] != b {
      assert head[q] in head;
    }
  }

  /** What is placed by step m comes before what is placed only later. */
  lemma PlacedAhead(slots: seq<Slot>, classes: Classes, m: nat, a: nat, b: nat)
    requires AreClasses(slots, |slots|, classes) && m <= |slots| && a < |slots| && b < |slots|
    requires Placed(slots, classes, m, a) && !Placed(slots, classes, m, b)
    ensures AllAhead(Order(slots, classes, |slots|), a, b)
  {
    OrderHolds(slots, classes, |slots|);
    OrderHolds(slots, classes, m);
    OrderPrefix(slots, classes, m, |slots|);
    assert Placed(slots, classes, |slots|, b);
    PrefixAhead(Order(slots, classes, m), Order(slots, classes, |slots|), a, b);
  }

  /** The canonical member of a class comes ahead of its other members. */
  lemma CanonicalLeads(slots: seq<Slot>, classes: Classes, i: nat)
    requires AreClasses(slots, |slots|, classes) && i < |slots|
    requires ClassOf(slots, classes, i).canonical != i
    ensures AllAhead(Order(slots, classes, |slots|), ClassOf(slots, classes, i).canonical, i)
  {
    var c := ClassOf(slots, classes, i);
    SameClass(slots, classes, i);
    if i == c.first {
      LeaderAhead(slots, classes, i);
    } else {
      PlacedAhead(slots, classes, i, c.canonical, i);
    }
  }

  /** The first member of a class stands right behind the canonical one. */
  lemma LeaderAhead(slots: seq<Slot>, classes: Classes, i: nat)
    requires AreClasses(slots, |slots|, classes) && i < |slots|
    requires ClassOf(slots, classes, i).first == i && ClassOf(slots, classes, i).canonical != i
    ensures AllAhead(Order(slots, classes, |slots|), ClassOf(slots, classes, i).canonical, i)
  {
    NotYetPlaced(slots, classes, i);
    EmittedAhead(slots, classes, i);
  }

  lemma EmittedAhead(slots: seq<Slot>, classes: Classes, i: nat)
    requires i < |slots| && ClassOf(slots, classes, i).first == i && ClassOf(slots, classes, i).canonical != i
    requires i !in Order(slots, classes, i) && i in Order(slots, classes, |slots|) &&
             NoDup(Order(slots, classes, |slots|))
    ensures AllAhead(Order(slots, classes, |slots|), ClassOf(slots, classes, i).canonical, i)
  {
    OrderPrefix(slots, classes, i + 1, |slots|);
    LeaderEmitted(slots, classes, i);
    PrefixAhead(Order(slots, classes, i) + [ClassOf(slots, classes, i).canonical], Order(slots, classes, |slots|),
                ClassOf(slots, classes, i).canonical, i);
  }

  lemma NotYetPlaced(slots: seq<Slot>, classes: Classes, i: nat)
    requires AreClasses(slots, |slots|, classes) && i < |slots| && ClassOf(slots, classes, i).first == i
    ensures i !in Order(slots, classes, i) && i in Order(slots, classes, |slots|) &&
            NoDup(Order(slots, classes, |slots|))
  {
    OrderHolds(slots, classes, |slots|);
    OrderHolds(slots, classes, i);
    assert Placed(slots, classes, |slots|, i) && !Placed(slots, classes, i, i);
  }

  lemma LeaderEmitted(slots: seq<Slot>, classes: Classes, i: nat)
    requires i < |slots| && ClassOf(slots, classes, i).first == i && ClassOf(slots, classes, i).canonical != i
    ensures Order(slots, classes, i) + [ClassOf(slots, classes, i).canonical] <= Order(slots, classes, i + 1)
  {
    assert Order(slots, classes, i + 1) == Order(slots, classes, i) + [ClassOf(slots, classes, i).canonical, i];
  }

  /** Plugins that are not moved ahead, in particular those outside every class, keep their old relative order. */
  lemma OthersKeepOrder(slots: seq<Slot>, classes: Classes, i: nat, j: nat)
    requires AreClasses(slots, |slots|, classes) && i < j < |slots|
    requires ClassOf(slots, classes, j).canonical != j || ClassOf(slots, classes, j).first == j
    ensures AllAhead(Order(slots, classes, |slots|), i, j)
  {
    PlacedAhead(slots, classes, j, i, j);
  }

  /** The place that decides the order: that of the first member for the canonical one, and its own for any other. */
  ghost function Spot(slots: seq<Slot>, classes: Classes, i: nat): nat
    requires i < |slots|
  {
    if ClassOf(slots, classes, i).canonical == i then ClassOf(slots, classes, i).first else i
  }

  /** The plugins come in the order of these places; the canonical member comes right ahead of the first one. */
  lemma SpotsDecide(slots: seq<Slot>, classes: Classes, i: nat, j: nat)
    requires AreClasses(slots, |slots|, classes) && i < |slots| && j < |slots| && i != j
    ensures AllAhead(Order(slots, classes, |slots|), i, j) <==>
            var a, b := Spot(slots, classes, i), Spot(slots, classes, j);
            a < b || (a == b && ClassOf(slots, classes, i).canonical == i)
  {
    SameClass(slots, classes, i);
    SameClass(slots, classes, j);
    SpotAhead(slots, classes, i, j);
    SpotAhead(slots, classes, j, i);
    NotBoth(slots, classes, i, j);
  }

  lemma SpotAhead(slots: seq<Slot>, classes: Classes, i: nat, j: nat)
    requires AreClasses(slots, |slots|, classes) && i < |slots| && j < |slots| && i != j
    ensures var a, b := Spot(slots, classes, i), Spot(slots, classes, j);
            a < b || (a == b && ClassOf(slots, classes, i).canonical == i) ==>
            AllAhead(Order(slots, classes, |slots|), i, j)
  {
    SameClass(slots, classes, i);
    SameClass(slots, classes, j);
    var a, b := Spot(slots, classes, i), Spot(slots, classes, j);
    if a < b {
      PlacedAhead(slots, classes, b, i, j);
    } else if a == b && ClassOf(slots, classes, i).canonical == i {
      assert ClassOf(slots, classes, a) == ClassOf(slots, classes, i);
      assert j == a && ClassOf(slots, classes, j).canonical == i;
      CanonicalLeads(slots, classes, j);
    }
  }

  lemma NotBoth(slots: seq<Slot>, classes: Classes, i: nat, j: nat)
    requires AreClasses(slots, |slots|, classes)
    ensures !(AllAhead(Order(slots, classes, |slots|), i, j) && AllAhead(Order(slots, classes, |slots|), j, i))
  {
    var order := Order(slots, classes, |slots|);
    if AllAhead(order, i, j) {
      var p :| 0 <= p < |order| && order[p] == i;
      var q :| 0 <= q < |order| && order[q] == j;
    }
  }

  /** Slot i has the alias fk and is not the canonical member of its class. */
  ghost predicate Redirected(slots: seq<Slot>, classes: Classes, i: nat, fk: string) {
    i < |slots| && slots[i].fk == fk && ClassOf(slots, classes, i).canonical != i
  }

  /** Of the first n slots, i is the last one that redirects the alias. */
  ghost predicate RedirectsLast(slots: seq<Slot>, classes: Classes, n: nat, i: nat, fk: string) {
    i < n && Redirected(slots, classes, i, fk) && forall k :: i < k < n ==> !Redirected(slots, classes, k, fk)
  }

  lemma {:induction false} RedirectedSome(slots: seq<Slot>, classes: Classes, n: nat, fk: string)
    requires AreClasses(slots, |slots|, classes) && n <= |slots|
    ensures fk in Redirects(slots, classes, n) <==> exists i :: 0 <= i < n && Redirected(slots, classes, i, fk)
  {
    if n > 0 {
      var m := n - 1;
      RedirectedSome(slots, classes, m, fk);
      RedirectedNext(slots, classes, m, n, fk);
      if Redirected(slots, classes, m, fk) {
        assert exists i :: 0 <= i < n && Redirected(slots, classes, i, fk);
      }
    }
  }

  lemma RedirectedNext(slots: seq<Slot>, classes: Classes, m: nat, n: nat, fk: string)
    requires AreClasses(slots, |slots|, classes) && n == m + 1 <= |slots|
    ensures fk in Redirects(slots, classes, n) <==>
            fk in Redirects(slots, classes, m) || Redirected(slots, classes, m, fk)
  {
    SameClass(slots, classes, m);
  }

  lemma {:induction false} RedirectedTo(slots: seq<Slot>, classes: Classes, n: nat, i: nat, fk: string)
    requires AreClasses(slots, |slots|, classes) && n <= |slots| && RedirectsLast(slots, classes, n, i, fk)
    ensures ClassOf(slots, classes, i).canonical < |slots| && fk in Redirects(slots, classes, n) &&
            Redirects(slots, classes, n)[fk] == slots[ClassOf(slots, classes, i).canonical].fk
    decreases n
  {
    var m := n - 1;
    SameClass(slots, classes, m);
    if i < m {
      RedirectedTo(slots, classes, m, i, fk);
      assert !Redirected(slots, classes, m, fk);
    }
  }

  /**
    Exactly the aliases of the other members of a class are redirected, each to the canonical alias of the
    last class that it is in so.
   */
  lemma RedirectsMean(slots: seq<Slot>, classes: Classes, n: nat, fk: string)
    requires AreClasses(slots, |slots|, classes) && n <= |slots|
    ensures fk in Redirects(slots, classes, n) <==> exists i :: 0 <= i < n && Redirected(slots, classes, i, fk)
    ensures forall i: nat :: RedirectsLast(slots, classes, n, i, fk) ==>
              ClassOf(slots, classes, i).canonical < |slots| && fk in Redirects(slots, classes, n) &&
              Redirects(slots, classes, n)[fk] == slots[ClassOf(slots, classes, i).canonical].fk
  {
    RedirectedSome(slots, classes, n, fk);
    forall i: nat | RedirectsLast(slots, classes, n, i, fk)
      ensures ClassOf(slots, classes, i).canonical < |slots| && fk in Redirects(slots, classes, n) &&
              Redirects(slots, classes, n)[fk] == slots[ClassOf(slots, classes, i).canonical].fk
    {
      RedirectedTo(slots, classes, n, i, fk);
    }
  }

  /** If the marked alias is in a class, it is canonical, wherever it stands among the plugins. */
  lemma MarkedIsCanonical(slots: seq<Slot>, classes: Classes, i: nat, j: nat)
    requires AreClasses(slots, |slots|, classes) && i < |slots| && j < |slots|
    requires slots[i].key.Some? && slots[j].key == slots[i].key && slots[j].Marked()
    ensures slots[ClassOf(slots, classes, i).canonical].fk == slots[i].key.value.group
  {
    assert Member(slots, |slots|, slots[i].key.value, j);
    SameClass(slots, classes, i);
  }

  /** The plugin that the converter writes for one alias of a model. */
  function Copy(alias: string, config: string, rests: seq<string>): Plugin {
    Plugin(Some(alias), config, seq(|rests|, i requires 0 <= i < |rests| => Target(Some(alias), rests[i])))
  }

  /**
    Among the plugins ps, in any order, stand the copies for the aliases of one model that made all
    its rows. No other plugin has one of the aliases or is of the same class.
   */
  ghost predicate FanOut(markers: Markers, aliases: seq<string>, config: string, rests: seq<string>, ps: seq<Plugin>) {
    aliases != [] && aliases[0] != "" &&
    (forall a :: a in aliases ==> a in markers && markers[a] == aliases[0]) &&
    (forall a :: a in aliases ==> Copy(a, config, rests) in ps) &&
    (forall i :: 0 <= i < |ps| && KeyOf(markers, ps[i]) == Some(ClassKey(aliases[0], Shape(config, rests))) ==>
       IsCopy(aliases, config, rests, ps[i])) &&
    (forall i :: 0 <= i < |ps| && ps[i].model.Some? && ps[i].model.value in aliases ==>
        IsCopy(aliases, config, rests, ps[i])) &&
    (forall i, j :: 0 <= i < j < |ps| && IsCopy(aliases, config, rests, ps[i]) ==> ps[i] != ps[j])
  }

  /** The plugin is the copy for one of the aliases. */
  ghost predicate IsCopy(aliases: seq<string>, config: string, rests: seq<string>, p: Plugin) {
    p.model.Some? && p.model.value in aliases && p == Copy(p.model.value, config, rests)
  }

  lemma CopyKey(markers: Markers, aliases: seq<string>, config: string, rests: seq<string>, p: Plugin)
    requires aliases != [] && aliases[0] != "" &&
             (forall a :: a in aliases ==> a in markers && markers[a] == aliases[0])
    requires IsCopy(aliases, config, rests, p)
    ensures KeyOf(markers, p) == Some(ClassKey(aliases[0], Shape(config, rests)))
  {
    assert ShapeOf(p).targets == rests;
  }

  /** The slots of a class are exactly those with one of its aliases, and each alias has one slot. */
  ghost predicate HoldsClass(slots: seq<Slot>, aliases: seq<string>, key: ClassKey) {
    (forall i :: 0 <= i < |slots| && slots[i].key.Some? ==> (slots[i].key == Some(key) <==> slots[i].fk in aliases)) &&
    (forall a :: a in aliases ==> exists i :: 0 <= i < |slots| && slots[i].fk == a && slots[i].key == Some(key)) &&
    (forall i, j :: 0 <= i < j < |slots| && slots[i].key == slots[j].key == Some(key) ==> slots[i].fk != slots[j].fk)
  }

  lemma FanOutSlots(markers: Markers, aliases: seq<string>, config: string, rests: seq<string>, ps: seq<Plugin>)
    requires FanOut(markers, aliases, config, rests, ps)
    ensures HoldsClass(SlotsOf(markers, ps), aliases, ClassKey(aliases[0], Shape(config, rests)))
  {
    var slots, key := SlotsOf(markers, ps), ClassKey(aliases[0], Shape(config, rests));
    forall i | 0 <= i < |ps| && IsCopy(aliases, config, rests, ps[i]) ensures slots[i].key == Some(key) {
      CopyKey(markers, aliases, config, rests, ps[i]);
    }
    forall a | a in aliases ensures exists i :: 0 <= i < |slots| && slots[i].fk == a && slots[i].key == Some(key) {
      var i :| 0 <= i < |ps| && ps[i] == Copy(a, config, rests);
      assert IsCopy(aliases, config, rests, ps[i]) && slots[i].fk == a;
    }
    forall i, j | 0 <= i < j < |slots| && slots[i].key == slots[j].key == Some(key) ensures slots[i].fk != slots[j].fk {
      assert IsCopy(aliases, config, rests, ps[i]) && IsCopy(aliases, config, rests, ps[j]);
    }
  }

  /**
    A fan-out merges to its first alias, whatever other plugins the route carries: the copy for the
    first alias leads all others, and exactly the other aliases are redirected, to the first one.
   */
  lemma FanOutMerges(markers: Markers, aliases: seq<string>, config: string, rests: seq<string>,
      ps: seq<Plugin>, classes: Classes)
    returns (lead: nat)
    requires FanOut(markers, aliases, config, rests, ps)
    requires AreClasses(SlotsOf(markers, ps), |ps|, classes)
    ensures lead < |ps| && ps[lead] == Copy(aliases[0], config, rests)
    ensures forall i :: 0 <= i < |ps| && IsCopy(aliases, config, rests, ps[i]) && i != lead ==>
              AllAhead(Order(SlotsOf(markers, ps), classes, |ps|), lead, i)
    ensures forall a :: a in aliases ==>
              if a == aliases[0] then a !in Redirects(SlotsOf(markers, ps), classes, |ps|)
              else
                a in Redirects(SlotsOf(markers, ps), classes, |ps|) &&
                Redirects(SlotsOf(markers, ps), classes, |ps|)[a] == aliases[0]
  {
    FanOutSlots(markers, aliases, config, rests, ps);
    var slots, key := SlotsOf(markers, ps), ClassKey(aliases[0], Shape(config, rests));
    lead := ClassLead(slots, aliases, key, classes);
    assert KeyOf(markers, ps[lead]) == Some(key) && IsCopy(aliases, config, rests, ps[lead]);
    forall i | 0 <= i < |ps| && IsCopy(aliases, config, rests, ps[i]) && i != lead
      ensures AllAhead(Order(slots, classes, |ps|), lead, i)
    {
      CopyKey(markers, aliases, config, rests, ps[i]);
      CanonicalLeads(slots, classes, i);
    }
    forall a | a in aliases
      ensures if a == aliases[0] then a !in Redirects(slots, classes, |ps|)
              else a in Redirects(slots, classes, |ps|) && Redirects(slots, classes, |ps|)[a] == aliases[0]
    {
      ClassRedirects(slots, aliases, key, classes, lead, a);
    }
  }

  /** The canonical member of such a class is the one marked slot. */
  lemma ClassLead(slots: seq<Slot>, aliases: seq<string>, key: ClassKey, classes: Classes) returns (lead: nat)
    requires HoldsClass(slots, aliases, key) && AreClasses(slots, |slots|, classes) && key.group in aliases
    ensures lead < |slots| && slots[lead].fk == key.group && slots[lead].key == Some(key)
    ensures forall i :: 0 <= i < |slots| && slots[i].key == Some(key) ==> ClassOf(slots, classes, i).canonical == lead
  {
    lead :| 0 <= lead < |slots| && slots[lead].fk == key.group && slots[lead].key == Some(key);
    assert Member(slots, |slots|, key, lead) && slots[lead].Marked();
    assert IsClass(slots, |slots|, key, classes[key]);
    var c := classes[key].canonical;
    assert slots[c].Marked() && slots[c].fk == slots[lead].fk;
    assert c == lead;
  }

  lemma ClassRedirects(slots: seq<Slot>, aliases: seq<string>, key: ClassKey, classes: Classes, lead: nat, a: string)
    requires HoldsClass(slots, aliases, key) && AreClasses(slots, |slots|, classes) && a in aliases
    requires lead < |slots| && slots[lead].fk == key.group && slots[lead].key == Some(key)
    requires forall i :: 0 <= i < |slots| && slots[i].key == Some(key) ==> ClassOf(slots, classes, i).canonical == lead
    ensures var redirects := Redirects(slots, classes, |slots|);
            if a == key.group then a !in redirects else a in redirects && redirects[a] == key.group
  {
    RedirectsMean(slots, classes, |slots|, a);
    forall i | 0 <= i < |slots| && Redirected(slots, classes, i, a) ensures slots[i].key == Some(key) {
      assert ClassOf(slots, classes, i).canonical != i;
    }
    if a != key.group {
      var i :| 0 <= i < |slots| && slots[i].fk == a && slots[i].key == Some(key);
      assert Redirected(slots, classes, i, a);
    }
  }
}
