/**
  One route for each path of a model (convert/model_endpoints.go, keepEqualPaths).

  Several wire formats can put an endpoint on one path. The earliest format that serves a path for
  any target of the model keeps it, and the path is removed from all other formats. The targets
  are kept in a map, whose order is not fixed.
 */
module EqualPaths {
  import opened Sequences
  import opened Endpoints

  datatype Pair = Pair(format: string, capability: string, specs: seq<EndpointSpec>)

  type Targets = map<int, seq<Pair>>

  datatype PathKey = PathKey(suffix: string, isRegex: bool)

  function KeyOf(spec: EndpointSpec): PathKey {
    PathKey(spec.pathSuffix, spec.isRegex)
  }

  type Owners = map<PathKey, string>

  /** Reading the owners; a path without one has the empty format. */
  function OwnerIn(owners: Owners, key: PathKey): string {
    if key in owners then owners[key] else ""
  }

  // ---------------------------------------------------------------------------------------------
  // What removing equal paths has to give
  // ---------------------------------------------------------------------------------------------

  ghost predicate PairsServe(pairs: seq<Pair>, format: string, key: PathKey) {
    exists i, j :: 0 <= i < |pairs| && pairs[i].format == format && 0 <= j < |pairs[i].specs| &&
        KeyOf(pairs[i].specs[j]) == key
  }

  /** Some target has an endpoint on the path in this format. */
  ghost predicate Serves(targets: Targets, format: string, key: PathKey) {
    exists t :: t in targets && PairsServe(targets[t], format, key)
  }

  /** The first of the formats from the n-th on that serves the path for any target, or the empty format. */
  ghost function Owner(formats: seq<string>, targets: Targets, key: PathKey): string {
    if formats == [] then "" else
        if Serves(targets, formats[0], key) then formats[0] else Owner(formats[1..], targets, key)
  }

  /** The specs whose path the format owns, in order. */
  ghost function KeptSpecs(owner: PathKey -> string, format: string,
      specs: seq<EndpointSpec>): (kept: seq<EndpointSpec>)
    ensures forall spec :: spec in kept <==> spec in specs && owner(KeyOf(spec)) == format
  {
    if specs == [] then []
    else
      var init, last := specs[..|specs| - 1], specs[|specs| - 1];
      assert specs == init + [last];
      KeptSpecs(owner, format, init) + if owner(KeyOf(last)) == format then [last] else []
  }

  /** The pairs with the specs that they keep, in order, without those that keep none. */
  ghost function KeptPairs(owner: PathKey -> string, pairs: seq<Pair>): seq<Pair> {
    if pairs == [] then []
    else
      var init, last := KeptPairs(owner, pairs[..|pairs| - 1]), pairs[|pairs| - 1];
      var specs := KeptSpecs(owner, last.format, last.specs);
      if specs == [] then init else init + [last.(specs := specs)]
  }

  ghost function OwnerBy(formats: seq<string>, targets: Targets): PathKey -> string {
    key => Owner(formats, targets, key)
  }

  ghost function Kept(formats: seq<string>, targets: Targets): Targets {
    map t | t in targets :: KeptPairs(OwnerBy(formats, targets), targets[t])
  }

  // ---------------------------------------------------------------------------------------------
  // Removing equal paths
  // ---------------------------------------------------------------------------------------------

  ghost function SpecPaths(specs: seq<EndpointSpec>): (keys: set<PathKey>)
    ensures forall key :: key in keys <==> exists j :: 0 <= j < |specs| && KeyOf(specs[j]) == key
  {
    set j | 0 <= j < |specs| :: KeyOf(specs[j])
  }

  /** The paths of the pairs that have the format. */
  ghost function PathsOf(pairs: seq<Pair>, format: string): (keys: set<PathKey>) {
    if pairs == [] then {}
    else
      var init, last := PathsOf(pairs[..|pairs| - 1], format), pairs[|pairs| - 1];
      if last.format == format then init + SpecPaths(last.specs) else init
  }

  /** owners' is owners with the free ones among the paths given to the format. */
  ghost predicate Claimed(owners: Owners, paths: set<PathKey>, format: string, owners': Owners) {
    owners'.Keys == owners.Keys + paths &&
    forall key :: key in owners' ==> owners'[key] == if key in owners then owners[key] else format
  }

  lemma ClaimedTwice(a: Owners, p: set<PathKey>, format: string, b: Owners, q: set<PathKey>, c: Owners)
    requires Claimed(a, p, format, b) && Claimed(b, q, format, c)
    ensures Claimed(a, p + q, format, c)
  {
  }

  lemma ClaimedNone(owners: Owners, format: string)
    ensures Claimed(owners, {}, format, owners)
  {
  }

  method ClaimSpecs(owners: Owners, specs: seq<EndpointSpec>, format: string) returns (owners': Owners)
    ensures Claimed(owners, SpecPaths(specs), format, owners')
  {
    owners' := owners;
    for j := 0 to |specs|
      invariant Claimed(owners, SpecPaths(specs[..j]), format, owners')
    {
      ghost var before := owners';
      if KeyOf(specs[j]) !in owners' {
        owners' := owners'[KeyOf(specs[j]) := format];
      }
      assert Claimed(before, {KeyOf(specs[j])}, format, owners');
      assert SpecPaths(specs[..j + 1]) == SpecPaths(specs[..j]) + {KeyOf(specs[j])};
      ClaimedTwice(owners, SpecPaths(specs[..j]), format, before, {KeyOf(specs[j])}, owners');
    }
    TakeAll(specs);
  }

  method ClaimPairs(owners: Owners, pairs: seq<Pair>, format: string) returns (owners': Owners)
    ensures Claimed(owners, PathsOf(pairs, format), format, owners')
  {
    owners' := owners;
    ClaimedNone(owners, format);
    for i := 0 to |pairs|
      invariant Claimed(owners, PathsOf(pairs[..i], format), format, owners')
    {
      ghost var before := owners';
      assert pairs[..i + 1][..i] == pairs[..i];
      if pairs[i].format == format {
        owners' := ClaimSpecs(owners', pairs[i].specs, format);
        ClaimedTwice(owners, PathsOf(pairs[..i], format), format, before, SpecPaths(pairs[i].specs), owners');
      }
    }
    TakeAll(pairs);
  }

  /** The paths that some of the targets serve in the format. */
  ghost function TargetPaths(targets: Targets, ts: set<int>, format: string): (keys: set<PathKey>)
    requires ts <= targets.Keys
    ensures forall key :: key in keys <==> exists t :: t in ts && key in PathsOf(targets[t], format)
  {
    set t, key | t in ts && key in PathsOf(targets[t], format) :: key
  }

  /** Claims the paths of a format, from the targets in any order. */
  method ClaimFormat(owners: Owners, targets: Targets, format: string) returns (owners': Owners)
    ensures Claimed(owners, TargetPaths(targets, targets.Keys, format), format, owners')
  {
    owners' := owners;
    var left := targets.Keys;
    ghost var done: set<int>, claimed: set<PathKey> := {}, {};
    ClaimedNone(owners, format);
    NoTargetPaths(targets, format);
    while left != {}
      invariant left + done == targets.Keys && claimed == TargetPaths(targets, done, format)
      invariant Claimed(owners, claimed, format, owners')
      decreases |left|
    {
      SomeTarget(left);
      var t :| t in left;
      ghost var before := owners';
      owners' := ClaimPairs(owners', targets[t], format);
      ClaimedTwice(owners, claimed, format, before, PathsOf(targets[t], format), owners');
      MoreTargetPaths(targets, done, t, format);
      assert (left - {t}) + (done + {t}) == left + done;
      left, done, claimed := left - {t}, done + {t}, claimed + PathsOf(targets[t], format);
    }
    assert done == targets.Keys;
  }

  lemma SomeTarget(ts: set<int>)
    requires ts != {}
    ensures exists t :: t in ts
  {
    assert (forall t :: t !in ts) ==> ts == {};
  }

  lemma NoTargetPaths(targets: Targets, format: string)
    ensures TargetPaths(targets, {}, format) == {}
  {
  }

  lemma MoreTargetPaths(targets: Targets, done: set<int>, t: int, format: string)
    requires done <= targets.Keys && t in targets
    ensures TargetPaths(targets, done + {t}, format) == TargetPaths(targets, done, format) + PathsOf(targets[t], format)
  {
  }

  lemma {:induction false} PathsMean(pairs: seq<Pair>, format: string, key: PathKey)
    ensures key in PathsOf(pairs, format) <==> PairsServe(pairs, format, key)
  {
    if pairs != [] {
      var init, last := pairs[..|pairs| - 1], pairs[|pairs| - 1];
      PathsMean(init, format, key);
      if PairsServe(init, format, key) {
        var i, j :| 0 <= i < |init| && init[i].format == format && 0 <= j < |init[i].specs| &&
            KeyOf(init[i].specs[j]) == key;
        assert pairs[i].format == format && KeyOf(pairs[i].specs[j]) == key;
      }
      if last.format == format && key in SpecPaths(last.specs) {
        var j :| 0 <= j < |last.specs| && KeyOf(last.specs[j]) == key;
        assert KeyOf(pairs[|pairs| - 1].specs[j]) == key;
      }
    }
  }

  lemma TargetPathsMean(targets: Targets, format: string, key: PathKey)
    ensures key in TargetPaths(targets, targets.Keys, format) <==> Serves(targets, format, key)
  {
    forall t | t in targets ensures key in PathsOf(targets[t], format) <==> PairsServe(targets[t], format, key) {
      PathsMean(targets[t], format, key);
    }
  }

  /** owners holds the owners among the first n formats. */
  ghost predicate Own(formats: seq<string>, targets: Targets, n: nat, owners: Owners)
    requires n <= |formats|
  {
    forall key :: OwnAt(formats, targets, n, owners, key)
  }

  ghost predicate OwnAt(formats: seq<string>, targets: Targets, n: nat, owners: Owners, key: PathKey)
    requires n <= |formats|
  {
    (key in owners <==> exists k :: 0 <= k < n && Serves(targets, formats[k], key)) &&
    (key in owners ==> owners[key] == Owner(formats[..n], targets, key))
  }

  lemma {:induction false} OwnerSnoc(formats: seq<string>, format: string, targets: Targets, key: PathKey)
    ensures Owner(formats + [format], targets, key) ==
            if exists k :: 0 <= k < |formats| && Serves(targets, formats[k], key) then Owner(formats, targets, key)
            else if Serves(targets, format, key) then format else ""
  {
    if formats == [] {
      assert [format][1..] == [];
    } else {
      assert (formats + [format])[1..] == formats[1..] + [format];
      OwnerSnoc(formats[1..], format, targets, key);
      if exists k :: 0 <= k < |formats| && Serves(targets, formats[k], key) {
        var k :| 0 <= k < |formats| && Serves(targets, formats[k], key);
        if k > 0 {
          assert Serves(targets, formats[1..][k - 1], key);
        }
      }
    }
  }

  lemma NextFormat(formats: seq<string>, targets: Targets, n: nat, before: Owners, owners: Owners)
    requires n < |formats| && Own(formats, targets, n, before)
    requires Claimed(before, TargetPaths(targets, targets.Keys, formats[n]), formats[n], owners)
    ensures Own(formats, targets, n + 1, owners)
  {
    TakeSnoc(formats, n);
    var m := n + 1;
    forall key ensures OwnAt(formats, targets, m, owners, key) {
      assert OwnAt(formats, targets, n, before, key);
      TargetPathsMean(targets, formats[n], key);
      OwnerSnoc(formats[..n], formats[n], targets, key);
      assert forall k :: 0 <= k < n ==> formats[..n][k] == formats[k];
    }
  }

  method FindOwners(formats: seq<string>, targets: Targets) returns (owners: Owners)
    ensures forall key :: OwnerIn(owners, key) == Owner(formats, targets, key)
  {
    owners := map[];
    for n := 0 to |formats|
      invariant Own(formats, targets, n, owners)
    {
      ghost var before := owners;
      owners := ClaimFormat(owners, targets, formats[n]);
      NextFormat(formats, targets, n, before, owners);
    }
    TakeAll(formats);
    forall key ensures OwnerIn(owners, key) == Owner(formats, targets, key) {
      assert OwnAt(formats, targets, |formats|, owners, key);
      if key !in owners {
        OwnerNone(formats, targets, key);
      }
    }
  }

  lemma {:induction false} OwnerNone(formats: seq<string>, targets: Targets, key: PathKey)
    requires forall k :: 0 <= k < |formats| ==> !Serves(targets, formats[k], key)
    ensures Owner(formats, targets, key) == ""
  {
    if formats != [] {
      OwnerNone(formats[1..], targets, key);
    }
  }

  /** Removes the specs of one target whose path its format does not own. */
  method KeepPairs(owners: Owners, pairs: seq<Pair>, ghost owner: PathKey -> string) returns (kept: seq<Pair>)
    requires forall key :: OwnerIn(owners, key) == owner(key)
    ensures kept == KeptPairs(owner, pairs)
  {
    kept := [];
    for i := 0 to |pairs|
      invariant kept == KeptPairs(owner, pairs[..i])
    {
      var specs := KeepSpecs(owners, pairs[i].format, pairs[i].specs, owner);
      assert pairs[..i + 1][..i] == pairs[..i];
      if |specs| > 0 {
        kept := kept + [pairs[i].(specs := specs)];
      }
    }
    TakeAll(pairs);
  }

  method KeepSpecs(owners: Owners, format: string, specs: seq<EndpointSpec>,
      ghost owner: PathKey -> string) returns (kept: seq<EndpointSpec>)
    requires forall key :: OwnerIn(owners, key) == owner(key)
    ensures kept == KeptSpecs(owner, format, specs)
  {
    kept := [];
    for j := 0 to |specs|
      invariant kept == KeptSpecs(owner, format, specs[..j])
    {
      assert specs[..j + 1][..j] == specs[..j];
      assert OwnerIn(owners, KeyOf(specs[j])) == owner(KeyOf(specs[j]));
      if OwnerIn(owners, KeyOf(specs[j])) == format {
        kept := kept + [specs[j]];
      }
    }
    TakeAll(specs);
  }

  /** Keeps each path for one format. The result does not depend on the order in which the targets are visited. */
  method KeepEqualPaths(formats: seq<string>, targets: Targets) returns (targets': Targets)
    ensures targets' == Kept(formats, targets)
  {
    var owners := FindOwners(formats, targets);
    ghost var owner := OwnerBy(formats, targets);
    targets' := targets;
    var left := targets.Keys;
    while left != {}
      invariant left <= targets.Keys && targets'.Keys == targets.Keys
      invariant forall t :: t in targets ==>
                  targets'[t] == if t in left then targets[t] else KeptPairs(owner, targets[t])
      decreases |left|
    {
      SomeTarget(left);
      var t :| t in left;
      var kept := KeepPairs(owners, targets'[t], owner);
      targets' := targets'[t := kept];
      left := left - {t};
    }
    assert forall t :: t in targets ==> targets'[t] == Kept(formats, targets)[t];
  }

  // ---------------------------------------------------------------------------------------------
  // What is kept
  // ---------------------------------------------------------------------------------------------

  lemma {:induction false} KeptPairsServe(owner: PathKey -> string, pairs: seq<Pair>, format: string, key: PathKey)
    ensures PairsServe(KeptPairs(owner, pairs), format, key) <==> PairsServe(pairs, format, key) && owner(key) == format
  {
    if pairs != [] {
      var init, last := pairs[..|pairs| - 1], pairs[|pairs| - 1];
      var specs := KeptSpecs(owner, last.format, last.specs);
      KeptPairsServe(owner, init, format, key);
      ServeSnoc(init, last, format, key);
      assert pairs == init + [last];
      ServeSnoc(KeptPairs(owner, init), last.(specs := specs), format, key);
      assert SpecsServe(specs, key) <==> SpecsServe(last.specs, key) && owner(key) == last.format by {
        KeptSpecsServe(owner, last.format, last.specs, key);
      }
    }
  }

  ghost predicate SpecsServe(specs: seq<EndpointSpec>, key: PathKey) {
    exists spec :: spec in specs && KeyOf(spec) == key
  }

  lemma KeptSpecsServe(owner: PathKey -> string, format: string, specs: seq<EndpointSpec>, key: PathKey)
    ensures SpecsServe(KeptSpecs(owner, format, specs), key) <==> SpecsServe(specs, key) && owner(key) == format
  {
    if SpecsServe(specs, key) && owner(key) == format {
      var spec :| spec in specs && KeyOf(spec) == key;
      assert spec in KeptSpecs(owner, format, specs);
    }
  }

  lemma ServeSnoc(pairs: seq<Pair>, last: Pair, format: string, key: PathKey)
    ensures PairsServe(pairs + [last], format, key) <==>
            PairsServe(pairs, format, key) || (last.format == format && SpecsServe(last.specs, key))
  {
    var all := pairs + [last];
    if PairsServe(pairs, format, key) {
      var i, j :| 0 <= i < |pairs| && pairs[i].format == format && 0 <= j < |pairs[i].specs| &&
          KeyOf(pairs[i].specs[j]) == key;
      assert all[i].format == format && KeyOf(all[i].specs[j]) == key;
    }
    if last.format == format && SpecsServe(last.specs, key) {
      var spec :| spec in last.specs && KeyOf(spec) == key;
      var j :| 0 <= j < |last.specs| && last.specs[j] == spec;
      assert all[|pairs|].format == format && KeyOf(all[|pairs|].specs[j]) == key;
    }
    if PairsServe(all, format, key) {
      var i, j :| 0 <= i < |all| && all[i].format == format && 0 <= j < |all[i].specs| && KeyOf(all[i].specs[j]) == key;
      if i < |pairs| {
        assert pairs[i].format == format && KeyOf(pairs[i].specs[j]) == key;
      } else {
        assert last.specs[j] in last.specs;
      }
    }
  }

  /** A path is kept exactly for its owner. */
  lemma KeptServes(formats: seq<string>, targets: Targets, format: string, key: PathKey)
    ensures Serves(Kept(formats, targets), format, key) <==>
            Serves(targets, format, key) && Owner(formats, targets, key) == format
  {
    var owner, kept := OwnerBy(formats, targets), Kept(formats, targets);
    forall t | t in targets
      ensures PairsServe(kept[t], format, key) <==>
              PairsServe(targets[t], format, key) && Owner(formats, targets, key) == format
    {
      KeptPairsServe(owner, targets[t], format, key);
    }
  }

  lemma {:induction false} OwnerServes(formats: seq<string>, targets: Targets, key: PathKey, n: nat)
    requires n < |formats| && Serves(targets, formats[n], key) &&
             forall k :: 0 <= k < n ==> !Serves(targets, formats[k], key)
    ensures Owner(formats, targets, key) == formats[n]
  {
    if n > 0 {
      assert formats[1..][n - 1] == formats[n] && forall k :: 0 <= k < n - 1 ==> formats[1..][k] == formats[k + 1];
      OwnerServes(formats[1..], targets, key, n - 1);
    }
  }

  /** The first of the formats that serves the path for some target. */
  lemma {:induction false} FirstServing(formats: seq<string>, targets: Targets, key: PathKey) returns (n: nat)
    ensures n <= |formats| && forall k :: 0 <= k < n ==> !Serves(targets, formats[k], key)
    ensures n < |formats| ==> Serves(targets, formats[n], key)
  {
    n := 0;
    if formats != [] && !Serves(targets, formats[0], key) {
      var m := FirstServing(formats[1..], targets, key);
      assert forall k :: 0 <= k < m ==> formats[1..][k] == formats[k + 1];
      n := m + 1;
    }
  }

  /**
    A path keeps exactly one format, the earliest that serves it for any target; so no path that
    one of the formats serves is lost.
   */
  lemma OneFormatPerPath(formats: seq<string>, targets: Targets, key: PathKey, n: nat, format: string)
    requires n < |formats| && Serves(targets, formats[n], key) &&
             forall k :: 0 <= k < n ==> !Serves(targets, formats[k], key)
    ensures Serves(Kept(formats, targets), format, key) <==> format == formats[n]
  {
    OwnerServes(formats, targets, key, n);
    KeptServes(formats, targets, format, key);
  }

  /** A path is lost altogether exactly if none of the formats serves it, and no unnamed one. */
  lemma PathLostExactly(formats: seq<string>, targets: Targets, key: PathKey)
    ensures (exists format :: Serves(Kept(formats, targets), format, key)) <==>
            Serves(targets, "", key) || exists k :: 0 <= k < |formats| && Serves(targets, formats[k], key)
  {
    var n := FirstServing(formats, targets, key);
    if n < |formats| {
      OneFormatPerPath(formats, targets, key, n, formats[n]);
    } else {
      OwnerNone(formats, targets, key);
      KeptServes(formats, targets, "", key);
      forall format ensures Serves(Kept(formats, targets), format, key) ==> format == "" {
        KeptServes(formats, targets, format, key);
      }
    }
  }

  lemma {:induction false} KeptOwner(formats: seq<string>, all: seq<string>, targets: Targets, key: PathKey)
    requires Owner(formats, targets, key) == Owner(all, targets, key)
    ensures Owner(formats, Kept(all, targets), key) == Owner(formats, targets, key)
  {
    if formats != [] {
      KeptServes(all, targets, formats[0], key);
      if !Serves(targets, formats[0], key) {
        KeptOwner(formats[1..], all, targets, key);
      }
    }
  }

  lemma {:induction false} SpecsKeptTwice(owner: PathKey -> string, format: string, specs: seq<EndpointSpec>)
    ensures KeptSpecs(owner, format, KeptSpecs(owner, format, specs)) == KeptSpecs(owner, format, specs)
  {
    if specs != [] {
      var init := specs[..|specs| - 1];
      SpecsKeptTwice(owner, format, init);
      var kept := KeptSpecs(owner, format, specs);
      assert kept != KeptSpecs(owner, format, init) ==> kept[..|kept| - 1] == KeptSpecs(owner, format, init);
    }
  }

  lemma {:induction false} PairsKeptTwice(owner: PathKey -> string, pairs: seq<Pair>)
    ensures KeptPairs(owner, KeptPairs(owner, pairs)) == KeptPairs(owner, pairs)
  {
    if pairs != [] {
      var init, last := pairs[..|pairs| - 1], pairs[|pairs| - 1];
      PairsKeptTwice(owner, init);
      SpecsKeptTwice(owner, last.format, last.specs);
      var kept := KeptPairs(owner, pairs);
      assert kept != KeptPairs(owner, init) ==> kept[..|kept| - 1] == KeptPairs(owner, init);
    }
  }

  lemma {:induction false} SameOwnerKeepsSpecs(a: PathKey -> string, b: PathKey -> string, format: string,
      specs: seq<EndpointSpec>)
    requires forall key :: a(key) == b(key)
    ensures KeptSpecs(a, format, specs) == KeptSpecs(b, format, specs)
  {
    if specs != [] {
      SameOwnerKeepsSpecs(a, b, format, specs[..|specs| - 1]);
    }
  }

  lemma {:induction false} SameOwnerKeepsPairs(a: PathKey -> string, b: PathKey -> string, pairs: seq<Pair>)
    requires forall key :: a(key) == b(key)
    ensures KeptPairs(a, pairs) == KeptPairs(b, pairs)
  {
    if pairs != [] {
      SameOwnerKeepsPairs(a, b, pairs[..|pairs| - 1]);
      SameOwnerKeepsSpecs(a, b, pairs[|pairs| - 1].format, pairs[|pairs| - 1].specs);
    }
  }

  /** Keeping equal paths again removes nothing. */
  lemma KeptTwice(formats: seq<string>, targets: Targets)
    ensures Kept(formats, Kept(formats, targets)) == Kept(formats, targets)
  {
    var a, b := OwnerBy(formats, targets), OwnerBy(formats, Kept(formats, targets));
    forall key ensures a(key) == b(key) {
      KeptOwner(formats, formats, targets, key);
    }
    forall t | t in targets ensures KeptPairs(b, KeptPairs(a, targets[t])) == KeptPairs(a, targets[t]) {
      SameOwnerKeepsPairs(a, b, KeptPairs(a, targets[t]));
      PairsKeptTwice(a, targets[t]);
    }
  }

  /** A pair with the specs that it keeps. */
  ghost function KeptPair(owner: PathKey -> string, pair: Pair): Pair {
    pair.(specs := KeptSpecs(owner, pair.format, pair.specs))
  }

  /** kept has the pairs at these positions, in order, each with what it keeps of its specs. */
  ghost predicate InOrder(owner: PathKey -> string, pairs: seq<Pair>, kept: seq<Pair>, positions: seq<nat>) {
    |positions| == |kept| && (forall k :: 0 <= k < |positions| ==> positions[k] < |pairs|) &&
    (forall j, k :: 0 <= j < k < |positions| ==> positions[j] < positions[k]) &&
    forall k :: 0 <= k < |kept| ==> kept[k] == KeptPair(owner, pairs[positions[k]])
  }

  /** The positions of the pairs that keep a spec. */
  ghost function KeptPositions(owner: PathKey -> string, pairs: seq<Pair>): (positions: seq<nat>)
    ensures forall i :: i in positions ==> i < |pairs|
  {
    if pairs == [] then []
    else
      var last := |pairs| - 1;
      KeptPositions(owner, pairs[..last]) +
          if KeptSpecs(owner, pairs[last].format, pairs[last].specs) != [] then [last] else []
  }

  /** Exactly the pairs that keep a spec stay, in their order, with their format and capability. */
  lemma OrderKept(owner: PathKey -> string, pairs: seq<Pair>)
    returns (positions: seq<nat>)
    ensures InOrder(owner, pairs, KeptPairs(owner, pairs), positions)
    ensures forall i :: 0 <= i < |pairs| ==> (i in positions <==> KeptPair(owner, pairs[i]).specs != [])
  {
    positions := KeptPositions(owner, pairs);
    PositionsInOrder(owner, pairs);
    forall i | 0 <= i < |pairs| ensures i in positions <==> KeptPair(owner, pairs[i]).specs != [] {
      PositionsMean(owner, pairs, i);
    }
  }

  lemma {:induction false} PositionsInOrder(owner: PathKey -> string, pairs: seq<Pair>)
    ensures InOrder(owner, pairs, KeptPairs(owner, pairs), KeptPositions(owner, pairs))
  {
    if pairs != [] {
      var last := |pairs| - 1;
      PositionsInOrder(owner, pairs[..last]);
      var kept, positions := KeptPairs(owner, pairs[..last]), KeptPositions(owner, pairs[..last]);
      InOrderMore(owner, pairs, last, kept, positions);
      InOrderSnoc(owner, pairs, last, kept, positions);
    }
  }

  lemma InOrderMore(owner: PathKey -> string, pairs: seq<Pair>, last: nat, kept: seq<Pair>, positions: seq<nat>)
    requires last < |pairs| && InOrder(owner, pairs[..last], kept, positions)
    ensures InOrder(owner, pairs, kept, positions)
  {
  }

  lemma InOrderSnoc(owner: PathKey -> string, pairs: seq<Pair>, last: nat, kept: seq<Pair>, positions: seq<nat>)
    requires last < |pairs| && InOrder(owner, pairs[..last], kept, positions)
    ensures InOrder(owner, pairs, kept + [KeptPair(owner, pairs[last])], positions + [last])
  {
  }

  lemma {:induction false} PositionsMean(owner: PathKey -> string, pairs: seq<Pair>, i: nat)
    requires i < |pairs|
    ensures i in KeptPositions(owner, pairs) <==> KeptSpecs(owner, pairs[i].format, pairs[i].specs) != []
  {
    var last := |pairs| - 1;
    if i < last {
      PositionsMean(owner, pairs[..last], i);
    }
  }
}
