/**
  Which endpoints of a model keep their path, in terms of the formats and the targets alone
  (convert/model_endpoints.go, keepEqualPaths).
 */
module KeptPaths {
  import opened Sequences
  import opened Endpoints
  import EqualPaths

  type Pair = EqualPaths.Pair

  type Targets = EqualPaths.Targets

  /** Some target has an endpoint with the same suffix, of the same kind, in the format. */
  ghost predicate Uses(targets: Targets, format: string, spec: EndpointSpec) {
    exists t, i, j :: UsesAt(targets, format, spec, t, i, j)
  }

  ghost predicate UsesAt(targets: Targets, format: string, spec: EndpointSpec, t: int, i: int, j: int) {
    t in targets && 0 <= i < |targets[t]| && targets[t][i].format == format && 0 <= j < |targets[t][i].specs| &&
    targets[t][i].specs[j].pathSuffix == spec.pathSuffix && targets[t][i].specs[j].isRegex == spec.isRegex
  }

  /** The format is the first of the formats that uses the path, or has no name and none of them uses it. */
  ghost predicate KeepsPath(formats: seq<string>, targets: Targets, format: string, spec: EndpointSpec) {
    if forall f :: f in formats ==> !Uses(targets, f, spec) then format == ""
    else exists n :: FirstUses(formats, targets, n, spec) && formats[n] == format
  }

  ghost predicate FirstUses(formats: seq<string>, targets: Targets, n: int, spec: EndpointSpec) {
    0 <= n < |formats| && Uses(targets, formats[n], spec) && forall k :: 0 <= k < n ==> !Uses(targets, formats[k], spec)
  }

  /** kept are the specs of the pair whose path its format keeps, in order. */
  ghost predicate KeepsSpecs(formats: seq<string>, targets: Targets, pair: Pair, positions: seq<nat>,
      kept: seq<EndpointSpec>) {
    Picks(pair.specs, positions, kept) &&
    forall j: nat :: j in positions <==> j < |pair.specs| && KeepsPath(formats, targets, pair.format, pair.specs[j])
  }

  lemma UsesExactly(targets: Targets, format: string, spec: EndpointSpec)
    ensures Uses(targets, format, spec) <==> EqualPaths.Serves(targets, format, EqualPaths.KeyOf(spec))
  {
    var key := EqualPaths.KeyOf(spec);
    if t, i, j :| UsesAt(targets, format, spec, t, i, j) {
      assert EqualPaths.KeyOf(targets[t][i].specs[j]) == key;
      assert EqualPaths.PairsServe(targets[t], format, key);
    }
    if EqualPaths.Serves(targets, format, key) {
      var t :| t in targets && EqualPaths.PairsServe(targets[t], format, key);
      var i, j :| 0 <= i < |targets[t]| && targets[t][i].format == format && 0 <= j < |targets[t][i].specs| &&
          EqualPaths.KeyOf(targets[t][i].specs[j]) == key;
      assert UsesAt(targets, format, spec, t, i, j);
    }
  }

  lemma OwnerExactly(formats: seq<string>, targets: Targets, format: string, spec: EndpointSpec)
    ensures EqualPaths.Owner(formats, targets, EqualPaths.KeyOf(spec)) == format <==>
            KeepsPath(formats, targets, format, spec)
  {
    var key := EqualPaths.KeyOf(spec);
    forall f ensures Uses(targets, f, spec) <==> EqualPaths.Serves(targets, f, key) {
      UsesExactly(targets, f, spec);
    }
    var n := EqualPaths.FirstServing(formats, targets, key);
    if n < |formats| {
      EqualPaths.OwnerServes(formats, targets, key, n);
      assert formats[n] in formats && FirstUses(formats, targets, n, spec);
      assert forall k :: FirstUses(formats, targets, k, spec) ==> k == n;
    } else {
      EqualPaths.OwnerNone(formats, targets, key);
    }
  }

  lemma {:induction false} SpecsPick(owner: EqualPaths.PathKey -> string, format: string, specs: seq<EndpointSpec>)
    returns (positions: seq<nat>)
    ensures Picks(specs, positions, EqualPaths.KeptSpecs(owner, format, specs))
    ensures forall j: nat :: j in positions <==> j < |specs| && owner(EqualPaths.KeyOf(specs[j])) == format
  {
    positions := [];
    if specs != [] {
      var init, last := specs[..|specs| - 1], specs[|specs| - 1];
      assert specs == init + [last];
      positions := SpecsPick(owner, format, init);
      KeptSnoc(owner, format, init, last);
      PicksNext(init, last, positions, EqualPaths.KeptSpecs(owner, format, init));
      if owner(EqualPaths.KeyOf(last)) == format {
        positions := positions + [|init|];
      }
    }
  }

  lemma PairKeeps(formats: seq<string>, targets: Targets, pair: Pair) returns (positions: seq<nat>)
    ensures KeepsSpecs(formats, targets, pair, positions,
                EqualPaths.KeptPair(EqualPaths.OwnerBy(formats, targets), pair).specs)
  {
    positions := SpecsPick(EqualPaths.OwnerBy(formats, targets), pair.format, pair.specs);
    forall j | 0 <= j < |pair.specs|
      ensures EqualPaths.OwnerBy(formats, targets)(EqualPaths.KeyOf(pair.specs[j])) == pair.format <==>
              KeepsPath(formats, targets, pair.format, pair.specs[j])
    {
      OwnerExactly(formats, targets, pair.format, pair.specs[j]);
    }
  }

  lemma KeptSnoc(owner: EqualPaths.PathKey -> string, format: string, init: seq<EndpointSpec>, last: EndpointSpec)
    ensures EqualPaths.KeptSpecs(owner, format, init + [last]) ==
            if owner(EqualPaths.KeyOf(last)) == format then EqualPaths.KeptSpecs(owner, format, init) + [last]
            else EqualPaths.KeptSpecs(owner, format, init)
  {
    assert (init + [last])[..|init|] == init;
  }

  /**
    Each pair keeps the endpoints whose path its format keeps, in order. The pairs that keep one stay, in
    order, with their format and capability.
   */
  lemma KeptMeans(formats: seq<string>, targets: Targets, t: int)
    returns (specs: seq<seq<EndpointSpec>>, choices: seq<seq<nat>>, positions: seq<nat>)
    requires t in targets
    ensures |specs| == |choices| == |targets[t]|
    ensures forall i :: 0 <= i < |targets[t]| ==> KeepsSpecs(formats, targets, targets[t][i], choices[i], specs[i])
    ensures EqualPaths.Kept(formats, targets).Keys == targets.Keys
    ensures Ascending(positions) && |EqualPaths.Kept(formats, targets)[t]| == |positions|
    ensures forall i: nat :: i in positions <==> i < |targets[t]| && specs[i] != []
    ensures forall k :: 0 <= k < |positions| ==>
              positions[k] in positions && positions[k] < |targets[t]| &&
              EqualPaths.Kept(formats, targets)[t][k] ==
              EqualPaths.Pair(targets[t][positions[k]].format, targets[t][positions[k]].capability, specs[positions[k]])
  {
    var owner, pairs := EqualPaths.OwnerBy(formats, targets), targets[t];
    specs, choices := [], [];
    for i := 0 to |pairs|
      invariant |specs| == |choices| == i
      invariant forall j :: 0 <= j < i ==> KeepsSpecs(formats, targets, pairs[j], choices[j], specs[j])
      invariant forall j :: 0 <= j < i ==> specs[j] == EqualPaths.KeptPair(owner, pairs[j]).specs
    {
      var picked := PairKeeps(formats, targets, pairs[i]);
      specs, choices := specs + [EqualPaths.KeptPair(owner, pairs[i]).specs], choices + [picked];
    }
    positions := EqualPaths.OrderKept(owner, pairs);
    assert forall i :: i in positions ==> exists k :: 0 <= k < |positions| && positions[k] == i;
  }
}
