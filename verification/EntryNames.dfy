/**
  Which model of a family carries the ai_models name (revert/model.go, giveEntriesToFirst).

  The models of a family share one ai_models row. The owner of the family holds the name of the
  row; the converter writes the row from the first model in document order. `Given` is the
  exchange of names as a function on values; ModelOrder.ModelAcc performs it on the groups.
 */
module EntryNames {
  import opened Sequences

  datatype Member = Member(name: string, alias: string, values: seq<string>, mergedFKs: seq<string>,
                           split: bool, familyKey: string, ownSelector: bool)
  {
    /** Whether route.model.values lists several aliases, or the aliases of a fan-out were merged. */
    predicate FannedOut() {
      |values| > 1 || |mergedFKs| > 0
    }

    /** The member under another name, with route.model.values following the name. */
    function Renamed(newName: string): Member {
      var values' := if ownSelector then values else if newName == alias then [] else [alias];
      this.(name := newName, values := values')
    }
  }

  /** Every split member names the owner of its family, which is not split itself. */
  ghost predicate Families(ms: map<string, Member>) {
    forall k :: k in ms && ms[k].split ==> ms[k].familyKey in ms && !ms[ms[k].familyKey].split
  }

  /** The key of the owner of the family of k. */
  function Family(ms: map<string, Member>, k: string): string
    requires k in ms
  {
    if ms[k].split then ms[k].familyKey else k
  }

  /** The first key of keys whose model belongs to family f. */
  function FirstOf(ms: map<string, Member>, keys: seq<string>, f: string): (r: Option<string>)
    requires forall k :: k in keys ==> k in ms
    ensures r.None? <==> forall k :: k in keys ==> Family(ms, k) != f
    ensures r.Some? ==> r.value in keys && Family(ms, r.value) == f
  {
    if keys == [] then None else
      var init := keys[..|keys| - 1];
      assert keys == init + [keys[|keys| - 1]];
      var r := FirstOf(ms, init, f);
      if r.Some? then r
      else if Family(ms, keys[|keys| - 1]) == f then Some(keys[|keys| - 1]) else None
  }

  /** One step: the model of k is visited; seen tells whether its family was visited before. */
  function Visit(ms: map<string, Member>, seen: bool, k: string): map<string, Member>
    requires k in ms
  {
    var f := Family(ms, k);
    if f !in ms || seen || f == k || ms[f].FannedOut() then ms
    else ms[k := ms[k].Renamed(ms[f].name)][f := ms[f].Renamed(ms[k].name)]
  }

  /** The members after every key was visited in order. */
  function Given(ms: map<string, Member>, keys: seq<string>): (r: map<string, Member>)
    requires forall k :: k in keys ==> k in ms
    ensures r.Keys == ms.Keys
  {
    if keys == [] then ms else
      var init := keys[..|keys| - 1];
      var last := keys[|keys| - 1];
      Visit(Given(ms, init), FirstOf(ms, init, Family(ms, last)).Some?, last)
  }

  lemma {:induction false} GivenKeepsFamilies(ms: map<string, Member>, keys: seq<string>)
    requires forall k :: k in keys ==> k in ms
    ensures forall k :: k in ms ==>
              Given(ms, keys)[k].split == ms[k].split && Given(ms, keys)[k].familyKey == ms[k].familyKey
  {
    if keys != [] {
      GivenKeepsFamilies(ms, keys[..|keys| - 1]);
    }
  }

  lemma GivenSnoc(ms: map<string, Member>, keys: seq<string>, k: string)
    requires k in ms && forall j :: j in keys ==> j in ms
    ensures Given(ms, keys + [k]) == Visit(Given(ms, keys), FirstOf(ms, keys, Family(ms, k)).Some?, k)
  {
    assert (keys + [k])[..|keys|] == keys;
  }

  /** What the exchange leaves for k, when first is the first visited key of its family. */
  function Exchanged(ms: map<string, Member>, first: Option<string>, k: string): Member
    requires Families(ms) && k in ms && (first.Some? ==> first.value in ms)
  {
    var f := Family(ms, k);
    if first.None? || first.value == f || ms[f].FannedOut() then ms[k]
    else if k == first.value then ms[k].Renamed(ms[f].name)
    else if k == f then ms[k].Renamed(ms[first.value].name)
    else ms[k]
  }

  /** A further key changes only the first of its own family, and only when there was none. */
  lemma FirstOfSnoc(ms: map<string, Member>, keys: seq<string>, k: string, f: string)
    requires k in ms && forall j :: j in keys ==> j in ms
    ensures FirstOf(ms, keys + [k], f) ==
            if FirstOf(ms, keys, f).Some? then FirstOf(ms, keys, f)
            else if Family(ms, k) == f then Some(k) else None
  {
    assert (keys + [k])[..|keys|] == keys;
  }

  /**
    The visits exchange, in every family whose owner is neither its first member nor a fan-out, the
    names of the owner and of the first member, and nothing else.
   */
  lemma {:induction false} GivenIsExchanged(ms: map<string, Member>, keys: seq<string>)
    requires Families(ms) && forall k :: k in keys ==> k in ms
    ensures forall k :: k in ms ==> Given(ms, keys)[k] == Exchanged(ms, FirstOf(ms, keys, Family(ms, k)), k)
  {
    if keys != [] {
      var init, last := keys[..|keys| - 1], keys[|keys| - 1];
      assert keys == init + [last];
      GivenIsExchanged(ms, init);
      var before, f := Given(ms, init), Family(ms, last);
      GivenKeepsFamilies(ms, init);
      forall k | k in ms ensures Given(ms, keys)[k] == Exchanged(ms, FirstOf(ms, keys, Family(ms, k)), k) {
        FirstOfSnoc(ms, init, last, Family(ms, k));
        assert f in ms && Family(ms, f) == f;
        assert before[f] == Exchanged(ms, FirstOf(ms, init, f), f);
        assert before[last] == Exchanged(ms, FirstOf(ms, init, f), last);
        VisitExchanges(ms, before, FirstOf(ms, init, f), FirstOf(ms, init, Family(ms, k)), last, k);
      }
    }
  }

  lemma VisitExchanges(ms: map<string, Member>, before: map<string, Member>, first: Option<string>,
                       firstOfK: Option<string>, last: string, k: string)
    requires Families(ms) && last in ms && k in ms && before.Keys == ms.Keys
    requires before[last].split == ms[last].split && before[last].familyKey == ms[last].familyKey
    requires first.Some? ==> first.value in ms
    requires firstOfK.Some? ==> firstOfK.value in ms
    requires Family(ms, k) == Family(ms, last) ==> firstOfK == first
    requires var f := Family(ms, last);
             before[f] == Exchanged(ms, first, f) && before[last] == Exchanged(ms, first, last)
    requires before[k] == Exchanged(ms, firstOfK, k)
    ensures var f := Family(ms, k);
            var now := if firstOfK.Some? then firstOfK else if Family(ms, last) == f then Some(last) else None;
            Visit(before, first.Some?, last)[k] == Exchanged(ms, now, k)
  {
  }

  ghost function NameList(ms: map<string, Member>, keys: seq<string>): seq<string>
    requires forall k :: k in keys ==> k in ms
  {
    seq(|keys|, i requires 0 <= i < |keys| => assert keys[i] in keys; ms[keys[i]].name)
  }

  /** The exchange conserves the multiset of the names. */
  lemma {:induction false} NamesConserved(ms: map<string, Member>, visited: seq<string>, keys: seq<string>)
    requires NoDup(keys) && forall k :: k in keys <==> k in ms
    requires forall k :: k in visited ==> k in ms
    ensures multiset(NameList(Given(ms, visited), keys)) == multiset(NameList(ms, keys))
  {
    if visited != [] {
      var init, last := visited[..|visited| - 1], visited[|visited| - 1];
      assert last in visited;
      NamesConserved(ms, init, keys);
      VisitConserves(Given(ms, init), FirstOf(ms, init, Family(ms, last)).Some?, last, keys);
    }
  }

  lemma VisitConserves(ms: map<string, Member>, seen: bool, k: string, keys: seq<string>)
    requires NoDup(keys) && k in ms && forall j :: j in keys <==> j in ms
    ensures multiset(NameList(Visit(ms, seen, k), keys)) == multiset(NameList(ms, keys))
  {
    var f, names, after := Family(ms, k), NameList(ms, keys), Visit(ms, seen, k);
    if f in ms && !seen && f != k && !ms[f].FannedOut() {
      var i := PositionOf(keys, k);
      var j := PositionOf(keys, f);
      SwapMultiset(names, i, j);
      var swapped := names[i := names[j]][j := names[i]];
      forall m | 0 <= m < |keys| ensures after[keys[m]].name == swapped[m] {
        assert keys[m] == k <==> m == i;
        assert keys[m] == f <==> m == j;
      }
      assert NameList(after, keys) == swapped;
    }
  }

  lemma PositionOf(keys: seq<string>, k: string) returns (i: nat)
    requires k in keys
    ensures i < |keys| && keys[i] == k
  {
    i :| 0 <= i < |keys| && keys[i] == k;
  }

  /** Afterwards the first member of every family without a fan-out owner holds the name that its owner had. */
  lemma FirstHoldsRowName(ms: map<string, Member>, keys: seq<string>, f: string)
    requires Families(ms) && f in ms && !ms[f].split && !ms[f].FannedOut()
    requires forall k :: k in keys ==> k in ms
    requires FirstOf(ms, keys, f).Some?
    ensures Given(ms, keys)[FirstOf(ms, keys, f).value].name == ms[f].name
  {
    GivenIsExchanged(ms, keys);
  }

  /** A family with a fan-out owner keeps every name, and so does every member between the two that exchange. */
  lemma OnlyOwnerAndFirstChange(ms: map<string, Member>, keys: seq<string>, k: string)
    requires Families(ms) && k in ms && forall j :: j in keys ==> j in ms
    requires var f := Family(ms, k);
             ms[f].FannedOut() || (k != f && FirstOf(ms, keys, f) != Some(k))
    ensures Given(ms, keys)[k] == ms[k]
  {
    GivenIsExchanged(ms, keys);
  }

  // ---------------------------------------------------------------------------------------------
  // The exchange, member by member
  // ---------------------------------------------------------------------------------------------

  ghost predicate InFamily(ms: map<string, Member>, k: string, f: string) {
    k in ms && f == if ms[k].split then ms[k].familyKey else k
  }

  ghost predicate IsFirst(ms: map<string, Member>, keys: seq<string>, i: int, f: string) {
    0 <= i < |keys| && InFamily(ms, keys[i], f) && forall j :: 0 <= j < i ==> !InFamily(ms, keys[j], f)
  }

  ghost predicate FirstIs(ms: map<string, Member>, keys: seq<string>, f: string, first: string) {
    exists i :: IsFirst(ms, keys, i, f) && keys[i] == first
  }

  /** The first member of the family that is visited is not its owner, and the owner has no more than one alias. */
  ghost predicate Exchanges(ms: map<string, Member>, keys: seq<string>, f: string, first: string) {
    f in ms && first != f && |ms[f].values| <= 1 && ms[f].mergedFKs == [] && FirstIs(ms, keys, f, first)
  }

  /** m' is m under this name. Without a selector of its own it lists its alias unless that is the name. */
  ghost predicate Under(m: Member, name: string, m': Member) {
    m' == Member(name, m.alias, if m.ownSelector then m.values else if name == m.alias then [] else [m.alias],
                 m.mergedFKs, m.split, m.familyKey, m.ownSelector)
  }

  lemma {:induction false} FirstOfMeans(ms: map<string, Member>, keys: seq<string>, f: string)
    requires forall k :: k in keys ==> k in ms
    ensures FirstOf(ms, keys, f).Some? ==> FirstIs(ms, keys, f, FirstOf(ms, keys, f).value)
    ensures forall i :: IsFirst(ms, keys, i, f) ==> FirstOf(ms, keys, f) == Some(keys[i])
  {
    if keys != [] {
      var init, last := keys[..|keys| - 1], keys[|keys| - 1];
      assert keys == init + [last] && last in keys;
      FirstOfMeans(ms, init, f);
      FirstNext(ms, init, last, f);
    }
  }

  lemma FirstNext(ms: map<string, Member>, init: seq<string>, last: string, f: string)
    requires last in ms && forall k :: k in init ==> k in ms
    ensures forall i :: 0 <= i < |init| ==> (IsFirst(ms, init + [last], i, f) <==> IsFirst(ms, init, i, f))
    ensures IsFirst(ms, init + [last], |init|, f) <==>
            Family(ms, last) == f && forall k :: k in init ==> Family(ms, k) != f
    ensures forall first :: FirstIs(ms, init, f, first) ==> FirstIs(ms, init + [last], f, first)
  {
    var keys := init + [last];
    assert forall j :: 0 <= j < |init| ==> keys[j] == init[j] && init[j] in init;
    forall first | FirstIs(ms, init, f, first) ensures FirstIs(ms, keys, f, first) {
      var i :| IsFirst(ms, init, i, f) && init[i] == first;
      assert IsFirst(ms, keys, i, f);
    }
  }

  /** The owner of a family and the first member visited exchange names if they are two and the owner is no fan-out. */
  lemma GivenMeans(ms: map<string, Member>, keys: seq<string>, f: string, first: string)
    requires Families(ms) && Exchanges(ms, keys, f, first) && forall j :: j in keys ==> j in ms
    ensures first in ms && Under(ms[first], ms[f].name, Given(ms, keys)[first])
    ensures Under(ms[f], ms[first].name, Given(ms, keys)[f])
  {
    GivenIsExchanged(ms, keys);
    FirstOfMeans(ms, keys, f);
  }

  /** No other name changes. */
  lemma OthersKeepNames(ms: map<string, Member>, keys: seq<string>, k: string, f: string)
    requires Families(ms) && InFamily(ms, k, f) && forall j :: j in keys ==> j in ms
    requires forall first :: Exchanges(ms, keys, f, first) ==> k != first && k != f
    ensures Given(ms, keys)[k] == ms[k]
  {
    GivenIsExchanged(ms, keys);
    FirstOfMeans(ms, keys, f);
    var r := FirstOf(ms, keys, f);
    if r.Some? && r.value != f && !ms[f].FannedOut() {
      assert Exchanges(ms, keys, f, r.value);
    }
  }
}
