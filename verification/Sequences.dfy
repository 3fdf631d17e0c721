/** Small facts about sequences, sets and multisets that several components share. */
module Sequences {

  datatype Option<+T> = None | Some(value: T)

  predicate HasPrefix(s: string, p: string) {
    |p| <= |s| && s[..|p|] == p
  }

  predicate HasSuffix(s: string, t: string) {
    |t| <= |s| && s[|s| - |t|..] == t
  }

  /** No element occurs twice. */
  ghost predicate NoDup<T>(s: seq<T>) {
    forall i, j :: 0 <= i < j < |s| ==> s[i] != s[j]
  }

  /** The elements of a sequence. */
  ghost function Elements<T>(s: seq<T>): set<T> {
    set x | x in s
  }

  lemma NoDupConcat<T>(a: seq<T>, b: seq<T>)
    requires NoDup(a) && NoDup(b) && forall x :: x in a ==> x !in b
    ensures NoDup(a + b)
  {
    forall i, j | 0 <= i < j < |a + b| ensures (a + b)[i] != (a + b)[j] {
      if i < |a| <= j {
        assert (a + b)[i] in a && (a + b)[j] in b;
      }
    }
  }

  lemma TakeSnoc<T>(s: seq<T>, i: nat)
    requires i < |s|
    ensures s[..i + 1] == s[..i] + [s[i]]
  {
  }

  lemma TakeAll<T>(s: seq<T>)
    ensures s[..|s|] == s
  {
  }

  /** x stands ahead of y. */
  ghost predicate Ahead<T>(s: seq<T>, x: T, y: T) {
    exists i, j :: 0 <= i < j < |s| && s[i] == x && s[j] == y
  }

  lemma AheadGrows<T>(s: seq<T>, last: T)
    ensures forall x, y :: Ahead(s, x, y) ==> Ahead(s + [last], x, y)
    ensures forall x :: x in s ==> Ahead(s + [last], x, last)
  {
    var more := s + [last];
    forall x, y | Ahead(s, x, y) ensures Ahead(more, x, y) {
      var i, j :| 0 <= i < j < |s| && s[i] == x && s[j] == y;
      assert more[i] == x && more[j] == y;
    }
    forall x | x in s ensures Ahead(more, x, last) {
      var i :| 0 <= i < |s| && s[i] == x;
      assert more[i] == x && more[|s|] == last;
    }
  }

  lemma NotBothAhead<T>(s: seq<T>, x: T, y: T)
    requires NoDup(s) && Ahead(s, x, y)
    ensures x != y && !Ahead(s, y, x)
  {
  }

  ghost predicate Ascending(indices: seq<nat>) {
    forall i, j :: 0 <= i < j < |indices| ==> indices[i] < indices[j]
  }

  lemma AscendingNext(indices: seq<nat>, n: nat)
    requires Ascending(indices) && forall i :: i in indices ==> i < n
    ensures Ascending(indices + [n])
  {
    assert forall k :: 0 <= k < |indices| ==> indices[k] in indices;
  }

  /** ys are the elements of xs at these positions, in order. */
  ghost predicate Picks<T>(xs: seq<T>, positions: seq<nat>, ys: seq<T>) {
    Ascending(positions) && |ys| == |positions| &&
    forall k :: 0 <= k < |ys| ==> positions[k] < |xs| && ys[k] == xs[positions[k]]
  }

  /** One more element is picked, or is not. */
  lemma PicksNext<T>(xs: seq<T>, last: T, positions: seq<nat>, ys: seq<T>)
    requires Picks(xs, positions, ys)
    ensures Picks(xs + [last], positions, ys)
    ensures Picks(xs + [last], positions + [|xs|], ys + [last])
  {
    AscendingNext(positions, |xs|);
  }

  /** The segments, one behind the other. */
  function Flatten<T>(segments: seq<seq<T>>): seq<T> {
    if segments == [] then [] else Flatten(segments[..|segments| - 1]) + segments[|segments| - 1]
  }

  /** A place in segments: the segment, and the position in it. */
  datatype Location = Location(segment: nat, position: nat)
  {
    predicate Precedes(other: Location) {
      segment < other.segment || (segment == other.segment && position < other.position)
    }
  }

  /** The places are all those of the segments, in order, and s has the elements at these places. */
  ghost predicate Lays<T>(segments: seq<seq<T>>, places: seq<Location>, s: seq<T>) {
    (forall i, j :: 0 <= i < j < |places| ==> places[i].Precedes(places[j])) &&
    (forall x :: x in places <==> x.segment < |segments| && x.position < |segments[x.segment]|) &&
    |s| == |places| &&
    forall k :: 0 <= k < |s| ==> places[k] in places && s[k] == segments[places[k].segment][places[k].position]
  }

  lemma {:induction false} FlattenLays<T>(segments: seq<seq<T>>) returns (places: seq<Location>)
    ensures Lays(segments, places, Flatten(segments))
  {
    places := [];
    if segments != [] {
      var init, last := segments[..|segments| - 1], segments[|segments| - 1];
      assert segments == init + [last];
      var before := FlattenLays(init);
      var more := seq(|last|, i requires 0 <= i < |last| => Location(|init|, i));
      places := before + more;
      assert forall i: nat :: i < |last| ==> more[i] == Location(|init|, i);
      forall x ensures x in places <==> x.segment < |segments| && x.position < |segments[x.segment]| {
        if x.segment == |init| && x.position < |last| {
          assert more[x.position] == x;
        }
        assert x in places <==> x in before || x in more;
      }
      assert forall k :: 0 <= k < |before| ==> before[k] in before;
      assert forall k :: 0 <= k < |places| ==> places[k] in places;
    }
  }

  ghost predicate IsPermutation<T>(a: seq<T>, b: seq<T>) {
    multiset(a) == multiset(b)
  }

  /** A sequence without repeats that draws from a set is no longer than the set. */
  lemma {:induction false} Pigeonhole<T>(s: seq<T>, u: set<T>)
    requires NoDup(s)
    requires forall x :: x in s ==> x in u
    ensures |s| <= |u|
  {
    if s != [] {
      var last := |s| - 1;
      forall x | x in s[..last] ensures x in u - {s[last]} {
        assert x in s;
      }
      Pigeonhole(s[..last], u - {s[last]});
    }
  }

  lemma {:induction false} NoDupLength<T>(s: seq<T>)
    requires NoDup(s)
    ensures |s| == |Elements(s)|
  {
    if s != [] {
      var last := |s| - 1;
      NoDupLength(s[..last]);
      assert Elements(s) == Elements(s[..last]) + {s[last]};
      assert s[last] !in Elements(s[..last]);
    } else {
      assert Elements(s) == {};
    }
  }

  lemma {:induction false} NoDupMultiplicity<T>(s: seq<T>)
    requires NoDup(s)
    ensures forall x :: multiset(s)[x] == if x in s then 1 else 0
  {
    if s != [] {
      var last := |s| - 1;
      NoDupMultiplicity(s[..last]);
      assert s == s[..last] + [s[last]];
      assert multiset(s) == multiset(s[..last]) + multiset{s[last]};
      forall x ensures multiset(s)[x] == if x in s then 1 else 0 {
        assert x in s <==> x in s[..last] || x == s[last];
      }
    }
  }

  lemma SubsetSize<T>(a: set<T>, b: set<T>)
    requires a <= b
    ensures |a| <= |b|
  {
    assert b == a + (b - a);
  }

  lemma SubsetOfSameSize<T>(a: set<T>, b: set<T>)
    requires a <= b && |a| >= |b|
    ensures a == b
  {
    assert b == a + (b - a);
    assert |b| == |a| + |b - a|;
  }

  /** Two repeat-free sequences with the same elements are permutations of each other. */
  lemma SameElementsPermute<T>(a: seq<T>, b: seq<T>)
    requires NoDup(a) && NoDup(b)
    requires forall x :: x in a <==> x in b
    ensures IsPermutation(a, b)
  {
    NoDupMultiplicity(a);
    NoDupMultiplicity(b);
    assert forall x :: multiset(a)[x] == multiset(b)[x];
  }

  lemma PermutationFacts<T>(a: seq<T>, b: seq<T>)
    requires IsPermutation(a, b)
    ensures |a| == |b|
    ensures forall x :: x in a <==> x in b
    ensures NoDup(a) ==> NoDup(b)
  {
    assert |multiset(a)| == |a| && |multiset(b)| == |b|;
    forall x ensures x in a <==> x in b {
      assert x in a <==> x in multiset(a);
      assert x in b <==> x in multiset(b);
    }
    if NoDup(a) {
      NoDupMultiplicity(a);
      forall i, j | 0 <= i < j < |b| ensures b[i] != b[j] {
        if b[i] == b[j] {
          RepeatedMultiplicity(b, i, j);
        }
      }
    }
  }

  lemma RepeatedMultiplicity<T>(s: seq<T>, i: int, j: int)
    requires 0 <= i < j < |s| && s[i] == s[j]
    ensures multiset(s)[s[i]] >= 2
  {
    assert s == s[..j] + [s[j]] + s[j + 1..];
    assert s[i] in s[..j];
    assert multiset(s[..j])[s[i]] >= 1;
  }

  /** Exchanging two elements keeps the multiset. */
  lemma SwapMultiset<T>(s: seq<T>, i: int, j: int)
    requires 0 <= i < |s| && 0 <= j < |s|
    ensures multiset(s[i := s[j]][j := s[i]]) == multiset(s)
  {
  }

  /** The elements of ps at the given positions. */
  function At<T>(ps: seq<T>, order: seq<nat>): (r: seq<T>)
    requires forall i :: i in order ==> i < |ps|
    ensures |r| == |order|
    ensures forall k :: 0 <= k < |order| ==> order[k] in order && r[k] == ps[order[k]]
  {
    seq(|order|, k requires 0 <= k < |order| => assert order[k] in order; ps[order[k]])
  }

  lemma AtConcat<T>(ps: seq<T>, a: seq<nat>, b: seq<nat>)
    requires (forall i :: i in a ==> i < |ps|) && (forall i :: i in b ==> i < |ps|)
    ensures forall i :: i in a + b ==> i < |ps|
    ensures At(ps, a + b) == At(ps, a) + At(ps, b)
  {
  }

  lemma {:induction false} AtMultiset<T>(ps: seq<T>, a: seq<nat>, b: seq<nat>)
    requires multiset(a) == multiset(b)
    requires (forall i :: i in a ==> i < |ps|) && (forall i :: i in b ==> i < |ps|)
    ensures multiset(At(ps, a)) == multiset(At(ps, b))
  {
    if a == [] {
      assert |multiset(b)| == 0;
    } else {
      var x, init := a[|a| - 1], a[..|a| - 1];
      assert a == init + [x];
      assert x in a && forall i :: i in init ==> i in a;
      var left, right := SplitAround(init, x, b);
      AtMultiset(ps, init, left + right);
      AtConcat(ps, left, right);
      AtConcat(ps, left, [x]);
      AtConcat(ps, left + [x], right);
      AtConcat(ps, init, [x]);
    }
  }

  lemma SplitAround(init: seq<nat>, x: nat, b: seq<nat>) returns (left: seq<nat>, right: seq<nat>)
    requires multiset(init + [x]) == multiset(b)
    ensures b == left + [x] + right
    ensures multiset(left + right) == multiset(init)
    ensures (forall i :: i in left + right ==> i in b) && (forall i :: i in left ==> i in b) &&
            (forall i :: i in right ==> i in b)
  {
    assert x in multiset(b);
    var j :| 0 <= j < |b| && b[j] == x;
    left, right := b[..j], b[j + 1..];
    assert b == left + [x] + right;
    assert multiset(b) == multiset(left) + multiset{x} + multiset(right);
    assert multiset(left + right) == multiset(b) - multiset{x} == multiset(init);
  }

  /** Listing every position once permutes the sequence. */
  lemma AtPermutes<T>(ps: seq<T>, order: seq<nat>)
    requires NoDup(order) && forall i: int :: i in order <==> 0 <= i < |ps|
    ensures IsPermutation(At(ps, order), ps)
  {
    var all := seq(|ps|, i requires 0 <= i < |ps| => i);
    forall i: nat ensures i in all <==> i in order {
      if i < |ps| {
        assert all[i] == i;
      }
    }
    SameElementsPermute(order, all);
    AtMultiset(ps, order, all);
    assert At(ps, all) == ps;
  }
}
