/** Sorting by an order in which different elements may be equal, and the order of strings. */
module Sorting {
  import opened Sequences

  ghost predicate Sorted<T>(s: seq<T>, less: (T, T) -> bool) {
    forall i, j :: 0 <= i < j < |s| ==> !less(s[j], s[i])
  }

  /** less is asymmetric, and not being less is transitive. */
  ghost predicate WeakOrder<T(!new)>(less: (T, T) -> bool) {
    (forall a, b :: less(a, b) ==> !less(b, a)) &&
    (forall a, b, c :: !less(b, a) && !less(c, b) ==> !less(c, a))
  }

  /** Sorts s. The order of equal elements is left open. */
  method SortBy<T(!new)>(s: seq<T>, less: (T, T) -> bool) returns (sorted: seq<T>)
    requires WeakOrder(less)
    ensures IsPermutation(sorted, s) && Sorted(sorted, less)
  {
    sorted := [];
    ghost var seen: seq<T> := [];
    for i := 0 to |s|
      invariant seen == s[..i]
      invariant multiset(sorted) == multiset(seen) && Sorted(sorted, less)
    {
      sorted := Insert(sorted, s[i], less);
      TakeSnoc(s, i);
      seen := seen + [s[i]];
    }
    TakeAll(s);
  }

  method Insert<T(!new)>(s: seq<T>, x: T, less: (T, T) -> bool) returns (r: seq<T>)
    requires WeakOrder(less) && Sorted(s, less)
    ensures multiset(r) == multiset(s) + multiset{x} && Sorted(r, less)
  {
    var k := |s|;
    while k > 0 && less(x, s[k - 1])
      invariant 0 <= k <= |s|
      invariant k < |s| ==> less(x, s[k])
    {
      k := k - 1;
    }
    r := s[..k] + [x] + s[k..];
    assert s == s[..k] + s[k..];
    InsertedSorted(s, x, k, less);
  }

  lemma InsertedSorted<T(!new)>(s: seq<T>, x: T, k: nat, less: (T, T) -> bool)
    requires WeakOrder(less) && Sorted(s, less) && k <= |s|
    requires k < |s| ==> less(x, s[k])
    requires k > 0 ==> !less(x, s[k - 1])
    ensures Sorted(s[..k] + [x] + s[k..], less)
  {
    var r := s[..k] + [x] + s[k..];
    forall j | 0 <= j < k ensures !less(x, s[j]) {
      if j < k - 1 {
        assert !less(s[k - 1], s[j]);
      }
    }
    forall j | k <= j < |s| ensures !less(s[j], x) {
      if j > k {
        assert !less(s[j], s[k]) && !less(s[k], x);
      }
    }
    forall i, j | 0 <= i < j < |r| ensures !less(r[j], r[i]) {
      if i < k < j {
        assert r[i] == s[i] && r[j] == s[j - 1];
      } else if k < i {
        assert r[i] == s[i - 1] && r[j] == s[j - 1];
      }
    }
  }

  /** The byte order of strings. */
  predicate StringLess(a: string, b: string) {
    b != "" && (a == "" || a[0] < b[0] || (a[0] == b[0] && StringLess(a[1..], b[1..])))
  }

  /** Where two strings part, one ends or has the smaller character. */
  lemma {:induction false} LessExact(a: string, b: string)
    ensures StringLess(a, b) <==> exists i :: PartsAt(a, b, i)
  {
    if a != "" && b != "" && a[0] == b[0] {
      LessExact(a[1..], b[1..]);
      if i :| PartsAt(a[1..], b[1..], i) {
        assert a[..i + 1] == [a[0]] + a[1..][..i] && b[..i + 1] == [b[0]] + b[1..][..i];
        assert PartsAt(a, b, i + 1);
      }
      if i :| PartsAt(a, b, i) {
        assert i > 0 && a[1..][..i - 1] == a[..i][1..] && b[1..][..i - 1] == b[..i][1..];
        assert PartsAt(a[1..], b[1..], i - 1);
      }
    } else if b != "" && (a == "" || a[0] < b[0]) {
      assert PartsAt(a, b, 0);
    }
  }

  ghost predicate PartsAt(a: string, b: string, i: int) {
    0 <= i <= |a| && i < |b| && a[..i] == b[..i] && (i == |a| || a[i] < b[i])
  }

  lemma {:induction false} LessTransitive(a: string, b: string, c: string)
    requires !StringLess(b, a) && !StringLess(c, b)
    ensures !StringLess(c, a)
  {
    if a != "" && b != "" && c != "" {
      if a[0] == b[0] == c[0] {
        LessTransitive(a[1..], b[1..], c[1..]);
      }
    }
  }

  lemma {:induction false} LessAsymmetric(a: string, b: string)
    requires StringLess(a, b)
    ensures !StringLess(b, a)
  {
    if a != "" && a[0] == b[0] {
      LessAsymmetric(a[1..], b[1..]);
    }
  }

  lemma NotLessThanItself(v: string)
    ensures !StringLess(v, v)
  {
    if StringLess(v, v) {
      LessAsymmetric(v, v);
    }
  }

  function ByName(): (string, string) -> bool {
    (a: string, b: string) => StringLess(a, b)
  }

  lemma NamesOrdered()
    ensures WeakOrder(ByName())
  {
    forall a, b | ByName()(a, b) ensures !ByName()(b, a) {
      LessAsymmetric(a, b);
    }
    forall a, b, c | !ByName()(b, a) && !ByName()(c, b) ensures !ByName()(c, a) {
      LessTransitive(a, b, c);
    }
  }

  method SortNames(names: seq<string>) returns (sorted: seq<string>)
    ensures IsPermutation(sorted, names) && Sorted(sorted, ByName())
  {
    NamesOrdered();
    sorted := SortBy(names, ByName());
  }

  lemma {:induction false} LessTotal(a: string, b: string)
    requires !StringLess(a, b) && !StringLess(b, a)
    ensures a == b
  {
    if a != "" && b != "" {
      LessTotal(a[1..], b[1..]);
      assert a == [a[0]] + a[1..] && b == [b[0]] + b[1..];
    }
  }

  /** Names can be put in order in one way only. */
  lemma {:induction false} SortedOnce(a: seq<string>, b: seq<string>)
    requires NoDup(a) && NoDup(b) && Sorted(a, ByName()) && Sorted(b, ByName()) && Elements(a) == Elements(b)
    ensures a == b
  {
    NoDupLength(a);
    NoDupLength(b);
    if a != [] {
      assert a[0] in Elements(a) && a[0] in b;
      assert b[0] in Elements(b) && b[0] in a;
      var i :| 0 <= i < |a| && a[i] == b[0];
      var j :| 0 <= j < |b| && b[j] == a[0];
      assert !ByName()(a[i], a[0]) by {
        NamesOrdered();
      }
      assert !ByName()(b[j], b[0]) by {
        NamesOrdered();
      }
      LessTotal(a[0], b[0]);
      RestOf(a);
      RestOf(b);
      SortedOnce(a[1..], b[1..]);
    }
  }

  lemma RestOf(s: seq<string>)
    requires s != [] && NoDup(s)
    ensures Elements(s[1..]) == Elements(s) - {s[0]}
  {
    assert s == [s[0]] + s[1..];
  }
}
