/**
  The searches for a free name (convert/model.go, uniqueModelRouteName; revert/model.go,
  splitModelName).

  Both try base, base-2, base-3, ... without a bound. The numbers give distinct names, so by the
  pigeonhole principle the search ends within one candidate more than there are names in use.
 */
module UniqueNames {
  import opened Sequences

  /** The decimal digits of n, as strconv.Itoa writes them. */
  function Decimal(n: nat): (s: string)
    ensures s != "" && forall i :: 0 <= i < |s| ==> '0' <= s[i] <= '9'
    ensures n > 0 ==> s[0] != '0'
  {
    var digit := [('0' as int + n % 10) as char];
    if n < 10 then digit else Decimal(n / 10) + digit
  }

  /** The number that digits spell. */
  function Value(s: string): int {
    if s == "" then 0 else 10 * Value(s[..|s| - 1]) + (s[|s| - 1] as int - '0' as int)
  }

  lemma {:induction false} DecimalRoundTrip(n: nat)
    ensures Value(Decimal(n)) == n
  {
    var s := Decimal(n);
    if n >= 10 {
      DecimalRoundTrip(n / 10);
      assert s[..|s| - 1] == Decimal(n / 10);
    } else {
      assert s[..|s| - 1] == "";
    }
  }

  function Numbered(base: string, n: nat): string {
    base + "-" + Decimal(n)
  }

  /** Different numbers give different names. */
  lemma NumberedInjective(base: string, m: nat, n: nat)
    requires Numbered(base, m) == Numbered(base, n)
    ensures m == n
  {
    assert Numbered(base, m)[|base| + 1..] == Decimal(m);
    assert Numbered(base, n)[|base| + 1..] == Decimal(n);
    DecimalRoundTrip(m);
    DecimalRoundTrip(n);
  }

  /** The names that the search tries: base, base-2, base-3, ... */
  function Try(base: string, i: nat): string {
    if i == 0 then base else Numbered(base, i + 1)
  }

  lemma TryInjective(base: string, i: nat, j: nat)
    requires Try(base, i) == Try(base, j)
    ensures i == j
  {
    if i > 0 && j > 0 {
      NumberedInjective(base, i + 1, j + 1);
    }
  }

  /** The tries from `from` up to n are all in use. */
  ghost predicate Taken(base: string, used: set<string>, from: nat, n: nat) {
    forall i :: from <= i < n ==> Try(base, i) in used
  }

  /** A search whose tries from `from` up to n are all taken runs over that many names in use. */
  lemma TakenBound(base: string, used: set<string>, from: nat, n: nat)
    requires from <= n && Taken(base, used, from, n)
    ensures n - from <= |used|
  {
    var names := seq(n - from, i requires 0 <= i < n - from => Try(base, from + i));
    forall i, j | 0 <= i < j < |names| ensures names[i] != names[j] {
      if names[i] == names[j] {
        TryInjective(base, from + i, from + j);
      }
    }
    Pigeonhole(names, used);
  }

  /** name is the first free one of the tries, and it is among the first |used| + 1. */
  ghost predicate FirstFree(base: string, used: set<string>, from: nat, name: string) {
    name !in used &&
    exists n :: from <= n <= from + |used| && name == Try(base, n) && Taken(base, used, from, n)
  }

  /** All numbered forms in front of the one with number n are in use. */
  ghost predicate InUse(base: string, used: set<string>, n: int) {
    2 <= n && forall m: nat :: 2 <= m < n ==> base + "-" + Decimal(m) in used
  }

  ghost predicate FirstNumbered(base: string, used: set<string>, name: string) {
    exists n: nat :: InUse(base, used, n) && name == base + "-" + Decimal(n)
  }

  /** The name found is the base if that is free, and otherwise the base with the smallest number that is. */
  lemma FirstFreeMeans(base: string, used: set<string>, name: string)
    ensures FirstFree(base, used, 0, name) <==>
            name !in used && (name == base || (base in used && FirstNumbered(base, used, name)))
    ensures FirstFree(base, used, 1, name) <==> name !in used && FirstNumbered(base, used, name)
  {
    forall n: nat, from: nat | 1 <= n && from <= 1
      ensures Taken(base, used, from, n) <==> InUse(base, used, n + 1) && (from == 0 ==> base in used)
    {
      TakenInUse(base, used, from, n);
    }
    if name !in used && FirstNumbered(base, used, name) {
      var n: nat :| InUse(base, used, n) && name == base + "-" + Decimal(n);
      assert name == Try(base, n - 1) && Taken(base, used, 1, n - 1);
      TakenBound(base, used, 1, n - 1);
      if base in used {
        assert Taken(base, used, 0, n - 1);
        TakenBound(base, used, 0, n - 1);
      }
    }
    if FirstFree(base, used, 1, name) {
      var n :| 1 <= n <= 1 + |used| && name == Try(base, n) && Taken(base, used, 1, n);
      assert name == base + "-" + Decimal(n + 1) && InUse(base, used, n + 1);
    }
    if FirstFree(base, used, 0, name) && name != base {
      var n :| 0 <= n <= |used| && name == Try(base, n) && Taken(base, used, 0, n);
      assert name == base + "-" + Decimal(n + 1) && InUse(base, used, n + 1);
    }
    if name !in used && name == base {
      assert name == Try(base, 0) && Taken(base, used, 0, 0);
    }
  }

  lemma TakenInUse(base: string, used: set<string>, from: nat, n: nat)
    requires 1 <= n && from <= 1
    ensures Taken(base, used, from, n) <==> InUse(base, used, n + 1) && (from == 0 ==> base in used)
  {
    if Taken(base, used, from, n) {
      forall m: nat | 2 <= m < n + 1 ensures base + "-" + Decimal(m) in used {
        assert Try(base, m - 1) in used;
      }
      assert from == 0 ==> Try(base, 0) in used;
    }
    if InUse(base, used, n + 1) && (from == 0 ==> base in used) {
      forall i | from <= i < n ensures Try(base, i) in used {
        if i > 0 {
          assert base + "-" + Decimal(i + 1) in used;
        }
      }
    }
  }

  /** The route names in use during one pass over the models. */
  class RouteNames {
    var used: set<string>

    constructor ()
      ensures used == {}
    {
      used := {};
    }

    /** Reserves base, or base with the smallest number that is free. */
    method Reserve(base: string) returns (name: string)
      modifies this
      ensures FirstFree(base, old(used), 0, name)
      ensures used == old(used) + {name}
    {
      if base !in used {
        assert Try(base, 0) == base && Taken(base, used, 0, 0);
        used := used + {base};
        return base;
      }
      var n := 2;
      while Numbered(base, n) in used
        invariant n >= 2 && used == old(used) && Taken(base, used, 0, n - 1)
        decreases |used| + 3 - n
      {
        assert Try(base, n - 1) == Numbered(base, n);
        TakenBound(base, used, 0, n);
        n := n + 1;
      }
      TakenBound(base, used, 0, n - 1);
      name := Numbered(base, n);
      assert Try(base, n - 1) == name;
      used := used + {name};
    }

    /** Every route of a pass gets a name of its own, that no route before the pass had. */
    method ReserveAll(bases: seq<string>) returns (names: seq<string>)
      modifies this
      ensures |names| == |bases| && NoDup(names)
      ensures forall name :: name in names ==> name !in old(used)
      ensures used == old(used) + Elements(names)
    {
      names := [];
      for i := 0 to |bases|
        invariant |names| == i && NoDup(names)
        invariant forall name :: name in names ==> name !in old(used)
        invariant used == old(used) + Elements(names)
      {
        var name := Reserve(bases[i]);
        NoDupConcat(names, [name]);
        names := names + [name];
      }
    }
  }

  /** A name for a split group of base that no ai_models row and no group has; base itself is not tried. */
  method SplitModelName(base: string, rows: set<string>, groups: set<string>) returns (name: string)
    ensures FirstFree(base, rows + groups, 1, name)
  {
    ghost var used := rows + groups;
    var n := 2;
    while Numbered(base, n) in rows || Numbered(base, n) in groups
      invariant n >= 2 && Taken(base, used, 1, n - 1)
      decreases |used| + 3 - n
    {
      assert Try(base, n - 1) == Numbered(base, n);
      TakenBound(base, used, 1, n);
      n := n + 1;
    }
    TakenBound(base, used, 1, n - 1);
    name := Numbered(base, n);
    assert Try(base, n - 1) == name;
  }
}
