/**
  What the search for an endpoint finds, in terms of the table and of the route alone (revert/endpoints.go).
 */
module EndpointSearch {
  import opened Sequences
  import opened Sorting
  import opened Endpoints
  import opened EndpointRecovery

  /** The name of the route is that of some section, a dash, and the label. */
  ghost predicate NamedFor(e: Evidence, c: Candidate) {
    exists head :: e.routeName == head + ("-" + c.spec.routeLabel)
  }

  /** Some base leads to the path of the route. */
  ghost predicate OnPath(matchesAll: PatternMatcher, e: Evidence, c: Candidate) {
    exists base :: BasePathFor(matchesAll, e.routePath, c.spec) == Some(base)
  }

  /** The endpoints of the type of the route, or if there are none those of its name or its path. */
  ghost predicate Starts(matchesAll: PatternMatcher, table: seq<Candidate>, e: Evidence, left: set<Candidate>) {
    left == if exists c :: c in table && c.spec.routeType == e.routeType
            then set c | c in table && c.spec.routeType == e.routeType
            else set c | c in table && (NamedFor(e, c) || OnPath(matchesAll, e, c))
  }

  /** The candidates that pass are left, or all if none passes. */
  ghost predicate Narrows(before: set<Candidate>, keep: Candidate -> bool, left: set<Candidate>) {
    forall c :: c in left <==> c in before && (keep(c) || forall d :: d in before ==> !keep(d))
  }

  /** The endpoint has the least capability of all that are left, and the ties are the others equal to it, in order. */
  ghost predicate Finds(left: set<Candidate>, found: Option<EndpointMatch>) {
    if left == {} then found.None?
    else
      found.Some? &&
      var first, ties := found.value.endpoint, found.value.ties;
      first in left && (forall c :: c in left ==> !StringLess(c.capability, first.capability)) &&
      NoDup(ties) && Sorted(ties, ByName()) &&
      forall cap :: cap in ties <==>
        cap != first.capability && exists c :: c in left && c.capability == cap && c.spec == first.spec
  }

  /** Each filter applies to what the one before it has left, and the first candidate of those left is found. */
  lemma MatchMeans(matchesAll: PatternMatcher, table: seq<Candidate>, e: Evidence, found: Option<EndpointMatch>)
    returns (start: set<Candidate>, named: set<Candidate>, categorized: set<Candidate>, left: set<Candidate>)
    requires IsMatch(matchesAll, table, e, found)
    ensures Starts(matchesAll, table, e, start)
    ensures Narrows(start, (c: Candidate) => NamedFor(e, c), named)
    ensures Narrows(named, (c: Candidate) => e.genaiCategory == "" || c.spec.genaiCategory == e.genaiCategory,
                    categorized)
    ensures Narrows(categorized, (c: Candidate) => OnPath(matchesAll, e, c), left)
    ensures Finds(left, found)
  {
    var sorted :| IsPermutation(sorted, Starting(matchesAll, table, e)) && Sorted(sorted, ByCapability()) &&
                  found == Pick(Narrowed(matchesAll, sorted, e));
    start := StartMeans(matchesAll, table, e, sorted);
    var byName := Narrow(sorted, OfName(e));
    named := NameNarrows(e, sorted, start);
    var byCategory := if e.genaiCategory != "" then Narrow(byName, OfCategory(e)) else byName;
    categorized := CategoryNarrows(e, byName, named);
    left := PathNarrows(matchesAll, e, byCategory, categorized);
    PickMeans(Narrow(byCategory, OfPath(matchesAll, e)));
  }

  lemma NameNarrows(e: Evidence, s: seq<Candidate>, before: set<Candidate>) returns (left: set<Candidate>)
    requires before == Elements(s) && Sorted(s, ByCapability())
    ensures left == Elements(Narrow(s, OfName(e))) && Sorted(Narrow(s, OfName(e)), ByCapability())
    ensures Narrows(before, (c: Candidate) => NamedFor(e, c), left)
  {
    var keep := (c: Candidate) => NamedFor(e, c);
    forall c ensures OfName(e)(c) <==> keep(c) {
      NameFitsExactly(e, c);
    }
    left := NarrowMeans(s, OfName(e), before);
    SamePass(before, OfName(e), keep, left);
  }

  lemma CategoryNarrows(e: Evidence, s: seq<Candidate>, before: set<Candidate>) returns (left: set<Candidate>)
    requires before == Elements(s) && Sorted(s, ByCapability())
    ensures var r := if e.genaiCategory != "" then Narrow(s, OfCategory(e)) else s;
            left == Elements(r) && Sorted(r, ByCapability())
    ensures Narrows(before, (c: Candidate) => e.genaiCategory == "" || c.spec.genaiCategory == e.genaiCategory, left)
  {
    var keep := (c: Candidate) => e.genaiCategory == "" || c.spec.genaiCategory == e.genaiCategory;
    if e.genaiCategory != "" {
      left := NarrowMeans(s, OfCategory(e), before);
      SamePass(before, OfCategory(e), keep, left);
    } else {
      left := before;
    }
  }

  lemma PathNarrows(matchesAll: PatternMatcher, e: Evidence, s: seq<Candidate>, before: set<Candidate>)
    returns (left: set<Candidate>)
    requires before == Elements(s) && Sorted(s, ByCapability())
    ensures left == Elements(Narrow(s, OfPath(matchesAll, e)))
    ensures Sorted(Narrow(s, OfPath(matchesAll, e)), ByCapability())
    ensures Narrows(before, (c: Candidate) => OnPath(matchesAll, e, c), left)
  {
    var keep := (c: Candidate) => OnPath(matchesAll, e, c);
    forall c ensures OfPath(matchesAll, e)(c) <==> keep(c) {
      PathFitsExactly(matchesAll, e, c);
    }
    left := NarrowMeans(s, OfPath(matchesAll, e), before);
    SamePass(before, OfPath(matchesAll, e), keep, left);
  }

  lemma SamePass(before: set<Candidate>, keep: Candidate -> bool, keep': Candidate -> bool, left: set<Candidate>)
    requires Narrows(before, keep, left) && forall c :: keep(c) <==> keep'(c)
    ensures Narrows(before, keep', left)
  {
  }

  lemma PathFitsExactly(matchesAll: PatternMatcher, e: Evidence, c: Candidate)
    ensures PathFits(matchesAll, e, c) <==> OnPath(matchesAll, e, c)
  {
  }

  lemma NameFitsExactly(e: Evidence, c: Candidate)
    ensures NameFits(e, c) <==> NamedFor(e, c)
  {
    var ending := "-" + c.spec.routeLabel;
    if e.routeName == e.section + "-" + c.spec.routeLabel {
      assert e.routeName == e.section + ending;
    }
    if HasSuffix(e.routeName, ending) {
      assert e.routeName == e.routeName[..|e.routeName| - |ending|] + ending;
    }
    if head :| e.routeName == head + ending {
      assert e.routeName[|head|..] == ending;
    }
  }

  lemma StartMeans(matchesAll: PatternMatcher, table: seq<Candidate>, e: Evidence, sorted: seq<Candidate>)
    returns (start: set<Candidate>)
    requires IsPermutation(sorted, Starting(matchesAll, table, e))
    ensures start == Elements(sorted) && Starts(matchesAll, table, e, start)
  {
    PermutationFacts(sorted, Starting(matchesAll, table, e));
    start := Elements(sorted);
    assert start == Elements(Starting(matchesAll, table, e));
    StartingMeans(matchesAll, table, e);
  }

  lemma StartingMeans(matchesAll: PatternMatcher, table: seq<Candidate>, e: Evidence)
    ensures Starts(matchesAll, table, e, Elements(Starting(matchesAll, table, e)))
  {
    var typed := Filter(table, OfType(e));
    if c :| c in table && c.spec.routeType == e.routeType {
      assert OfType(e)(c) && c in typed;
    } else {
      assert forall c :: c in table ==> !OfType(e)(c);
      forall c ensures OfNameOrPath(matchesAll, e)(c) <==> NamedFor(e, c) || OnPath(matchesAll, e, c) {
        NameFitsExactly(e, c);
        PathFitsExactly(matchesAll, e, c);
      }
    }
  }

  lemma NarrowMeans(s: seq<Candidate>, keep: Candidate -> bool, before: set<Candidate>) returns (left: set<Candidate>)
    requires before == Elements(s) && Sorted(s, ByCapability())
    ensures left == Elements(Narrow(s, keep)) && Narrows(before, keep, left)
    ensures Sorted(Narrow(s, keep), ByCapability())
  {
    left := Elements(Narrow(s, keep));
    FilterSorted(s, keep);
    if |s| <= 1 {
      assert forall c, d :: c in s && d in s ==> c == d;
    } else if c :| c in s && keep(c) {
      assert c in Filter(s, keep);
    }
  }

  lemma {:induction false} FilterSorted(s: seq<Candidate>, keep: Candidate -> bool)
    requires Sorted(s, ByCapability())
    ensures Sorted(Filter(s, keep), ByCapability())
  {
    if s != [] {
      var init, last := s[..|s| - 1], s[|s| - 1];
      FilterSorted(init, keep);
      forall c | c in Filter(init, keep) ensures !ByCapability()(last, c) {
        var i :| 0 <= i < |init| && init[i] == c;
        assert s[i] == c;
      }
    }
  }

  lemma PickMeans(survivors: seq<Candidate>)
    requires Sorted(survivors, ByCapability())
    ensures Finds(Elements(survivors), Pick(survivors))
  {
    if survivors != [] {
      var first, rest := survivors[0], survivors[1..];
      assert survivors == [first] + rest;
      FirstIsLeast(first, rest);
      TiesSorted(first, rest);
      assert first in Elements(survivors);
      forall cap
        ensures cap in Ties(first, rest) <==>
                cap != first.capability &&
                exists c :: c in Elements(survivors) && c.capability == cap && c.spec == first.spec
      {
        if c :| c in Elements(survivors) && c.capability == cap && c.spec == first.spec {
          assert c == first || c in rest;
        }
      }
    }
  }

  lemma FirstIsLeast(first: Candidate, rest: seq<Candidate>)
    requires Sorted([first] + rest, ByCapability())
    ensures forall c :: c == first || c in rest ==> !StringLess(c.capability, first.capability)
    ensures Sorted(rest, ByCapability())
  {
    var s := [first] + rest;
    assert s[0] == first;
    forall i | 0 <= i < |rest| ensures !StringLess(rest[i].capability, first.capability) {
      assert s[i + 1] == rest[i];
      assert !ByCapability()(s[i + 1], s[0]);
    }
    SortedTail(first, rest);
    NotLessThanItself(first.capability);
  }

  lemma SortedTail(first: Candidate, rest: seq<Candidate>)
    requires Sorted([first] + rest, ByCapability())
    ensures Sorted(rest, ByCapability())
  {
    var s := [first] + rest;
    forall i, j | 0 <= i < j < |rest| ensures !ByCapability()(rest[j], rest[i]) {
      assert s[i + 1] == rest[i] && s[j + 1] == rest[j];
    }
  }

  lemma {:induction false} TiesSorted(first: Candidate, rest: seq<Candidate>)
    requires Sorted(rest, ByCapability())
    ensures NoDup(Ties(first, rest)) && Sorted(Ties(first, rest), ByName())
  {
    if rest != [] {
      var init, last := rest[..|rest| - 1], rest[|rest| - 1];
      assert rest == init + [last];
      TiesSorted(first, init);
      forall cap | cap in Ties(first, init) ensures !ByName()(last.capability, cap) {
        var c :| c in init && c.capability == cap;
        var i :| 0 <= i < |init| && init[i] == c;
        assert !ByCapability()(rest[|rest| - 1], rest[i]);
      }
    }
  }

  // ---------------------------------------------------------------------------------------------
  // Paths
  // ---------------------------------------------------------------------------------------------

  /** The head of a suffix pattern stands in the body behind the base and a slash, and nowhere ahead of that. */
  ghost predicate HeadsAt(body: string, base: string, suffix: string) {
    base < body && HasPrefix(body[|base|..], "/" + LiteralHead(suffix)) &&
    forall k :: 0 <= k < |base| ==> !HasPrefix(body[k..], "/" + LiteralHead(suffix))
  }

  /**
    The base is what stands ahead of the suffix. Ahead of a pattern it is what stands ahead of its text, or else of
    the first place where its head stands, if the rest of the path matches the pattern.
   */
  lemma BasePathExact(matchesAll: PatternMatcher, path: string, spec: EndpointSpec, base: string)
    ensures !spec.isRegex ==>
            (BasePathFor(matchesAll, path, spec) == Some(base) <==> path == base + spec.pathSuffix)
    ensures spec.isRegex && !HasPrefix(path, "~") ==> BasePathFor(matchesAll, path, spec).None?
    ensures spec.isRegex && HasPrefix(path, "~") ==>
            (BasePathFor(matchesAll, path, spec) == Some(base) <==>
             if HasSuffix(path[1..], "/" + spec.pathSuffix) then path[1..] == base + "/" + spec.pathSuffix
             else HeadsAt(path[1..], base, spec.pathSuffix) && matchesAll(spec.pathSuffix, path[1..][|base| + 1..]))
  {
    if !spec.isRegex {
      PlainBaseExact(path, spec.pathSuffix, base);
    } else if HasPrefix(path, "~") {
      PlainBaseExact(path[1..], "/" + spec.pathSuffix, base);
      assert base + ("/" + spec.pathSuffix) == base + "/" + spec.pathSuffix;
      HeadExactly(path[1..], spec.pathSuffix, base);
    }
  }

  lemma HeadExactly(body: string, suffix: string, base: string)
    ensures var i := IndexFrom(body, "/" + LiteralHead(suffix), 0);
            HeadsAt(body, base, suffix) <==> i >= 0 && base == body[..i]
  {
    var head := "/" + LiteralHead(suffix);
    var i := IndexFrom(body, head, 0);
    IndexFromFirst(body, head, 0);
    if i >= 0 && base == body[..i] {
      assert body[i..][..|head|] == body[i..i + |head|];
    }
    if HeadsAt(body, base, suffix) {
      assert HasPrefix(body[|base|..], head);
      assert body[..|base|] == base;
      assert i >= 0 && HasPrefix(body[i..], head) by {
        assert body[i..][..|head|] == body[i..i + |head|];
      }
    }
  }

  lemma PlainBaseExact(path: string, suffix: string, base: string)
    ensures CutSuffix(path, suffix) == Some(base) <==> path == base + suffix
  {
    if path == base + suffix {
      CutSuffixOfConcat(base, suffix);
    }
  }

  lemma {:induction false} IndexFromFirst(s: string, t: string, i: nat)
    requires i <= |s|
    ensures forall k :: i <= k <= |s| && (IndexFrom(s, t, i) < 0 || k < IndexFrom(s, t, i)) ==> !HasPrefix(s[k..], t)
    decreases |s| - i
  {
    if !HasPrefix(s[i..], t) && i < |s| {
      IndexFromFirst(s, t, i + 1);
    }
  }

  predicate OpensPattern(c: char) {
    c == '(' || c == '[' || c == '\\'
  }

  /** The literal head of a pattern ends where a group, a class or an escape begins. */
  lemma {:induction false} LiteralHeadMeans(s: string)
    ensures forall k :: 0 <= k < |LiteralHead(s)| ==> LiteralHead(s)[k] == s[k] && !OpensPattern(s[k])
    ensures LiteralHead(s) != s ==> OpensPattern(s[|LiteralHead(s)|])
  {
    if s != "" && !OpensPattern(s[0]) {
      LiteralHeadMeans(s[1..]);
      assert LiteralHead(s) == [s[0]] + LiteralHead(s[1..]);
    }
  }

  /** Only the trailing slashes of a base path are cut. */
  lemma {:induction false} TrimmedExactly(s: string, c: char)
    ensures TrimRight(s, c) <= s && forall k :: |TrimRight(s, c)| <= k < |s| ==> s[k] == c
    ensures TrimRight(s, c) != "" ==> s[|TrimRight(s, c)| - 1] != c
  {
    if s != "" && s[|s| - 1] == c {
      TrimmedExactly(s[..|s| - 1], c);
    }
  }
}
