/**
  The model order that a revert restores (revert/model.go).

  Kong's routes list their models in an order of their own, so the reverter rebuilds the
  document order of the models from three sources: the model order on each route, the order of
  the routes, and the order of the ai_models rows. `Layout` states those three requirements
  without the algorithm; `SortByRoutes` is the algorithm.
 */
module ModelOrder {
  import opened Sequences
  import opened EntryNames

  /** One recovered model. Groups that share an ai_models row form a family. */
  class ModelGroup {
    ghost const key: string    // its key in the accumulator
    const split: bool          // shares its row with the group of familyKey
    const familyKey: string
    const alias: string        // the ai_models name that its targets use
    const ownSelector: bool    // selects by a body or header field
    var name: string
    var values: seq<string>    // route.model.values
    var mergedFKs: seq<string> // aliases folded into this group
    var hasEntry: bool         // an ai_models row has the name of this group

    constructor (ghost key: string, name: string, alias: string, values: seq<string>, mergedFKs: seq<string>,
                 split: bool, familyKey: string, ownSelector: bool)
      ensures this.key == key && this.name == name && this.alias == alias && this.values == values
      ensures this.mergedFKs == mergedFKs && this.split == split && this.familyKey == familyKey
      ensures this.ownSelector == ownSelector && !hasEntry
    {
      this.key := key;
      this.name, this.alias, this.values, this.mergedFKs := name, alias, values, mergedFKs;
      this.split, this.familyKey, this.ownSelector := split, familyKey, ownSelector;
      hasEntry := false;
    }

    /** The group as a value. */
    function AsMember(): Member
      reads this
    {
      Member(name, alias, values, mergedFKs, split, familyKey, ownSelector)
    }

    predicate FannedOut()
      reads this
    {
      AsMember().FannedOut()
    }

    method MarkEntry()
      modifies this`hasEntry
      ensures hasEntry && AsMember() == old(AsMember())
    {
      hasEntry := true;
    }

    method SyncAliasValue()
      modifies this`values
      ensures values == old(AsMember().Renamed(name).values)
    {
      if ownSelector {
        return;
      }
      if name == alias {
        values := [];
      } else {
        values := [alias];
      }
    }
  }

  // ---------------------------------------------------------------------------------------------
  // What an order has to respect
  // ---------------------------------------------------------------------------------------------

  /** The pairs (c[i-1], c[i]). */
  ghost function Adjacent<T>(c: seq<T>): set<(T, T)> {
    if |c| < 2 then {} else Adjacent(c[..|c| - 1]) + {(c[|c| - 2], c[|c| - 1])}
  }

  lemma {:induction false} AdjacentMeans<T>(c: seq<T>, a: T, b: T)
    ensures (a, b) in Adjacent(c) <==> exists i :: 0 <= i < |c| - 1 && c[i] == a && c[i + 1] == b
  {
    if |c| >= 2 {
      var init := c[..|c| - 1];
      AdjacentMeans(init, a, b);
      if (a, b) in Adjacent(init) {
        var i :| 0 <= i < |init| - 1 && init[i] == a && init[i + 1] == b;
        assert c[i] == a && c[i + 1] == b;
      }
      if i :| 0 <= i < |c| - 1 && c[i] == a && c[i + 1] == b {
        if i < |c| - 2 {
          assert init[i] == a && init[i + 1] == b;
        }
      }
    }
  }

  /** The adjacent pairs inside each sequence. */
  ghost function AdjacentWithin<T>(cs: seq<seq<T>>): set<(T, T)> {
    if cs == [] then {} else AdjacentWithin(cs[..|cs| - 1]) + Adjacent(cs[|cs| - 1])
  }

  /** The first element of every non-empty sequence. */
  ghost function Firsts<T>(cs: seq<seq<T>>): seq<T> {
    if cs == [] then [] else
      var last := cs[|cs| - 1];
      Firsts(cs[..|cs| - 1]) + if last == [] then [] else [last[0]]
  }

  /** The pairs that the routes put in order: neighbours on a route, and the leaders of successive routes. */
  ghost function RoutePairs<T>(cs: seq<seq<T>>): set<(T, T)> {
    AdjacentWithin(cs) + Adjacent(Firsts(cs))
  }

  /** b follows a directly on one of the routes. */
  ghost predicate Neighbours<T>(cs: seq<seq<T>>, a: T, b: T) {
    exists r, i :: 0 <= r < |cs| && 0 <= i < |cs[r]| - 1 && cs[r][i] == a && cs[r][i + 1] == b
  }

  /** a leads route r and b leads route s, and the routes between them are empty. */
  ghost predicate LeadAt<T>(cs: seq<seq<T>>, r: int, s: int, a: T, b: T) {
    0 <= r < s < |cs| && cs[r] != [] && cs[s] != [] && cs[r][0] == a && cs[s][0] == b &&
    forall t :: r < t < s ==> cs[t] == []
  }

  ghost predicate Leaders<T>(cs: seq<seq<T>>, a: T, b: T) {
    exists r, s :: LeadAt(cs, r, s, a, b)
  }

  /** The pairs are exactly the neighbours on a route and the leaders of two routes with none but empty ones between. */
  lemma RoutePairsMean<T>(cs: seq<seq<T>>, a: T, b: T)
    ensures (a, b) in RoutePairs(cs) <==> Neighbours(cs, a, b) || Leaders(cs, a, b)
  {
    WithinMeans(cs, a, b);
    FirstsMean(cs, a, b);
  }

  lemma {:induction false} WithinMeans<T>(cs: seq<seq<T>>, a: T, b: T)
    ensures (a, b) in AdjacentWithin(cs) <==> Neighbours(cs, a, b)
  {
    if cs != [] {
      var init, last := cs[..|cs| - 1], cs[|cs| - 1];
      WithinMeans(init, a, b);
      AdjacentMeans(last, a, b);
      if Neighbours(init, a, b) {
        var r, i :| 0 <= r < |init| && 0 <= i < |init[r]| - 1 && init[r][i] == a && init[r][i + 1] == b;
        assert cs[r][i] == a && cs[r][i + 1] == b;
      }
      if (a, b) in Adjacent(last) {
        var i :| 0 <= i < |last| - 1 && last[i] == a && last[i + 1] == b;
        assert cs[|cs| - 1][i] == a && cs[|cs| - 1][i + 1] == b;
      }
      if r, i :| 0 <= r < |cs| && 0 <= i < |cs[r]| - 1 && cs[r][i] == a && cs[r][i + 1] == b {
        if r < |init| {
          assert init[r][i] == a && init[r][i + 1] == b;
        }
      }
    }
  }

  /** The last of the leaders leads the last route that is not empty. */
  lemma {:induction false} LastLeader<T>(cs: seq<seq<T>>) returns (r: int)
    ensures -1 <= r < |cs| && forall t :: r < t < |cs| ==> cs[t] == []
    ensures r < 0 ==> Firsts(cs) == []
    ensures r >= 0 ==> cs[r] != [] && Firsts(cs) != [] && Firsts(cs)[|Firsts(cs)| - 1] == cs[r][0]
  {
    r := |cs| - 1;
    if cs != [] && cs[r] == [] {
      r := LastLeader(cs[..r]);
    }
  }

  lemma {:induction false} FirstsMean<T>(cs: seq<seq<T>>, a: T, b: T)
    ensures (a, b) in Adjacent(Firsts(cs)) <==> Leaders(cs, a, b)
  {
    if cs != [] {
      var init, last := cs[..|cs| - 1], cs[|cs| - 1];
      FirstsMean(init, a, b);
      var r := LastLeader(init);
      LeadersNext(init, last, r, a, b);
      assert cs == init + [last];
      if last == [] {
        assert Firsts(cs) == Firsts(init);
      } else {
        AdjacentSnoc(Firsts(init), last[0]);
      }
    }
  }

  /** One more route adds a pair of leaders if it is not empty: those of the last route before it and of itself. */
  lemma LeadersNext<T>(init: seq<seq<T>>, last: seq<T>, r: int, a: T, b: T)
    requires -1 <= r < |init| && (r >= 0 ==> init[r] != []) && forall t :: r < t < |init| ==> init[t] == []
    ensures Leaders(init + [last], a, b) <==>
            Leaders(init, a, b) || (r >= 0 && last != [] && init[r][0] == a && last[0] == b)
  {
    var cs, n := init + [last], |init|;
    assert forall t :: 0 <= t < n ==> cs[t] == init[t];
    if q, s :| LeadAt(init, q, s, a, b) {
      assert LeadAt(cs, q, s, a, b);
    }
    if r >= 0 && last != [] && init[r][0] == a && last[0] == b {
      assert LeadAt(cs, r, n, a, b);
    }
    if q, s :| LeadAt(cs, q, s, a, b) {
      if s == n {
        assert init[q] == cs[q] && q <= r;
      } else {
        assert LeadAt(init, q, s, a, b);
      }
    }
  }

  /** The position of x in s, or -1. */
  function IndexOf<T(==)>(s: seq<T>, x: T): (i: int)
    ensures -1 <= i < |s|
    ensures i >= 0 ==> s[i] == x && x !in s[..i]
    ensures i < 0 <==> x !in s
  {
    if s == [] then -1
    else if s[0] == x then 0
    else
      var i := IndexOf(s[1..], x);
      assert s == [s[0]] + s[1..];
      if i < 0 then -1 else
        assert s[..i + 1] == [s[0]] + s[1..][..i];
        i + 1
  }

  /**
    The requirements on an order, as values: which model must precede which, and the ai_models row
    of the family of each model (-1 when the family has no row).
   */
  datatype Layout = Layout(before: set<(string, string)>, rows: map<string, int>)
  {
    function Row(k: string): int {
      if k in rows then rows[k] else -1
    }

    /** Some model of s has row r. */
    ghost predicate RowSeen(s: seq<string>, r: int) {
      exists k :: k in s && Row(k) == r
    }

    /** Each required precedence holds. */
    ghost predicate KeepsPrecedence(s: seq<string>) {
      forall p, q :: 0 <= p < |s| && 0 <= q < |s| && (s[p], s[q]) in before ==> p < q
    }

    /** A row appears for the first time only after every smaller row has appeared. */
    ghost predicate RowsAppearInOrder(s: seq<string>) {
      forall p, r {:trigger RowSeen(s[..p], r)} :: 0 <= p < |s| && 0 <= r < Row(s[p]) ==> RowSeen(s[..p], r)
    }

    /** s is an order of keys that meets every requirement. */
    ghost predicate Respects(keys: seq<string>, s: seq<string>) {
      IsPermutation(s, keys) && KeepsPrecedence(s) && RowsAppearInOrder(s)
    }

    /** Some order of keys meets every requirement. */
    ghost predicate Orderable(keys: seq<string>) {
      exists s :: Respects(keys, s)
    }

    /** out meets every requirement when some order does; otherwise it is keys. */
    ghost predicate BestOrder(keys: seq<string>, out: seq<string>) {
      if Orderable(keys) then Respects(keys, out) else out == keys
    }

    /** k is not in s, but all that has to precede it is. */
    ghost predicate MayFollow(s: seq<string>, k: string) {
      k !in s && (forall a :: (a, k) in before ==> a in s) && forall r :: 0 <= r < Row(k) ==> RowSeen(s, r)
    }

    /** Each model of s is the first in route order of those that may follow the models ahead of it. */
    ghost predicate FirstChoices(route: seq<string>, s: seq<string>) {
      forall m, k :: 0 <= m < |s| && k in route && MayFollow(s[..m], k) ==> k == s[m] || Ahead(route, s[m], k)
    }

    /** Appending a model whose predecessors and smaller rows have appeared keeps the requirements. */
    lemma Append(s: seq<string>, k: string)
      requires KeepsPrecedence(s) && RowsAppearInOrder(s)
      requires k !in s && (k, k) !in before
      requires forall b :: b in s ==> (k, b) !in before
      requires forall r :: 0 <= r < Row(k) ==> RowSeen(s, r)
      ensures KeepsPrecedence(s + [k]) && RowsAppearInOrder(s + [k])
    {
      var s' := s + [k];
      assert forall q :: 0 <= q < |s| ==> s'[q] in s;
      forall p, r | 0 <= p < |s'| && 0 <= r < Row(s'[p]) ensures RowSeen(s'[..p], r) {
        if p < |s| {
          assert s'[..p] == s[..p];
        } else {
          assert s'[..p] == s;
        }
      }
    }
  }

  /**
    Completeness of the greedy choice: as long as some order respects the layout, its first model
    that is not placed yet is free to be placed next.
   */
  lemma GreedyChoiceExists(l: Layout, keys: seq<string>, s: seq<string>, placed: seq<string>, nextRow: nat)
    requires l.Respects(keys, s)
    requires exists k :: k in keys && k !in placed
    requires forall k :: k in placed ==> l.Row(k) < nextRow
    ensures exists k :: k in keys && k !in placed && l.Row(k) <= nextRow &&
                        forall a :: a in keys && (a, k) in l.before ==> a in placed
  {
    PermutationFacts(s, keys);
    var p := FirstUnplaced(s, placed);
    var k := s[p];
    forall j | j in s[..p] ensures l.Row(j) < nextRow {
      assert j in placed;
    }
    assert !l.RowSeen(s[..p], nextRow);
    forall a | a in keys && (a, k) in l.before ensures a in placed {
      assert a in s;
      var q :| 0 <= q < |s| && s[q] == a;
      assert (s[q], s[p]) in l.before;
    }
  }

  lemma {:induction false} FirstUnplaced(s: seq<string>, placed: seq<string>) returns (p: nat)
    requires exists k :: k in s && k !in placed
    ensures p < |s| && s[p] !in placed
    ensures forall q :: 0 <= q < p ==> s[q] in placed
  {
    if s[0] !in placed {
      p := 0;
    } else {
      assert s == [s[0]] + s[1..];
      p := FirstUnplaced(s[1..], placed);
      p := p + 1;
    }
  }

  // ---------------------------------------------------------------------------------------------
  // The graph that SortByRoutes walks
  // ---------------------------------------------------------------------------------------------

  /** The unplaced positions with an edge to j. */
  ghost function Predecessors(after: seq<seq<nat>>, placed: set<nat>, j: nat): set<nat> {
    set i | 0 <= i < |after| && i !in placed && j in after[i]
  }

  /** `indegree` counts the unplaced predecessors of every position. */
  ghost predicate Graph(n: nat, after: seq<seq<nat>>, indegree: seq<int>, placed: set<nat>) {
    |after| == n && |indegree| == n &&
    (forall i :: 0 <= i < n ==> NoDup(after[i]) && forall j :: j in after[i] ==> j < n) &&
    (forall j :: 0 <= j < n ==> indegree[j] == |Predecessors(after, placed, j)|)
  }

  /** `after` holds exactly the edges that the group pairs give. */
  ghost predicate HoldsEdges(at: seq<ModelGroup>, after: seq<seq<nat>>, pairs: set<(ModelGroup, ModelGroup)>) {
    |after| == |at| &&
    forall i, j :: 0 <= i < |at| && 0 <= j < |at| ==>
      (j in after[i] <==> i != j && (at[i], at[j]) in pairs)
  }

  /** `pos` maps each group to its position. */
  ghost predicate Positions(at: seq<ModelGroup>, pos: map<ModelGroup, nat>) {
    (forall i :: 0 <= i < |at| ==> at[i] in pos && pos[at[i]] == i) &&
    (forall g :: g in pos ==> pos[g] < |at| && at[pos[g]] == g)
  }

  lemma {:induction false} PositionsSize(at: seq<ModelGroup>, pos: map<ModelGroup, nat>)
    requires Positions(at, pos)
    ensures |pos| == |at|
  {
    assert pos.Keys == Elements(at);
    NoDupLength(at);
  }

  ghost function LastOrNull(gs: seq<ModelGroup>): ModelGroup? {
    if gs == [] then null else gs[|gs| - 1]
  }

  /** Extending a chain by one element adds one adjacent pair. */
  lemma AdjacentSnoc<T>(c: seq<T>, x: T)
    ensures Adjacent(c + [x]) == Adjacent(c) + if c == [] then {} else {(c[|c| - 1], x)}
  {
    var d := c + [x];
    if c != [] {
      assert d[..|d| - 1] == c;
    }
  }

  lemma RoutePairsSnoc<T>(cs: seq<seq<T>>, c: seq<T>)
    ensures Firsts(cs + [c]) == Firsts(cs) + if c == [] then [] else [c[0]]
    ensures RoutePairs(cs + [c]) == RoutePairs(cs) + Adjacent(c) +
                                    if c == [] || Firsts(cs) == [] then {} else {(Firsts(cs)[|Firsts(cs)| - 1], c[0])}
  {
    assert (cs + [c])[..|cs|] == cs;
    assert AdjacentWithin(cs + [c]) == AdjacentWithin(cs) + Adjacent(c);
    if c == [] {
      assert Firsts(cs) + [] == Firsts(cs);
    } else {
      AdjacentSnoc(Firsts(cs), c[0]);
    }
  }

  /** Adds an edge for each adjacent pair of a route. */
  method AddChain(ghost at: seq<ModelGroup>, ghost pairs: set<(ModelGroup, ModelGroup)>, pos: map<ModelGroup, nat>,
                  after: seq<seq<nat>>, indegree: seq<int>, route: seq<ModelGroup>)
    returns (after': seq<seq<nat>>, indegree': seq<int>)
    requires Positions(at, pos) && Graph(|at|, after, indegree, {}) && HoldsEdges(at, after, pairs)
    ensures Graph(|at|, after', indegree', {})
    ensures HoldsEdges(at, after', pairs + Adjacent(route))
  {
    after', indegree' := after, indegree;
    ghost var chain: seq<ModelGroup> := if route == [] then [] else [route[0]];
    assert pairs + Adjacent(chain) == pairs;
    var i := 1;
    while i < |route|
      invariant 1 <= i && chain == if i < |route| then route[..i] else route
      invariant Graph(|at|, after', indegree', {})
      invariant HoldsEdges(at, after', pairs + Adjacent(chain))
    {
      AdjacentSnoc(chain, route[i]);
      after', indegree' := AddEdge(at, pairs + Adjacent(chain), pos, after', indegree', route[i - 1], route[i]);
      assert pairs + Adjacent(chain) + {(route[i - 1], route[i])} == pairs + Adjacent(chain + [route[i]]);
      chain := chain + [route[i]];
      i := i + 1;
    }
  }

  method AddEdge(ghost at: seq<ModelGroup>, ghost pairs: set<(ModelGroup, ModelGroup)>, pos: map<ModelGroup, nat>,
                 after: seq<seq<nat>>, indegree: seq<int>, a: ModelGroup?, b: ModelGroup)
    returns (after': seq<seq<nat>>, indegree': seq<int>)
    requires Positions(at, pos) && Graph(|at|, after, indegree, {}) && HoldsEdges(at, after, pairs)
    ensures Graph(|at|, after', indegree', {})
    ensures HoldsEdges(at, after', if a == null then pairs else pairs + {(a, b)})
  {
    after', indegree' := after, indegree;
    if a == null || a !in pos || b !in pos {
      return;
    }
    var i, j := pos[a], pos[b];
    if i == j || j in after[i] {
      return;
    }
    after' := after[i := after[i] + [j]];
    indegree' := indegree[j := indegree[j] + 1];
    EdgeAdded(|at|, after, indegree, i, j);
  }

  lemma EdgeAdded(n: nat, after: seq<seq<nat>>, indegree: seq<int>, i: nat, j: nat)
    requires Graph(n, after, indegree, {}) && i < n && j < n && j !in after[i]
    ensures Graph(n, after[i := after[i] + [j]], indegree[j := indegree[j] + 1], {})
  {
    var after' := after[i := after[i] + [j]];
    var indegree' := indegree[j := indegree[j] + 1];
    NoDupConcat(after[i], [j]);
    forall k | 0 <= k < n ensures indegree'[k] == |Predecessors(after', {}, k)| {
      if k == j {
        assert Predecessors(after', {}, j) == Predecessors(after, {}, j) + {i};
      } else {
        assert Predecessors(after', {}, k) == Predecessors(after, {}, k);
      }
    }
  }

  /** Placing a position takes it out of the predecessors of its successors. */
  method Place(n: nat, after: seq<seq<nat>>, indegree: seq<int>, ghost placed: set<nat>, next: nat)
    returns (indegree': seq<int>)
    requires Graph(n, after, indegree, placed)
    requires next < n && next !in placed
    ensures Graph(n, after, indegree', placed + {next})
  {
    indegree' := indegree;
    var successors := after[next];
    for k := 0 to |successors|
      invariant |indegree'| == n
      invariant forall j :: 0 <= j < n ==>
        indegree'[j] == indegree[j] - if j in successors[..k] then 1 else 0
    {
      assert successors[k] in after[next] && successors[k] !in successors[..k];
      assert successors[..k + 1] == successors[..k] + [successors[k]];
      indegree' := indegree'[successors[k] := indegree'[successors[k]] - 1];
    }
    assert successors[..|successors|] == successors;
    forall j | 0 <= j < n ensures indegree'[j] == |Predecessors(after, placed + {next}, j)| {
      if j in after[next] {
        assert Predecessors(after, placed, j) == Predecessors(after, placed + {next}, j) + {next};
      } else {
        assert Predecessors(after, placed, j) == Predecessors(after, placed + {next}, j);
      }
    }
  }

  lemma EmptyGraph(at: seq<ModelGroup>, after: seq<seq<nat>>, indegree: seq<int>)
    requires |after| == |indegree| == |at|
    requires forall i :: 0 <= i < |at| ==> after[i] == [] && indegree[i] == 0
    ensures Graph(|at|, after, indegree, {})
    ensures HoldsEdges(at, after, RoutePairs([]))
  {
    assert forall j :: Predecessors(after, {}, j) == {};
  }

  /** Adds the edges of one more route. */
  method AddRoute(ghost earlier: seq<seq<ModelGroup>>, ghost pairs: set<(ModelGroup, ModelGroup)>,
      ghost at: seq<ModelGroup>, pos: map<ModelGroup, nat>,
                  after: seq<seq<nat>>, indegree: seq<int>, prevFirst: ModelGroup?, route: seq<ModelGroup>)
    returns (after': seq<seq<nat>>, indegree': seq<int>, prevFirst': ModelGroup?,
             ghost pairs': set<(ModelGroup, ModelGroup)>)
    requires Positions(at, pos) && Graph(|at|, after, indegree, {})
    requires pairs == RoutePairs(earlier) && HoldsEdges(at, after, pairs)
    requires prevFirst == LastOrNull(Firsts(earlier))
    ensures Graph(|at|, after', indegree', {})
    ensures pairs' == RoutePairs(earlier + [route]) && HoldsEdges(at, after', pairs')
    ensures prevFirst' == LastOrNull(Firsts(earlier + [route]))
  {
    RoutePairsSnoc(earlier, route);
    pairs' := RoutePairs(earlier + [route]);
    ghost var withRoute := pairs + Adjacent(route);
    after', indegree' := AddChain(at, pairs, pos, after, indegree, route);
    prevFirst' := prevFirst;
    if |route| > 0 {
      after', indegree' := AddEdge(at, withRoute, pos, after', indegree', prevFirst, route[0]);
      prevFirst' := route[0];
    } else {
      assert pairs' == withRoute;
    }
  }

  /** Builds the edges that the routes ask for. */
  method BuildGraph(routeGroups: seq<seq<ModelGroup>>, ghost at: seq<ModelGroup>, pos: map<ModelGroup, nat>)
    returns (after: seq<seq<nat>>, indegree: seq<int>)
    requires Positions(at, pos)
    ensures Graph(|at|, after, indegree, {})
    ensures HoldsEdges(at, after, RoutePairs(routeGroups))
  {
    after, indegree := seq(|pos|, _ => []), seq(|pos|, _ => 0);
    PositionsSize(at, pos);
    EmptyGraph(at, after, indegree);
    var prevFirst: ModelGroup? := null;
    ghost var seen: seq<seq<ModelGroup>>, pairs := [], RoutePairs<ModelGroup>([]);
    for r := 0 to |routeGroups|
      invariant seen == routeGroups[..r] && pairs == RoutePairs(seen)
      invariant Graph(|at|, after, indegree, {})
      invariant prevFirst == LastOrNull(Firsts(seen))
      invariant HoldsEdges(at, after, pairs)
    {
      after, indegree, prevFirst, pairs := AddRoute(seen, pairs, at, pos, after, indegree, prevFirst, routeGroups[r]);
      seen := seen + [routeGroups[r]];
      TakeSnoc(routeGroups, r);
    }
    TakeAll(routeGroups);
  }

  /** The state of the sorting loop: out lists the placed positions of keys and is a legal prefix. */
  ghost predicate LegalPrefix(l: Layout, keys: seq<string>, out: seq<string>, placed: set<nat>, nextRow: nat)
  {
    (forall i :: i in placed ==> i < |keys|) &&
    |out| == |placed| && NoDup(out) &&
    (forall i :: 0 <= i < |keys| ==> (keys[i] in out <==> i in placed)) &&
    (forall k :: k in out ==> k in keys && l.Row(k) < nextRow) &&
    (forall r :: 0 <= r < nextRow ==> l.RowSeen(out, r)) &&
    l.KeepsPrecedence(out) && l.RowsAppearInOrder(out) &&
    (forall a, b :: b in out && (a, b) in l.before ==> a in out)
  }

  lemma PrefixGrows(l: Layout, keys: seq<string>, out: seq<string>, placed: set<nat>, nextRow: nat, next: nat)
    requires NoDup(keys) && LegalPrefix(l, keys, out, placed, nextRow)
    requires next < |keys| && next !in placed && l.Row(keys[next]) <= nextRow
    requires forall a :: (a, keys[next]) in l.before ==> a in out
    ensures LegalPrefix(l, keys, out + [keys[next]], placed + {next},
                        if l.Row(keys[next]) == nextRow then nextRow + 1 else nextRow)
  {
    var k := keys[next];
    assert k !in out;
    l.Append(out, k);
    var out' := out + [k];
    forall r | 0 <= r < nextRow || r == l.Row(k) ensures l.RowSeen(out', r) {
      if r == l.Row(k) {
        assert k in out';
      } else {
        assert l.RowSeen(out, r);
        var j :| j in out && l.Row(j) == r;
        assert j in out';
      }
    }
  }

  /** The edges are exactly the precedences of the layout. */
  ghost predicate EdgesAre(l: Layout, keys: seq<string>, after: seq<seq<nat>>) {
    |after| == |keys| &&
    (forall a, b :: (a, b) in l.before ==> a in keys && b in keys && a != b) &&
    forall i, j :: 0 <= i < |keys| && 0 <= j < |keys| ==> (j in after[i] <==> (keys[i], keys[j]) in l.before)
  }

  /** The precedences of the layout are the group pairs. */
  ghost predicate PairsAre(l: Layout, keys: seq<string>, at: seq<ModelGroup>, pairs: set<(ModelGroup, ModelGroup)>)
  {
    |at| == |keys| &&
    (forall a, b :: (a, b) in l.before ==> a in keys && b in keys && a != b) &&
    forall i, j :: 0 <= i < |keys| && 0 <= j < |keys| ==>
      ((keys[i], keys[j]) in l.before <==> i != j && (at[i], at[j]) in pairs)
  }

  lemma EdgesFollow(l: Layout, keys: seq<string>, at: seq<ModelGroup>, after: seq<seq<nat>>,
                    pairs: set<(ModelGroup, ModelGroup)>)
    requires PairsAre(l, keys, at, pairs) && HoldsEdges(at, after, pairs)
    ensures EdgesAre(l, keys, after)
  {
  }

  lemma NoPredecessorsLeft(l: Layout, keys: seq<string>, out: seq<string>, placed: set<nat>, nextRow: nat,
                           after: seq<seq<nat>>, indegree: seq<int>, j: nat)
    requires LegalPrefix(l, keys, out, placed, nextRow) && EdgesAre(l, keys, after)
    requires Graph(|keys|, after, indegree, placed) && j < |keys|
    ensures indegree[j] == 0 <==> forall a :: (a, keys[j]) in l.before ==> a in out
  {
    if indegree[j] == 0 {
      assert Predecessors(after, placed, j) == {};
      forall a | (a, keys[j]) in l.before ensures a in out {
        var i :| 0 <= i < |keys| && keys[i] == a;
        assert i !in Predecessors(after, placed, j);
      }
    } else {
      var i :| i in Predecessors(after, placed, j);
      assert (keys[i], keys[j]) in l.before && keys[i] !in out;
    }
  }

  lemma FreePositionExtends(l: Layout, keys: seq<string>, out: seq<string>, placed: set<nat>, nextRow: nat,
                            after: seq<seq<nat>>, indegree: seq<int>, next: nat)
    requires LegalPrefix(l, keys, out, placed, nextRow) && EdgesAre(l, keys, after)
    requires Graph(|keys|, after, indegree, placed) && NoDup(keys)
    requires next < |keys| && next !in placed && indegree[next] == 0 && l.Row(keys[next]) <= nextRow
    ensures LegalPrefix(l, keys, out + [keys[next]], placed + {next},
                        if l.Row(keys[next]) == nextRow then nextRow + 1 else nextRow)
  {
    NoPredecessorsLeft(l, keys, out, placed, nextRow, after, indegree, next);
    PrefixGrows(l, keys, out, placed, nextRow, next);
  }

  lemma StuckMeansNoOrder(l: Layout, keys: seq<string>, out: seq<string>, placed: set<nat>, nextRow: nat,
                          after: seq<seq<nat>>, indegree: seq<int>)
    requires LegalPrefix(l, keys, out, placed, nextRow) && EdgesAre(l, keys, after)
    requires Graph(|keys|, after, indegree, placed) && NoDup(keys) && |out| < |keys|
    requires forall i :: 0 <= i < |keys| ==> i in placed || indegree[i] != 0 || l.Row(keys[i]) > nextRow
    ensures !l.Orderable(keys)
  {
    forall s ensures !l.Respects(keys, s) {
      if l.Respects(keys, s) {
        if forall k :: k in keys ==> k in out {
          Pigeonhole(keys, Elements(out));
          NoDupLength(out);
        }
        GreedyChoiceExists(l, keys, s, out, nextRow);
        var k :| k in keys && k !in out && l.Row(k) <= nextRow &&
                      forall a :: a in keys && (a, k) in l.before ==> a in out;
        var j :| 0 <= j < |keys| && keys[j] == k;
        NoPredecessorsLeft(l, keys, out, placed, nextRow, after, indegree, j);
      }
    }
  }

  lemma FullPrefixPermutes(l: Layout, keys: seq<string>, out: seq<string>, placed: set<nat>, nextRow: nat)
    requires LegalPrefix(l, keys, out, placed, nextRow) && NoDup(keys) && |out| >= |keys|
    ensures l.Respects(keys, out)
  {
    NoDupLength(keys);
    NoDupLength(out);
    assert Elements(out) <= Elements(keys);
    SubsetOfSameSize(Elements(out), Elements(keys));
    forall k ensures k in out <==> k in keys {
      assert k in Elements(out) <==> k in Elements(keys);
    }
    SameElementsPermute(out, keys);
  }

  ghost predicate NoneFree(rows: seq<int>, positions: seq<nat>, done: seq<bool>, indegree: seq<int>, nextRow: nat)
    requires |done| == |indegree| == |rows|
  {
    forall i :: i in positions && i < |rows| ==> done[i] || indegree[i] != 0 || rows[i] > nextRow
  }

  /** The first free position in route order whose row may appear now, or -1. */
  method FindNext(rows: seq<int>, byRoute: seq<nat>, done: seq<bool>, indegree: seq<int>, nextRow: nat)
    returns (next: int, ghost place: nat)
    requires |done| == |indegree| == |rows| && forall p :: 0 <= p < |byRoute| ==> byRoute[p] < |rows|
    ensures next < 0 ==> forall p :: 0 <= p < |byRoute| ==>
      done[byRoute[p]] || indegree[byRoute[p]] != 0 || rows[byRoute[p]] > nextRow
    ensures next >= 0 ==> next < |rows| && !done[next] && indegree[next] == 0 && rows[next] <= nextRow
    ensures next >= 0 ==> place < |byRoute| && byRoute[place] == next
    ensures next >= 0 ==> NoneFree(rows, byRoute[..place], done, indegree, nextRow)
  {
    place := 0;
    for p := 0 to |byRoute|
      invariant forall q :: 0 <= q < p ==>
        done[byRoute[q]] || indegree[byRoute[q]] != 0 || rows[byRoute[q]] > nextRow
    {
      var i := byRoute[p];
      if !done[i] && indegree[i] == 0 && rows[i] <= nextRow {
        return i, p;
      }
    }
    next := -1;
  }

  /** done marks exactly the placed positions. */
  ghost predicate Marks(done: seq<bool>, placed: set<nat>) {
    forall i: nat :: i < |done| ==> (done[i] <==> i in placed)
  }

  lemma MarkMore(done: seq<bool>, placed: set<nat>, next: nat)
    requires Marks(done, placed) && next < |done|
    ensures Marks(done[next := true], placed + {next})
  {
  }

  ghost predicate Scheduling(l: Layout, keys: seq<string>, after: seq<seq<nat>>, out: seq<string>, done: seq<bool>,
                             nextRow: nat, indegree: seq<int>, placed: set<nat>) {
    |done| == |keys| && Marks(done, placed) && Graph(|keys|, after, indegree, placed) &&
    LegalPrefix(l, keys, out, placed, nextRow)
  }

  /** The first free position in route order is that of the first model that may follow. */
  lemma ChoosesFirst(l: Layout, keys: seq<string>, rows: seq<int>, byRoute: seq<nat>, after: seq<seq<nat>>,
                     out: seq<string>, done: seq<bool>, nextRow: nat, indegree: seq<int>, placed: set<nat>, place: nat)
    requires NoDup(keys) && EdgesAre(l, keys, after) && |rows| == |done| == |keys|
    requires forall i :: 0 <= i < |keys| ==> rows[i] == l.Row(keys[i])
    requires Scheduling(l, keys, after, out, done, nextRow, indegree, placed)
    requires (forall i :: i in byRoute ==> i < |keys|) && place < |byRoute| && byRoute[place] in byRoute
    requires |indegree| == |rows| && NoneFree(rows, byRoute[..place], done, indegree, nextRow)
    requires l.FirstChoices(At(keys, byRoute), out)
    ensures l.FirstChoices(At(keys, byRoute), out + [keys[byRoute[place]]])
  {
    var route, k := At(keys, byRoute), keys[byRoute[place]];
    forall q | 0 <= q < place ensures !l.MayFollow(out, route[q]) {
      assert byRoute[..place][q] == byRoute[q] && byRoute[q] in byRoute;
      NotFreeYet(l, keys, rows, after, out, done, nextRow, indegree, placed, byRoute[q]);
    }
    FirstOfRoute(l, route, out, place);
    FirstChoicesGrow(l, route, out, k);
  }

  lemma FirstOfRoute(l: Layout, route: seq<string>, s: seq<string>, place: nat)
    requires place < |route| && forall q :: 0 <= q < place ==> !l.MayFollow(s, route[q])
    ensures forall b :: b in route && l.MayFollow(s, b) ==> b == route[place] || Ahead(route, route[place], b)
  {
  }

  /** A position that is not free is that of a model that may not follow. */
  lemma NotFreeYet(l: Layout, keys: seq<string>, rows: seq<int>, after: seq<seq<nat>>, out: seq<string>,
                   done: seq<bool>, nextRow: nat, indegree: seq<int>, placed: set<nat>, i: nat)
    requires NoDup(keys) && EdgesAre(l, keys, after) && i < |rows| == |keys| && rows[i] == l.Row(keys[i])
    requires Scheduling(l, keys, after, out, done, nextRow, indegree, placed)
    requires done[i] || indegree[i] != 0 || rows[i] > nextRow
    ensures !l.MayFollow(out, keys[i])
  {
    NoPredecessorsLeft(l, keys, out, placed, nextRow, after, indegree, i);
    if rows[i] > nextRow {
      assert !l.RowSeen(out, nextRow);
    }
  }

  lemma FirstChoicesGrow(l: Layout, route: seq<string>, s: seq<string>, k: string)
    requires l.FirstChoices(route, s)
    requires forall b :: b in route && l.MayFollow(s, b) ==> b == k || Ahead(route, k, b)
    ensures l.FirstChoices(route, s + [k])
  {
    forall m, b | 0 <= m < |s| + 1 && b in route && l.MayFollow((s + [k])[..m], b)
      ensures b == (s + [k])[m] || Ahead(route, (s + [k])[m], b)
    {
      if m < |s| {
        assert (s + [k])[..m] == s[..m];
      } else {
        assert (s + [k])[..m] == s;
      }
    }
  }

  /** Places a free model. */
  method PlaceNext(ghost l: Layout, keys: seq<string>, rows: seq<int>, after: seq<seq<nat>>, out: seq<string>,
                   ghost byRoute: seq<nat>, ghost place: nat, done: seq<bool>, nextRow: nat, indegree: seq<int>,
                   ghost placed: set<nat>, next: nat)
    returns (out': seq<string>, done': seq<bool>, nextRow': nat, indegree': seq<int>)
    requires NoDup(keys) && EdgesAre(l, keys, after) && next < |keys| == |rows| && rows[next] == l.Row(keys[next])
    requires Scheduling(l, keys, after, out, done, nextRow, indegree, placed) && |done| == |rows|
    requires next !in placed && indegree[next] == 0 && rows[next] <= nextRow
    requires forall i :: 0 <= i < |keys| ==> rows[i] == l.Row(keys[i])
    requires (forall i :: i in byRoute ==> i < |keys|) && place < |byRoute| && byRoute[place] == next
    requires |indegree| == |rows| && NoneFree(rows, byRoute[..place], done, indegree, nextRow)
    requires l.FirstChoices(At(keys, byRoute), out)
    ensures Scheduling(l, keys, after, out', done', nextRow', indegree', placed + {next})
    ensures out' == out + [keys[next]] && l.FirstChoices(At(keys, byRoute), out')
  {
    assert byRoute[place] in byRoute;
    ChoosesFirst(l, keys, rows, byRoute, after, out, done, nextRow, indegree, placed, place);
    FreePositionExtends(l, keys, out, placed, nextRow, after, indegree, next);
    MarkMore(done, placed, next);
    nextRow' := if rows[next] == nextRow then nextRow + 1 else nextRow;
    done', out' := done[next := true], out + [keys[next]];
    indegree' := Place(|keys|, after, indegree, placed, next);
  }

  /**
    The sorting loop: places one free model at a time, in route order. rows, after and indegree are
    the layout by position; byRoute lists every position.
   */
  method Schedule(ghost l: Layout, keys: seq<string>, rows: seq<int>, byRoute: seq<nat>,
                  after: seq<seq<nat>>, indegree0: seq<int>) returns (out: seq<string>)
    requires NoDup(keys) && EdgesAre(l, keys, after) && Graph(|keys|, after, indegree0, {})
    requires |rows| == |keys| && forall i :: 0 <= i < |keys| ==> rows[i] == l.Row(keys[i])
    requires forall i :: i in byRoute <==> 0 <= i < |keys|
    ensures IsPermutation(out, keys)
    ensures l.BestOrder(keys, out)
    ensures l.Orderable(keys) ==> l.FirstChoices(At(keys, byRoute), out)
  {
    var n := |keys|;
    out := [];
    var indegree := indegree0;
    var done: seq<bool> := seq(n, _ => false);
    var nextRow := 0;
    ghost var placed: set<nat> := {};
    while |out| < n
      invariant Scheduling(l, keys, after, out, done, nextRow, indegree, placed)
      invariant l.FirstChoices(At(keys, byRoute), out)
    {
      assert forall p :: 0 <= p < |byRoute| ==> byRoute[p] in byRoute;
      var next, place := FindNext(rows, byRoute, done, indegree, nextRow);
      if next < 0 {
        forall i | 0 <= i < n ensures i in placed || indegree[i] != 0 || l.Row(keys[i]) > nextRow {
          assert i in byRoute;
        }
        StuckMeansNoOrder(l, keys, out, placed, nextRow, after, indegree);
        return keys;
      }
      out, done, nextRow, indegree := PlaceNext(l, keys, rows, after, out, byRoute, place, done, nextRow, indegree,
          placed, next);
      placed := placed + {next as nat};
    }
    FullPrefixPermutes(l, keys, out, placed, nextRow);
  }

  // ---------------------------------------------------------------------------------------------
  // The order before the routes are considered
  // ---------------------------------------------------------------------------------------------

  /** The last key whose model has the given name. */
  function LastNamed(ms: map<string, Member>, keys: seq<string>, name: string): (r: Option<string>)
    requires forall k :: k in keys ==> k in ms
    ensures r.None? <==> forall k :: k in keys ==> ms[k].name != name
    ensures r.Some? ==> r.value in keys && ms[r.value].name == name
  {
    if keys == [] then None else
      var last := keys[|keys| - 1];
      assert keys == keys[..|keys| - 1] + [last];
      if ms[last].name == name then Some(last) else LastNamed(ms, keys[..|keys| - 1], name)
  }

  /** The keys that an ai_models row names, in row order. */
  function RowKeys(ms: map<string, Member>, keys: seq<string>, rows: seq<string>): seq<string>
    requires forall k :: k in keys ==> k in ms
  {
    if rows == [] then [] else
      var k := LastNamed(ms, keys, rows[|rows| - 1]);
      RowKeys(ms, keys, rows[..|rows| - 1]) + if k.Some? then [k.value] else []
  }

  lemma RowKeysSnoc(ms: map<string, Member>, keys: seq<string>, rows: seq<string>, row: string)
    requires forall k :: k in keys ==> k in ms
    ensures RowKeys(ms, keys, rows + [row]) == RowKeys(ms, keys, rows) +
            if LastNamed(ms, keys, row).Some? then [LastNamed(ms, keys, row).value] else []
  {
    assert (rows + [row])[..|rows|] == rows;
  }

  /** The keys outside taken whose model is split, or is not. */
  function Others(ms: map<string, Member>, keys: seq<string>, taken: seq<string>, split: bool): seq<string>
    requires forall k :: k in keys ==> k in ms
  {
    if keys == [] then [] else
      var k := keys[|keys| - 1];
      Others(ms, keys[..|keys| - 1], taken, split) + if k !in taken && ms[k].split == split then [k] else []
  }

  /** Keys with a row first, in row order; then the other keys, with the split ones last. */
  function Listed(ms: map<string, Member>, keys: seq<string>, rows: seq<string>): seq<string>
    requires forall k :: k in keys ==> k in ms
  {
    var named := RowKeys(ms, keys, rows);
    named + Others(ms, keys, named, false) + Others(ms, keys, [], true)
  }

  lemma {:induction false} RowKeysNamed(ms: map<string, Member>, keys: seq<string>, rows: seq<string>)
    requires (forall k :: k in keys ==> k in ms) && NoDup(rows)
    ensures forall k :: k in RowKeys(ms, keys, rows) ==> k in keys && ms[k].name in rows
    ensures NoDup(RowKeys(ms, keys, rows))
  {
    if rows != [] {
      var init, last := rows[..|rows| - 1], rows[|rows| - 1];
      assert rows == init + [last];
      RowKeysNamed(ms, keys, init);
      assert last !in init;
    }
  }

  lemma {:induction false} OthersAre(ms: map<string, Member>, keys: seq<string>, taken: seq<string>, split: bool)
    requires (forall k :: k in keys ==> k in ms) && NoDup(keys)
    ensures forall k :: k in Others(ms, keys, taken, split) <==> k in keys && k !in taken && ms[k].split == split
    ensures NoDup(Others(ms, keys, taken, split))
  {
    if keys != [] {
      var init, last := keys[..|keys| - 1], keys[|keys| - 1];
      assert keys == init + [last];
      OthersAre(ms, init, taken, split);
      assert last !in init;
    }
  }

  /** With distinct rows, none of which names a split model, every key is listed once. */
  lemma ListedPermutes(ms: map<string, Member>, keys: seq<string>, rows: seq<string>)
    requires (forall k :: k in keys ==> k in ms) && NoDup(keys) && NoDup(rows)
    requires forall k :: k in keys && ms[k].split ==> ms[k].name !in rows
    ensures IsPermutation(Listed(ms, keys, rows), keys)
  {
    var named := RowKeys(ms, keys, rows);
    RowKeysNamed(ms, keys, rows);
    OthersAre(ms, keys, named, false);
    OthersAre(ms, keys, [], true);
    var plain, splits := Others(ms, keys, named, false), Others(ms, keys, [], true);
    NoDupConcat(named, plain);
    NoDupConcat(named + plain, splits);
    SameElementsPermute(Listed(ms, keys, rows), keys);
  }

  /** A row has the name of the model, and no later key has it. */
  ghost predicate HasRow(ms: map<string, Member>, keys: seq<string>, rows: seq<string>, k: string)
    requires forall k :: k in keys ==> k in ms
    requires k in ms
  {
    ms[k].name in rows && forall j :: j in keys && ms[j].name == ms[k].name ==> j == k || Ahead(keys, j, k)
  }

  /** a comes ahead of b: models with rows first, in row order, then the others, with the split ones last. */
  ghost predicate ComesFirst(ms: map<string, Member>, keys: seq<string>, rows: seq<string>, a: string, b: string)
    requires (forall k :: k in keys ==> k in ms) && a in ms && b in ms
  {
    if HasRow(ms, keys, rows, a) then HasRow(ms, keys, rows, b) ==> Ahead(rows, ms[a].name, ms[b].name)
    else
      !HasRow(ms, keys, rows, b) && (ms[a].split ==> ms[b].split) &&
      (ms[a].split == ms[b].split ==> Ahead(keys, a, b))
  }

  ghost predicate InListOrder(ms: map<string, Member>, keys: seq<string>, rows: seq<string>, listed: seq<string>)
    requires (forall k :: k in keys ==> k in ms) && forall k :: k in listed ==> k in ms
  {
    forall p, q :: 0 <= p < q < |listed| ==> ComesFirst(ms, keys, rows, listed[p], listed[q])
  }

  lemma {:induction false} LastNamedIsLast(ms: map<string, Member>, keys: seq<string>, name: string)
    requires forall k :: k in keys ==> k in ms
    ensures var k := LastNamed(ms, keys, name);
            k.Some? ==> forall j :: j in keys && ms[j].name == name ==> j == k.value || Ahead(keys, j, k.value)
  {
    if keys != [] {
      var init, last := keys[..|keys| - 1], keys[|keys| - 1];
      assert keys == init + [last];
      LastNamedIsLast(ms, init, name);
      AheadGrows(init, last);
    }
  }

  /** The row keys are the keys with rows. */
  lemma {:induction false} RowKeysHaveRows(ms: map<string, Member>, keys: seq<string>, rows: seq<string>)
    requires (forall k :: k in keys ==> k in ms) && NoDup(keys)
    ensures forall k :: k in RowKeys(ms, keys, rows) <==> k in keys && HasRow(ms, keys, rows, k)
  {
    if rows != [] {
      var init, last := rows[..|rows| - 1], rows[|rows| - 1];
      assert rows == init + [last];
      RowKeysHaveRows(ms, keys, init);
      LastNamedIsLast(ms, keys, last);
      var found := LastNamed(ms, keys, last);
      forall k | k in keys && ms[k].name == last ensures HasRow(ms, keys, rows, k) <==> found == Some(k) {
        if HasRow(ms, keys, rows, k) && found.value != k {
          NotBothAhead(keys, k, found.value);
        }
      }
    }
  }

  ghost predicate InRowOrder(ms: map<string, Member>, rows: seq<string>, named: seq<string>) {
    (forall k :: k in named ==> k in ms) &&
    forall p, q :: 0 <= p < q < |named| ==> Ahead(rows, ms[named[p]].name, ms[named[q]].name)
  }

  /** Elements of part stand in the order that they have in s. */
  ghost predicate KeepsOrder<T>(s: seq<T>, part: seq<T>) {
    forall p, q :: 0 <= p < q < |part| ==> Ahead(s, part[p], part[q])
  }

  lemma {:induction false} RowKeysAscend(ms: map<string, Member>, keys: seq<string>, rows: seq<string>)
    requires (forall k :: k in keys ==> k in ms) && NoDup(rows)
    ensures InRowOrder(ms, rows, RowKeys(ms, keys, rows))
  {
    if rows != [] {
      var init, last := rows[..|rows| - 1], rows[|rows| - 1];
      assert rows == init + [last];
      RowKeysAscend(ms, keys, init);
      RowKeysNamed(ms, keys, init);
      var before, named := RowKeys(ms, keys, init), RowKeys(ms, keys, rows);
      AheadGrows(init, last);
      forall p, q | 0 <= p < q < |named|
        ensures Ahead(rows, ms[named[p]].name, ms[named[q]].name)
      {
        assert named[p] == before[p] && before[p] in before;
        if q < |before| {
          assert Ahead(init, ms[before[p]].name, ms[before[q]].name);
        }
      }
    }
  }

  lemma {:induction false} OthersKeepOrder(ms: map<string, Member>, keys: seq<string>, taken: seq<string>, split: bool)
    requires (forall k :: k in keys ==> k in ms) && NoDup(keys)
    ensures KeepsOrder(keys, Others(ms, keys, taken, split))
  {
    if keys != [] {
      var init, last := keys[..|keys| - 1], keys[|keys| - 1];
      assert keys == init + [last];
      OthersKeepOrder(ms, init, taken, split);
      OthersAre(ms, init, taken, split);
      AheadGrows(init, last);
      var before, others := Others(ms, init, taken, split), Others(ms, keys, taken, split);
      forall p, q | 0 <= p < q < |others| ensures Ahead(keys, others[p], others[q]) {
        assert others[p] == before[p] && before[p] in before;
        if q < |before| {
          assert Ahead(init, before[p], before[q]);
        }
      }
    }
  }

  /** The listing is in the order that rows, splits and first-seen order give. */
  lemma ListedInOrder(ms: map<string, Member>, keys: seq<string>, rows: seq<string>)
    requires (forall k :: k in keys ==> k in ms) && NoDup(keys) && NoDup(rows)
    requires forall k :: k in keys && ms[k].split ==> ms[k].name !in rows
    ensures forall k :: k in Listed(ms, keys, rows) ==> k in ms
    ensures InListOrder(ms, keys, rows, Listed(ms, keys, rows))
  {
    var named := RowKeys(ms, keys, rows);
    var plain, splits := Others(ms, keys, named, false), Others(ms, keys, [], true);
    var listed := Listed(ms, keys, rows);
    RowKeysHaveRows(ms, keys, rows);
    RowKeysAscend(ms, keys, rows);
    OthersAre(ms, keys, named, false);
    OthersAre(ms, keys, [], true);
    OthersKeepOrder(ms, keys, named, false);
    OthersKeepOrder(ms, keys, [], true);
    forall p, q | 0 <= p < q < |listed| ensures ComesFirst(ms, keys, rows, listed[p], listed[q]) {
      ListedPair(ms, keys, rows, named, plain, splits, p, q);
    }
  }

  lemma ListedPair(ms: map<string, Member>, keys: seq<string>, rows: seq<string>, named: seq<string>,
      plain: seq<string>, splits: seq<string>, p: nat, q: nat)
    requires forall k :: k in keys + named + plain + splits ==> k in ms
    requires (forall k :: k in named ==> HasRow(ms, keys, rows, k)) &&
             (forall k :: k in plain ==> !HasRow(ms, keys, rows, k) && !ms[k].split) &&
             forall k :: k in splits ==> !HasRow(ms, keys, rows, k) && ms[k].split
    requires InRowOrder(ms, rows, named) && KeepsOrder(keys, plain) && KeepsOrder(keys, splits)
    requires p < q < |named + plain + splits|
    ensures ComesFirst(ms, keys, rows, (named + plain + splits)[p], (named + plain + splits)[q])
  {
    var n, m := |named|, |named| + |plain|;
    assert p < n ==> named[p] in named;
    assert n <= p < m ==> plain[p - n] in plain;
    assert m <= p ==> splits[p - m] in splits;
    assert q < n ==> named[q] in named;
    assert n <= q < m ==> plain[q - n] in plain;
    assert m <= q ==> splits[q - m] in splits;
  }

  // ---------------------------------------------------------------------------------------------
  // The accumulator
  // ---------------------------------------------------------------------------------------------

  class ModelAcc {
    var groups: map<string, ModelGroup>
    ghost var members: set<ModelGroup>        // the values of groups
    var order: seq<string>                    // keys of groups, first seen first
    var hasSplits: bool                       // some group shares its ai_models row
    var routeGroups: seq<seq<ModelGroup>>     // the groups of each model route, in plugin order

    constructor (groups: map<string, ModelGroup>, order: seq<string>, hasSplits: bool,
                 routeGroups: seq<seq<ModelGroup>>)
      ensures this.groups == groups && this.order == order && Closed()
      ensures this.hasSplits == hasSplits && this.routeGroups == routeGroups
    {
      this.groups, this.order, this.hasSplits, this.routeGroups := groups, order, hasSplits, routeGroups;
      members := set k | k in groups :: groups[k];
    }

    /** What the accumulation of the routes establishes. */
    ghost predicate Valid()
      reads this
    {
      NoDup(order) &&
      (forall k :: k in order <==> k in groups) &&
      Closed() && (forall k :: k in groups ==> groups[k].key == k) &&
      (forall k :: k in groups && groups[k].split ==>
         groups[k].familyKey in groups && !groups[groups[k].familyKey].split)
    }

    ghost predicate Closed()
      reads this
    {
      forall k :: k in groups ==> groups[k] in members
    }

    /** keys lists every group once. */
    ghost predicate Lists(keys: seq<string>)
      reads this
    {
      IsPermutation(keys, order)
    }

    /** The group that holds the ai_models row of g. */
    function Family(g: ModelGroup): ModelGroup?
      reads this
    {
      if g.split then
        if g.familyKey in groups then groups[g.familyKey] else null
      else g
    }

    ghost function FamilyKey(k: string): string
      requires k in groups
      reads this
    {
      if groups[k].split then groups[k].familyKey else k
    }

    ghost predicate OwnsRow(k: string)
      requires k in groups
      reads this, groups[k]
    {
      !groups[k].split && groups[k].hasEntry
    }

    /** The groups with an ai_models row, in the order of keys. */
    ghost function RowOwners(keys: seq<string>): seq<string>
      requires forall k :: k in keys ==> k in groups
      requires Closed()
      reads this, members
    {
      if keys == [] then [] else
        var last := keys[|keys| - 1];
        RowOwners(keys[..|keys| - 1]) + if OwnsRow(last) then [last] else []
    }

    /** Whether the routes ask that the model of a precedes the model of b. */
    ghost predicate Precedes(a: string, b: string)
      requires a in groups && b in groups
      reads this
    {
      a != b && (groups[a], groups[b]) in RoutePairs(routeGroups)
    }

    /** The requirements that the routes put on an order of keys, with the rows of the given owners. */
    ghost function LayoutWith(keys: seq<string>, owners: seq<string>): Layout
      requires forall k :: k in keys ==> k in groups
      reads this
    {
      Layout(set a, b | a in keys && b in keys && Precedes(a, b) :: (a, b),
             map k | k in keys :: IndexOf(owners, FamilyKey(k)))
    }

    /** The requirements that the routes and the rows put on an order of keys. */
    ghost function LayoutOf(keys: seq<string>): Layout
      requires forall k :: k in keys ==> k in groups
      requires Closed()
      reads this, members
    {
      LayoutWith(keys, RowOwners(keys))
    }

    lemma {:induction false} RowOwnersAreKeys(keys: seq<string>)
      requires Closed()
      requires forall k :: k in keys ==> k in groups
      ensures forall k :: k in RowOwners(keys) ==> k in keys
      ensures NoDup(keys) ==> NoDup(RowOwners(keys))
    {
      if keys != [] {
        var init, last := keys[..|keys| - 1], keys[|keys| - 1];
        RowOwnersAreKeys(init);
        assert NoDup(keys) ==> last !in RowOwners(init);
      }
    }

    /** Numbers the row owners of keys in order. */
    method NumberRows(keys: seq<string>) returns (rowOf: map<ModelGroup, nat>)
      requires Valid() && NoDup(keys)
      requires forall k :: k in keys ==> k in groups
      ensures forall k :: k in keys ==>
        RowNumber(rowOf, groups[k]) == IndexOf(RowOwners(keys), FamilyKey(k))
    {
      rowOf := map[];
      ghost var seen: seq<string>, owners: seq<string>, at: seq<ModelGroup> := [], [], [];
      for i := 0 to |keys|
        invariant seen == keys[..i] && owners == RowOwners(seen)
        invariant |owners| == |at| == |rowOf|
        invariant forall j :: 0 <= j < |at| ==> owners[j] in seen && owners[j] in groups && groups[owners[j]] == at[j]
        invariant Positions(at, rowOf)
      {
        var g := groups[keys[i]];
        RowOwnersSnoc(seen, keys[i]);
        if !g.split && g.hasEntry {
          assert keys[i] !in seen;
          NewOwner(owners, at, rowOf, keys[i], seen);
          rowOf := rowOf[g := |rowOf|];
          owners, at := owners + [keys[i]], at + [g];
        }
        TakeSnoc(keys, i);
        seen := seen + [keys[i]];
      }
      TakeAll(keys);
      RowOwnersAreKeys(keys);
      forall k | k in keys
        ensures RowNumber(rowOf, groups[k]) == IndexOf(owners, FamilyKey(k))
      {
        RowNumberIsIndex(owners, at, rowOf, FamilyKey(k));
      }
    }

    lemma NewOwner(owners: seq<string>, at: seq<ModelGroup>, rowOf: map<ModelGroup, nat>, k: string, seen: seq<string>)
      requires Valid() && k in groups && k !in seen && |owners| == |at| == |rowOf| && Positions(at, rowOf)
      requires forall j :: 0 <= j < |at| ==> owners[j] in seen && owners[j] in groups && groups[owners[j]] == at[j]
      ensures groups[k] !in rowOf && Positions(at + [groups[k]], rowOf[groups[k] := |rowOf|])
    {
      forall j | 0 <= j < |at| ensures at[j] != groups[k] {
        assert at[j].key == owners[j] && groups[k].key == k;
      }
    }

    lemma RowOwnersSnoc(keys: seq<string>, k: string)
      requires Closed()
      requires k in groups && forall j :: j in keys ==> j in groups
      ensures RowOwners(keys + [k]) == RowOwners(keys) + if OwnsRow(k) then [k] else []
    {
      assert (keys + [k])[..|keys|] == keys;
    }

    lemma RowNumberIsIndex(owners: seq<string>, at: seq<ModelGroup>, rowOf: map<ModelGroup, nat>, f: string)
      requires Valid() && f in groups
      requires |owners| == |at| && NoDup(owners) && Positions(at, rowOf)
      requires forall j :: 0 <= j < |at| ==> owners[j] in groups && groups[owners[j]] == at[j]
      ensures groups[f] in rowOf <==> f in owners
      ensures f in owners ==> rowOf[groups[f]] == IndexOf(owners, f)
    {
      if groups[f] in rowOf {
        assert owners[rowOf[groups[f]]] == f;
      }
      var i := IndexOf(owners, f);
      if i >= 0 {
        assert at[i] == groups[f];
      }
    }

    /** The row of the family of g, or -1. */
    function RowNumber(rowOf: map<ModelGroup, nat>, g: ModelGroup): int
      reads this
    {
      var f := Family(g);
      if f != null && f in rowOf then rowOf[f] else -1
    }

    lemma LayoutPairs(keys: seq<string>, at: seq<ModelGroup>)
      requires Valid() && NoDup(keys) && |at| == |keys|
      requires forall i :: 0 <= i < |keys| ==> keys[i] in groups && groups[keys[i]] == at[i]
      ensures PairsAre(LayoutOf(keys), keys, at, RoutePairs(routeGroups))
    {
    }

    /** The row of the family of each key, or -1. */
    method RowOfEach(keys: seq<string>, ghost l: Layout) returns (rows: seq<int>)
      requires Valid() && NoDup(keys) && (forall k :: k in keys ==> k in groups) && l == LayoutOf(keys)
      ensures |rows| == |keys|
      ensures forall i :: 0 <= i < |keys| ==> rows[i] == l.Row(keys[i])
    {
      ghost var owners := RowOwners(keys);
      assert forall k :: k in keys ==> l.Row(k) == IndexOf(owners, FamilyKey(k));
      var rowOf := NumberRows(keys);
      rows := [];
      for i := 0 to |keys|
        invariant |rows| == i && forall j :: 0 <= j < i ==> rows[j] == l.Row(keys[j])
      {
        assert keys[i] in keys;
        rows := rows + [RowNumber(rowOf, groups[keys[i]])];
      }
    }

    /** The position of the group of each key. */
    method PositionOfEach(keys: seq<string>, ghost at: seq<ModelGroup>) returns (pos: map<ModelGroup, nat>)
      requires Valid() && NoDup(keys) && |at| == |keys|
      requires forall i :: 0 <= i < |keys| ==> keys[i] in groups && groups[keys[i]] == at[i]
      ensures Positions(at, pos)
    {
      pos := map[];
      ghost var seen: seq<ModelGroup> := [];
      for i := 0 to |keys|
        invariant seen == at[..i] && Positions(seen, pos)
      {
        assert groups[keys[i]] !in pos by {
          assert forall j :: 0 <= j < i ==> keys[j] != keys[i];
        }
        pos := pos[groups[keys[i]] := i];
        TakeSnoc(at, i);
        seen := seen + [at[i]];
      }
      TakeAll(at);
    }

    /**
      Sorts keys into the model order of the converter. The result is an order that respects the
      routes and the rows whenever there is one; otherwise keys stay as they are.
     */
    method SortByRoutes(keys: seq<string>, ghost l: Layout) returns (out: seq<string>)
      requires Valid() && Lists(keys)
      requires (forall k :: k in keys ==> k in groups) && l == LayoutOf(keys)
      ensures IsPermutation(out, keys) && l.BestOrder(keys, out)
      ensures l.Orderable(keys) ==> l.FirstChoices(order, out)
      ensures forall k :: k in out ==> k in groups
    {
      PermutationFacts(order, keys);
      ghost var gs := groups;
      ghost var at := seq(|keys|, i requires 0 <= i < |keys| => gs[keys[i]]);
      LayoutPairs(keys, at);
      var rows := RowOfEach(keys, l);
      var pos := PositionOfEach(keys, at);
      var after, indegree := BuildGraph(routeGroups, at, pos);
      var byRoute := RoutePositions(keys, at, pos);
      EdgesFollow(l, keys, at, after, RoutePairs(routeGroups));
      out := Schedule(l, keys, rows, byRoute, after, indegree);
      PermutationFacts(out, keys);
    }

    /** The positions of keys in first-seen order. */
    method RoutePositions(keys: seq<string>, ghost at: seq<ModelGroup>, pos: map<ModelGroup, nat>)
      returns (byRoute: seq<nat>)
      requires Valid() && Lists(keys) && Positions(at, pos) && |at| == |keys|
      requires forall i :: 0 <= i < |keys| ==> keys[i] in groups && groups[keys[i]] == at[i]
      ensures (forall i :: i in byRoute <==> 0 <= i < |keys|) && At(keys, byRoute) == order
    {
      PermutationFacts(keys, order);
      byRoute := [];
      for i := 0 to |order|
        invariant |byRoute| == i
        invariant forall m :: 0 <= m < i ==> order[m] in groups && groups[order[m]] in pos
        invariant forall m :: 0 <= m < i ==> byRoute[m] == pos[groups[order[m]]] < |keys|
      {
        assert order[i] in keys;
        byRoute := byRoute + [pos[groups[order[i]]]];
      }
      forall i | 0 <= i < |keys| ensures i in byRoute {
        assert keys[i] in order;
        var m :| 0 <= m < |order| && order[m] == keys[i];
        assert byRoute[m] == i;
      }
    }

    // -------------------------------------------------------------------------------------------
    // Names
    // -------------------------------------------------------------------------------------------

    /** The groups as values. */
    ghost function Members(): (ms: map<string, Member>)
      requires Closed()
      reads this, members
      ensures ms.Keys == groups.Keys
    {
      map k | k in groups :: groups[k].AsMember()
    }

    /** Visits the group of k; seen holds the owners of the families visited before. */
    method VisitGroup(k: string, seen: set<ModelGroup>) returns (seen': set<ModelGroup>)
      requires Valid() && k in groups
      modifies members
      ensures Valid() && unchanged(this)
      ensures seen' == seen + {groups[FamilyKey(k)]}
      ensures Members() == Visit(old(Members()), groups[FamilyKey(k)] in seen, k)
      ensures forall j :: j in groups ==> groups[j].hasEntry == old(groups[j].hasEntry)
    {
      seen' := seen;
      var g := groups[k];
      var owner := Family(g);
      if owner == null || owner in seen {
        return;
      }
      seen' := seen' + {owner};
      if g == owner || owner.FannedOut() {
        return;
      }
      ghost var ms, f := Members(), FamilyKey(k);
      assert f != k;
      ghost var target := ms[k := ms[k].Renamed(ms[f].name)][f := ms[f].Renamed(ms[k].name)];
      ExchangeNames(g, owner);
      forall j | j in groups ensures groups[j].AsMember() == target[j] {
        assert j != k && j != f ==> groups[j] != g && groups[j] != owner;
      }
      assert Members() == target;
    }

    /**
      Gives the name of each ai_models row to the first model of its family, so that this model
      gets the ID and the labels of the row.
     */
    method GiveEntriesToFirst(keys: seq<string>)
      requires Valid() && forall k :: k in keys ==> k in groups
      modifies members
      ensures Valid() && unchanged(this)
      ensures Members() == Given(old(Members()), keys)
      ensures forall k :: k in groups ==> groups[k].hasEntry == old(groups[k].hasEntry)
    {
      ghost var ms, visited: seq<string> := Members(), [];
      ghost var now := ms;
      var seen: set<ModelGroup> := {};
      for i := 0 to |keys|
        invariant Valid() && unchanged(this)
        invariant visited == keys[..i] && SeenFamilies(ms, visited, seen)
        invariant Members() == now && now == Given(ms, visited)
        invariant forall k :: k in groups ==> groups[k].hasEntry == old(groups[k].hasEntry)
      {
        SeenSnoc(ms, visited, seen, keys[i]);
        GivenSnoc(ms, visited, keys[i]);
        TakeSnoc(keys, i);
        visited := visited + [keys[i]];
        now := Given(ms, visited);
        seen := VisitGroup(keys[i], seen);
      }
      TakeAll(keys);
    }

    /** seen holds the owners of the visited families. */
    ghost predicate SeenFamilies(ms: map<string, Member>, visited: seq<string>, seen: set<ModelGroup>)
      reads this
    {
      (forall k :: k in visited ==> k in ms) &&
      forall f :: f in groups ==> (groups[f] in seen <==> FirstOf(ms, visited, f).Some?)
    }

    lemma SeenSnoc(ms: map<string, Member>, visited: seq<string>, seen: set<ModelGroup>, k: string)
      requires Valid() && k in groups && SeenFamilies(ms, visited, seen) && ms.Keys == groups.Keys
      requires forall j :: j in groups ==> ms[j].split == groups[j].split && ms[j].familyKey == groups[j].familyKey
      ensures EntryNames.Family(ms, k) == FamilyKey(k)
      ensures SeenFamilies(ms, visited + [k], seen + {groups[FamilyKey(k)]})
    {
      forall f | f in groups
        ensures groups[f] in seen + {groups[FamilyKey(k)]} <==> FirstOf(ms, visited + [k], f).Some?
      {
        FirstOfSnoc(ms, visited, k, f);
      }
    }

    /** Maps each name to the last key whose model has it. */
    method IndexNames() returns (byName: map<string, string>)
      requires Valid()
      ensures forall name :: LastNamed(Members(), order, name) ==
                             (if name in byName then Some(byName[name]) else None)
      ensures Members() == old(Members())
    {
      byName := map[];
      ghost var ms, seen: seq<string> := Members(), [];
      for i := 0 to |order|
        invariant seen == order[..i]
        invariant forall name :: LastNamed(ms, seen, name) == (if name in byName then Some(byName[name]) else None)
      {
        byName := byName[groups[order[i]].name := order[i]];
        assert (seen + [order[i]])[..|seen|] == seen;
        TakeSnoc(order, i);
        seen := seen + [order[i]];
      }
      TakeAll(order);
    }

    /** Lists the keys that have a row, and marks their groups. */
    method MarkRows(rows: seq<string>, byName: map<string, string>) returns (named: seq<string>)
      requires Valid() && forall k :: k in groups ==> !groups[k].hasEntry
      requires forall name :: LastNamed(Members(), order, name) == (if name in byName then Some(byName[name]) else None)
      modifies members
      ensures Valid() && unchanged(this) && Members() == old(Members())
      ensures named == RowKeys(old(Members()), order, rows)
      ensures forall k :: k in groups ==> (groups[k].hasEntry <==> k in named)
    {
      named := [];
      ghost var ms, seen: seq<string> := Members(), [];
      for i := 0 to |rows|
        invariant Valid() && unchanged(this)
        invariant forall k :: k in groups ==> groups[k].AsMember() == ms[k]
        invariant seen == rows[..i] && named == RowKeys(ms, order, seen)
        invariant forall k :: k in groups ==> (groups[k].hasEntry <==> k in named)
      {
        RowKeysSnoc(ms, order, seen, rows[i]);
        if rows[i] in byName {
          var k := byName[rows[i]];
          assert LastNamed(ms, order, rows[i]) == Some(k);
          named := named + [k];
          Mark(k);
        }
        TakeSnoc(rows, i);
        seen := seen + [rows[i]];
      }
      TakeAll(rows);
    }

    method Mark(k: string)
      requires Valid() && k in groups
      modifies groups[k]
      ensures Valid() && unchanged(this)
      ensures forall j :: j in groups ==> groups[j].AsMember() == old(groups[j].AsMember())
      ensures forall j :: j in groups ==> (groups[j].hasEntry <==> j == k || old(groups[j].hasEntry))
    {
      groups[k].MarkEntry();
      forall j | j in groups && j != k ensures groups[j].AsMember() == old(groups[j].AsMember()) {
        assert groups[j] != groups[k];
      }
    }

    /** The keys outside taken whose model is split, or is not. */
    method SelectKeys(ghost ms: map<string, Member>, taken: seq<string>, split: bool) returns (keys: seq<string>)
      requires Valid() && ms == Members()
      ensures keys == Others(ms, order, taken, split) && Members() == ms
    {
      keys := [];
      ghost var seen: seq<string> := [];
      for i := 0 to |order|
        invariant seen == order[..i] && keys == Others(ms, seen, taken, split)
      {
        assert (seen + [order[i]])[..|seen|] == seen;
        if order[i] !in taken && groups[order[i]].split == split {
          keys := keys + [order[i]];
        }
        TakeSnoc(order, i);
        seen := seen + [order[i]];
      }
      TakeAll(order);
    }

    /** The row owners of a list whose first part has the rows. */
    lemma {:induction false} RowOwnersListed(named: seq<string>, rest: seq<string>)
      requires Closed()
      requires forall k :: k in named ==> k in groups && OwnsRow(k)
      requires forall k :: k in rest ==> k in groups && !OwnsRow(k)
      ensures RowOwners(named + rest) == named
    {
      var s := named + rest;
      if rest != [] {
        assert s[..|s| - 1] == named + rest[..|rest| - 1];
        RowOwnersListed(named, rest[..|rest| - 1]);
      } else if named != [] {
        assert s[..|s| - 1] == named[..|named| - 1] + [];
        RowOwnersListed(named[..|named| - 1], []);
      }
    }

    /** Lists the keys with the ai_models rows first, and marks the groups that have a row. */
    method ListKeys(rows: seq<string>) returns (ordered: seq<string>)
      requires Valid() && NoDup(rows)
      requires forall k :: k in groups ==> !groups[k].hasEntry
      requires forall k :: k in groups && groups[k].split ==> groups[k].name !in rows
      modifies members
      ensures Valid() && unchanged(this) && Members() == old(Members())
      ensures ordered == Listed(old(Members()), order, rows) && Lists(ordered)
      ensures forall k :: k in ordered ==> k in groups
      ensures RowOwners(ordered) == RowKeys(old(Members()), order, rows)
    {
      ghost var ms := Members();
      assert forall k :: k in ms && ms[k].split ==> ms[k].name !in rows;
      var byName := IndexNames();
      var named := MarkRows(rows, byName);
      RowKeysNamed(ms, order, rows);
      var plain := SelectKeys(ms, named, false);
      var splits := SelectKeys(ms, [], true);
      ordered := named + plain + splits;
      ListedFacts(ms, rows, named, plain, splits);
    }

    lemma ListedFacts(ms: map<string, Member>, rows: seq<string>, named: seq<string>, plain: seq<string>,
        splits: seq<string>)
      requires Valid() && NoDup(rows) && ms == Members()
      requires forall k :: k in ms && ms[k].split ==> ms[k].name !in rows
      requires forall k :: k in groups ==> (groups[k].hasEntry <==> k in named)
      requires named == RowKeys(ms, order, rows)
      requires plain == Others(ms, order, named, false) && splits == Others(ms, order, [], true)
      ensures Lists(named + plain + splits)
      ensures forall k :: k in named + plain + splits ==> k in groups
      ensures RowOwners(named + plain + splits) == named
    {
      RowKeysNamed(ms, order, rows);
      OthersAre(ms, order, named, false);
      OthersAre(ms, order, [], true);
      forall k | k in named ensures k in groups && OwnsRow(k) {
        assert groups[k].AsMember() == ms[k];
      }
      forall k | k in plain + splits ensures k in groups && !OwnsRow(k) {
        assert groups[k].AsMember() == ms[k];
      }
      RowOwnersListed(named, plain + splits);
      assert named + (plain + splits) == named + plain + splits;
      ListedPermutes(ms, order, rows);
    }

    /**
      The layout asks for the order of neighbours on a route and of the leaders of successive routes,
      and gives each model the row of its family, by its place in the listing.
     */
    ghost predicate IsLayout(ms: map<string, Member>, rows: seq<string>, listed: seq<string>, l: Layout)
      requires ms.Keys == groups.Keys && forall k :: k in order || k in listed ==> k in groups
      reads this
    {
      (forall a, b :: (a, b) in l.before <==>
         a in listed && b in listed && a != b &&
         (Neighbours(routeGroups, groups[a], groups[b]) || Leaders(routeGroups, groups[a], groups[b]))) &&
      forall k :: k in listed ==>
        var family := if groups[k].split then groups[k].familyKey else k;
        if family in order && HasRow(ms, order, rows, family)
        then 0 <= l.Row(k) < |listed| && listed[l.Row(k)] == family
        else l.Row(k) == -1
    }

    lemma LayoutMeans(ms: map<string, Member>, rows: seq<string>, listed: seq<string>)
      requires Valid() && ms.Keys == groups.Keys && forall k :: k in listed ==> k in groups
      requires listed == Listed(ms, order, rows)
      ensures IsLayout(ms, rows, listed, LayoutWith(listed, RowKeys(ms, order, rows)))
    {
      var named := RowKeys(ms, order, rows);
      var l := LayoutWith(listed, named);
      RowKeysHaveRows(ms, order, rows);
      forall a, b | a in groups && b in groups
        ensures Precedes(a, b) <==>
                a != b && (Neighbours(routeGroups, groups[a], groups[b]) || Leaders(routeGroups, groups[a], groups[b]))
      {
        RoutePairsMean(routeGroups, groups[a], groups[b]);
      }
      forall k | k in listed && FamilyKey(k) in named
        ensures 0 <= l.Row(k) < |listed| && listed[l.Row(k)] == FamilyKey(k)
      {
        assert listed[..|named|] == named;
      }
    }

    /** Restores the document order of the models; rows are the names of the ai_models rows. */
    method OrderedModelKeys(rows: seq<string>) returns (out: seq<string>, ghost listed: seq<string>, ghost l: Layout)
      requires Valid() && NoDup(rows)
      requires forall k :: k in groups ==> !groups[k].hasEntry
      requires forall k :: k in groups && groups[k].split ==> groups[k].name !in rows
      modifies members
      ensures listed == Listed(old(Members()), order, rows) && IsPermutation(out, order)
      ensures !hasSplits ==> out == listed && Members() == old(Members())
      ensures unchanged(this) && forall k :: k in listed ==> k in groups
      ensures IsPermutation(listed, order) && InListOrder(old(Members()), order, rows, listed)
      ensures l == LayoutWith(listed, RowKeys(old(Members()), order, rows)) && IsLayout(old(Members()), rows, listed, l)
      ensures hasSplits ==> l.BestOrder(listed, out) && (l.Orderable(listed) ==> l.FirstChoices(order, out))
      ensures hasSplits ==> (forall k :: k in out ==> k in groups) && Members() == Given(old(Members()), out)
    {
      ListedInOrder(Members(), order, rows);
      out := ListKeys(rows);
      listed, l := out, LayoutOf(out);
      LayoutMeans(Members(), rows, listed);
      if hasSplits {
        out := SortAndName(out, l);
      }
    }

    method SortAndName(keys: seq<string>, ghost l: Layout) returns (out: seq<string>)
      requires Valid() && Lists(keys)
      requires (forall k :: k in keys ==> k in groups) && l == LayoutOf(keys)
      modifies members
      ensures unchanged(this) && IsPermutation(out, order) && l.BestOrder(keys, out)
      ensures l.Orderable(keys) ==> l.FirstChoices(order, out)
      ensures (forall k :: k in out ==> k in groups) && Members() == Given(old(Members()), out)
    {
      ghost var ms := Members();
      out := SortByRoutes(keys, l);
      GiveEntriesToFirst(out);
      assert Members() == Given(ms, out);
    }
  }

  /** The two groups exchange names; route.model.values follows. */
  method ExchangeNames(g: ModelGroup, owner: ModelGroup)
    requires g != owner
    modifies g`name, g`values, owner`name, owner`values
    ensures g.AsMember() == old(g.AsMember().Renamed(owner.name))
    ensures owner.AsMember() == old(owner.AsMember().Renamed(g.name))
  {
    g.name, owner.name := owner.name, g.name;
    g.SyncAliasValue();
    owner.SyncAliasValue();
  }
}
