/**
  What a pass writes to the ai_models rows and to the plugins scoped to them, in terms of the models
  alone (convert/model.go, extractModelAliases, writeAIModels and placeSharedID).
 */
module WrittenRows {
  import opened Sequences
  import opened AIModelRows

  // ---------------------------------------------------------------------------------------------
  // Rows
  // ---------------------------------------------------------------------------------------------

  ghost predicate IsFirst(values: seq<string>, i: int) {
    0 <= i < |values| && forall j :: 0 <= j < i ==> values[j] != values[i]
  }

  /** The first occurrences of the values in order, or the name if there are no values. */
  ghost predicate AreAliases(m: Model, positions: seq<nat>, aliases: seq<string>) {
    if m.values == [] then aliases == [m.name]
    else
      Picks(m.values, positions, aliases) && forall i: nat :: i in positions <==> IsFirst(m.values, i)
  }

  ghost predicate NamesNone(rows: seq<AIModel>, name: string) {
    forall i :: 0 <= i < |rows| ==> rows[i].name != name
  }

  /** The aliases without a row, in order. */
  ghost predicate AreMissing(rows: seq<AIModel>, aliases: seq<string>, positions: seq<nat>, missing: seq<string>) {
    Picks(aliases, positions, missing) &&
    forall i: nat :: i in positions <==> i < |aliases| && NamesNone(rows, aliases[i])
  }

  /** Row i is that of the first alias whose row has no ID. */
  ghost predicate Receives(rows: seq<AIModel>, aliases: seq<string>, i: int) {
    0 <= i < |rows| && rows[i].id == "" &&
    exists k :: 0 <= k < |aliases| && aliases[k] == rows[i].name && AllTaken(rows, aliases[..k])
  }

  ghost predicate AllTaken(rows: seq<AIModel>, aliases: seq<string>) {
    forall r :: 0 <= r < |rows| && rows[r].name in aliases ==> rows[r].id != ""
  }

  /**
    Each missing alias has got a row with the labels of the model. The first of these rows has its ID,
    and if there are several all have its name as their group. If no alias was missing, the first row
    without an ID has got the ID.
   */
  ghost predicate RowsAfter(before: seq<AIModel>, m: Model, aliases: seq<string>, missing: seq<string>,
      after: seq<AIModel>) {
    |after| == |before| + |missing| &&
    (forall k :: 0 <= k < |missing| ==>
       after[|before| + k] == AIModel(if k == 0 then m.id else "", missing[k], m.labels,
                                      if |missing| > 1 then Some(missing[0]) else None)) &&
    forall i :: 0 <= i < |before| ==>
      after[i] == if missing == [] && Receives(before, aliases, i) then before[i].(id := m.id) else before[i]
  }

  lemma {:induction false} UniquePicks(values: seq<string>) returns (positions: seq<nat>)
    ensures Picks(values, positions, Unique(values))
    ensures forall i: nat :: i in positions <==> IsFirst(values, i)
  {
    if values == [] {
      positions := [];
    } else {
      var init, last := values[..|values| - 1], values[|values| - 1];
      assert values == init + [last];
      positions := UniquePicks(init);
      PicksNext(init, last, positions, Unique(init));
      assert forall i :: 0 <= i < |init| ==> (IsFirst(init, i) <==> IsFirst(values, i));
      if last !in init {
        positions := positions + [|init|];
      }
    }
  }

  lemma {:induction false} OwnedPicks(rows: seq<AIModel>, aliases: seq<string>) returns (positions: seq<nat>)
    ensures AreMissing(rows, aliases, positions, Owned(rows, aliases))
  {
    if aliases == [] {
      positions := [];
    } else {
      var init, last := aliases[..|aliases| - 1], aliases[|aliases| - 1];
      assert aliases == init + [last];
      positions := OwnedPicks(rows, init);
      PicksNext(init, last, positions, Owned(rows, init));
      if !HasRow(rows, last) {
        positions := positions + [|init|];
      }
    }
  }

  lemma {:induction false} SharedPlaceMeans(rows: seq<AIModel>, aliases: seq<string>, i: nat)
    requires UniqueNames(rows) && i < |rows| && forall a :: a in aliases ==> HasRow(rows, a)
    ensures SharedPlace(rows, aliases) == Some(i) <==> Receives(rows, aliases, i)
  {
    if aliases != [] {
      var first, rest := aliases[0], aliases[1..];
      assert aliases == [first] + rest && first in aliases;
      var r := RowIndex(rows, first);
      assert forall k :: 0 <= k < |rows| && rows[k].name == first ==> k == r;
      SharedPlaceMeans(rows, rest, i);
      if rows[r].id == "" {
        if Receives(rows, aliases, i) {
          var k :| 0 <= k < |aliases| && aliases[k] == rows[i].name && AllTaken(rows, aliases[..k]);
          assert k > 0 ==> aliases[..k][0] == first;
        }
        assert AllTaken(rows, aliases[..0]);
      } else {
        ReceivesLater(rows, first, rest, i);
      }
    }
  }

  lemma ReceivesLater(rows: seq<AIModel>, first: string, rest: seq<string>, i: nat)
    requires i < |rows| && forall r :: 0 <= r < |rows| && rows[r].name == first ==> rows[r].id != ""
    ensures Receives(rows, [first] + rest, i) <==> Receives(rows, rest, i)
  {
    var aliases := [first] + rest;
    if Receives(rows, aliases, i) {
      var k :| 0 <= k < |aliases| && aliases[k] == rows[i].name && AllTaken(rows, aliases[..k]);
      assert k > 0;
      assert aliases[..k] == [first] + rest[..k - 1];
      assert rest[k - 1] == rows[i].name && AllTaken(rows, rest[..k - 1]);
    }
    if Receives(rows, rest, i) {
      var k :| 0 <= k < |rest| && rest[k] == rows[i].name && AllTaken(rows, rest[..k]);
      assert aliases[..k + 1] == [first] + rest[..k];
      assert aliases[k + 1] == rows[i].name && AllTaken(rows, aliases[..k + 1]);
    }
  }

  lemma WrittenMeans(before: seq<AIModel>, m: Model)
    requires UniqueNames(before)
    ensures RowsAfter(before, m, AliasesOf(m), Owned(before, AliasesOf(m)), Written(before, m))
  {
    var aliases := AliasesOf(m);
    OwnedMeans(before, aliases);
    if Owned(before, aliases) == [] {
      forall i: nat | i < |before| ensures SharedPlace(before, aliases) == Some(i) <==> Receives(before, aliases, i) {
        SharedPlaceMeans(before, aliases, i);
      }
    }
  }

  /** The rows before and after a model of a pass. Before the first model there are none. */
  lemma RowsOfPass(ms: seq<Model>, hist: seq<seq<AIModel>>, k: nat)
    returns (firsts: seq<nat>, aliases: seq<string>, without: seq<nat>, missing: seq<string>)
    requires Pass(ms, hist) && k < |ms|
    ensures |hist| == |ms| + 1 && hist[0] == [] && AreAliases(ms[k], firsts, aliases)
    ensures AreMissing(hist[k], aliases, without, missing)
    ensures RowsAfter(hist[k], ms[k], aliases, missing, hist[k + 1])
  {
    aliases := AliasesOf(ms[k]);
    firsts := UniquePicks(ms[k].values);
    missing := Owned(hist[k], aliases);
    without := OwnedPicks(hist[k], aliases);
    RowsAreAliases(ms, hist, k, "");
    assert Next(ms, hist, k);
    WrittenMeans(hist[k], ms[k]);
  }

  // ---------------------------------------------------------------------------------------------
  // Plugins
  // ---------------------------------------------------------------------------------------------

  /** A plugin copy by its model, the route, the plugin, and the alias. */
  datatype Slot = Slot(model: nat, route: nat, plugin: nat, of: nat)

  /** The model gets an ai_models scope, and the route has a selector. */
  ghost predicate IsSlot(ms: seq<Model>, aliases: seq<seq<string>>, x: Slot) {
    x.model < |ms| && x.model < |aliases| && ms[x.model].scoped &&
    x.route < |ms[x.model].routes| && !ms[x.model].routes[x.route].websocket &&
    x.plugin < |ms[x.model].plugins| && x.of < |aliases[x.model]|
  }

  ghost predicate Earlier(x: Slot, y: Slot) {
    x.model < y.model || (x.model == y.model &&
    (x.route < y.route || (x.route == y.route &&
    (x.plugin < y.plugin || (x.plugin == y.plugin && x.of < y.of)))))
  }

  ghost predicate InOrder(slots: seq<Slot>) {
    forall i, j :: 0 <= i < j < |slots| ==> Earlier(slots[i], slots[j])
  }

  /** The plugin of the slot, on its route, scoped to the row of its alias. */
  ghost predicate CopyAt(ms: seq<Model>, aliases: seq<seq<string>>, x: Slot, p: ScopedPlugin) {
    IsSlot(ms, aliases, x) &&
    p == ScopedPlugin(ms[x.model].plugins[x.plugin], ms[x.model].routes[x.route].name, aliases[x.model][x.of])
  }

  /** The slots are all those in front of a bound, in order, and each has its copy. */
  ghost predicate CopiesTo(ms: seq<Model>, aliases: seq<seq<string>>, bound: Slot, slots: seq<Slot>,
      copies: seq<ScopedPlugin>) {
    InOrder(slots) && (forall x :: x in slots <==> IsSlot(ms, aliases, x) && Earlier(x, bound)) &&
    |copies| == |slots| && forall k :: 0 <= k < |slots| ==> CopyAt(ms, aliases, slots[k], copies[k])
  }

  lemma SameBound(ms: seq<Model>, aliases: seq<seq<string>>, bound: Slot, bound': Slot, slots: seq<Slot>,
      copies: seq<ScopedPlugin>)
    requires CopiesTo(ms, aliases, bound, slots, copies)
    requires forall x :: IsSlot(ms, aliases, x) ==> (Earlier(x, bound) <==> Earlier(x, bound'))
    ensures CopiesTo(ms, aliases, bound', slots, copies)
  {
  }

  /** The copies of one more plugin on a route. */
  lemma NextPlugin(ms: seq<Model>, aliases: seq<seq<string>>, bound: Slot, slots: seq<Slot>, copies: seq<ScopedPlugin>)
    returns (slots': seq<Slot>)
    requires CopiesTo(ms, aliases, bound, slots, copies) && bound.of == 0
    requires bound.model < |ms| && bound.model < |aliases| && ms[bound.model].scoped
    requires bound.route < |ms[bound.model].routes| && !ms[bound.model].routes[bound.route].websocket
    requires bound.plugin < |ms[bound.model].plugins|
    ensures CopiesTo(ms, aliases, bound.(plugin := bound.plugin + 1), slots',
                copies + CopiesFor(ms[bound.model].plugins[bound.plugin], ms[bound.model].routes[bound.route],
                             aliases[bound.model]))
  {
    var n := |aliases[bound.model]|;
    var more := seq(n, i requires 0 <= i < n => bound.(of := i));
    slots' := slots + more;
    forall x | IsSlot(ms, aliases, x) && Earlier(x, bound.(plugin := bound.plugin + 1))
      ensures x in slots'
    {
      if !Earlier(x, bound) {
        assert more[x.of] == x;
      }
    }
    assert forall k :: 0 <= k < |slots| ==> slots[k] in slots;
    assert forall x :: x in slots' ==> x in slots || x in more;
  }

  lemma {:induction false} CopiesOnRoute(ms: seq<Model>, aliases: seq<seq<string>>, i: nat, r: nat, j: nat,
      slots: seq<Slot>, copies: seq<ScopedPlugin>) returns (slots': seq<Slot>)
    requires i < |ms| == |aliases| && aliases[i] == AliasesOf(ms[i])
    requires r < |ms[i].routes| && j <= |ms[i].plugins| && CopiesTo(ms, aliases, Slot(i, r, 0, 0), slots, copies)
    ensures CopiesTo(ms, aliases, Slot(i, r, j, 0), slots',
                copies + OnRoute(ms[i], ms[i].routes[r], ms[i].plugins[..j]))
  {
    var m := ms[i];
    if j == 0 || !m.scoped || m.routes[r].websocket {
      slots' := slots;
      assert copies + OnRoute(m, m.routes[r], m.plugins[..j]) == copies;
      SameBound(ms, aliases, Slot(i, r, 0, 0), Slot(i, r, j, 0), slots, copies);
    } else {
      var before := CopiesOnRoute(ms, aliases, i, r, j - 1, slots, copies);
      var had := copies + OnRoute(m, m.routes[r], m.plugins[..j - 1]);
      slots' := NextPlugin(ms, aliases, Slot(i, r, j - 1, 0), before, had);
      assert m.plugins[..j][..j - 1] == m.plugins[..j - 1];
      assert copies + OnRoute(m, m.routes[r], m.plugins[..j]) ==
             had + CopiesFor(m.plugins[j - 1], m.routes[r], aliases[i]);
    }
  }

  lemma {:induction false} CopiesOnRoutes(ms: seq<Model>, aliases: seq<seq<string>>, i: nat, r: nat,
      slots: seq<Slot>, copies: seq<ScopedPlugin>) returns (slots': seq<Slot>)
    requires i < |ms| == |aliases| && aliases[i] == AliasesOf(ms[i])
    requires r <= |ms[i].routes| && CopiesTo(ms, aliases, Slot(i, 0, 0, 0), slots, copies)
    ensures CopiesTo(ms, aliases, Slot(i, r, 0, 0), slots', copies + OnRoutes(ms[i], ms[i].routes[..r]))
  {
    var m := ms[i];
    if r == 0 {
      slots' := slots;
      assert copies + OnRoutes(m, m.routes[..0]) == copies;
    } else {
      var before := CopiesOnRoutes(ms, aliases, i, r - 1, slots, copies);
      var had := copies + OnRoutes(m, m.routes[..r - 1]);
      slots' := CopiesOnRoute(ms, aliases, i, r - 1, |m.plugins|, before, had);
      TakeAll(m.plugins);
      SameBound(ms, aliases, Slot(i, r - 1, |m.plugins|, 0), Slot(i, r, 0, 0), slots',
          had + OnRoute(m, m.routes[r - 1], m.plugins));
      assert m.routes[..r][..r - 1] == m.routes[..r - 1];
      assert copies + OnRoutes(m, m.routes[..r]) == had + OnRoute(m, m.routes[r - 1], m.plugins);
    }
  }

  lemma {:induction false} CopiesOfModels(ms: seq<Model>, aliases: seq<seq<string>>, n: nat) returns (slots: seq<Slot>)
    requires n <= |ms| == |aliases| && forall k :: 0 <= k < |ms| ==> aliases[k] == AliasesOf(ms[k])
    ensures CopiesTo(ms, aliases, Slot(n, 0, 0, 0), slots, ScopedOfAll(ms[..n]))
  {
    if n == 0 {
      slots := [];
    } else {
      var m := ms[n - 1];
      var before := CopiesOfModels(ms, aliases, n - 1);
      assert ms[..n][..n - 1] == ms[..n - 1];
      slots := CopiesOnRoutes(ms, aliases, n - 1, |m.routes|, before, ScopedOfAll(ms[..n - 1]));
      TakeAll(m.routes);
      SameBound(ms, aliases, Slot(n - 1, |m.routes|, 0, 0), Slot(n, 0, 0, 0), slots, ScopedOfAll(ms[..n]));
    }
  }

  /** In order of models, routes, plugins and aliases, each plugin on a route with a selector has its copy. */
  lemma ScopedCopies(ms: seq<Model>)
    returns (firsts: seq<seq<nat>>, aliases: seq<seq<string>>, slots: seq<Slot>)
    ensures |firsts| == |aliases| == |ms| && forall k :: 0 <= k < |ms| ==> AreAliases(ms[k], firsts[k], aliases[k])
    ensures InOrder(slots) && forall x :: x in slots <==> IsSlot(ms, aliases, x)
    ensures |ScopedOfAll(ms)| == |slots|
    ensures forall k :: 0 <= k < |slots| ==> CopyAt(ms, aliases, slots[k], ScopedOfAll(ms)[k])
  {
    aliases := seq(|ms|, k requires 0 <= k < |ms| => AliasesOf(ms[k]));
    firsts := [];
    for k := 0 to |ms|
      invariant |firsts| == k && forall j :: 0 <= j < k ==> AreAliases(ms[j], firsts[j], aliases[j])
    {
      var positions := UniquePicks(ms[k].values);
      firsts := firsts + [positions];
    }
    slots := CopiesOfModels(ms, aliases, |ms|);
    TakeAll(ms);
  }
}
