/**
  The ai_models rows of a document (convert/model.go, extractModelAliases, writeAIModels and
  placeSharedID).

  Each alias of a model gets a row that is named after it. Models can share an alias, but the
  data plane accepts one row for each name, so the first model makes the row and the others
  use it. The pass finds rows by name through a map that has to agree with the emitted list.
 */
module AIModelRows {
  import opened Sequences
  import AliasMerge

  /** A route that a model is on; a WebSocket route has no selector, so its plugins have no ai_models scope. */
  datatype Route = Route(name: string, websocket: bool)

  /**
    A model. plugins names what it puts on each of its routes: its policies, and its proxy plugin
    unless an earlier model of its name is on the route (see ProxyGroups). scoped says whether they
    get an ai_models scope, which those of passthrough and api models do not.
   */
  datatype Model = Model(name: string, id: string, values: seq<string>, labels: seq<string>,
                         scoped: bool, routes: seq<Route>, plugins: seq<string>)

  /** A plugin that is scoped to a route and, by its name, to an ai_models row. */
  datatype ScopedPlugin = ScopedPlugin(name: string, route: string, row: string)

  /** A row; group is the name in its alias-group tag. */
  datatype AIModel = AIModel(id: string, name: string, labels: seq<string>, group: Option<string>)

  /** What the pass remembers of a row: who made it, its ID, and where it is in the emitted list. */
  datatype Row = Row(owner: string, id: string, labels: seq<string>, index: nat)

  // ---------------------------------------------------------------------------------------------
  // Aliases
  // ---------------------------------------------------------------------------------------------

  /** The first occurrences of the values, in order. */
  function Unique(values: seq<string>): (unique: seq<string>)
    ensures NoDup(unique) && forall v :: v in unique <==> v in values
  {
    if values == [] then []
    else
      var init, last := values[..|values| - 1], values[|values| - 1];
      assert values == init + [last];
      if last in init then Unique(init) else Unique(init) + [last]
  }

  /** The aliases of a model: its values, or its name if it has none. */
  function AliasesOf(m: Model): (aliases: seq<string>)
    ensures aliases != [] && NoDup(aliases)
  {
    if m.values == [] then [m.name]
    else
      assert m.values[0] in m.values;
      Unique(m.values)
  }

  /** Returns the aliases of a model, and the values that it drops because they repeat. */
  method ExtractModelAliases(m: Model) returns (aliases: seq<string>, dupes: seq<string>)
    ensures aliases == AliasesOf(m)
    ensures NoDup(dupes) &&
            forall v :: v in dupes <==> exists i, j :: 0 <= i < j < |m.values| && m.values[i] == m.values[j] == v
  {
    if m.values == [] {
      return [m.name], [];
    }
    aliases, dupes := [], [];
    for i := 0 to |m.values|
      invariant aliases == Unique(m.values[..i])
      invariant NoDup(dupes) &&
                forall v :: v in dupes <==> exists k, j :: 0 <= k < j < i && m.values[k] == m.values[j] == v
    {
      assert m.values[..i + 1][..i] == m.values[..i];
      if m.values[i] in aliases {
        if m.values[i] !in dupes {
          dupes := dupes + [m.values[i]];
        }
      } else {
        aliases := aliases + [m.values[i]];
      }
    }
    TakeAll(m.values);
  }

  // ---------------------------------------------------------------------------------------------
  // What writing rows has to give
  // ---------------------------------------------------------------------------------------------

  ghost predicate HasRow(emitted: seq<AIModel>, name: string) {
    exists i :: 0 <= i < |emitted| && emitted[i].name == name
  }

  /** No two rows have the same name. */
  ghost predicate UniqueNames(emitted: seq<AIModel>) {
    forall i, j :: 0 <= i < j < |emitted| ==> emitted[i].name != emitted[j].name
  }

  /** The map of the pass finds exactly the emitted rows. */
  ghost predicate Agree(rows: map<string, Row>, emitted: seq<AIModel>) {
    (forall a :: a in rows ==>
        rows[a].index < |emitted| && emitted[rows[a].index].name == a && emitted[rows[a].index].id == rows[a].id) &&
    (forall i :: 0 <= i < |emitted| ==> emitted[i].name in rows && rows[emitted[i].name].index == i)
  }

  /** The aliases without a row. */
  ghost function Owned(emitted: seq<AIModel>, aliases: seq<string>): seq<string> {
    if aliases == [] then []
    else
      var init, last := Owned(emitted, aliases[..|aliases| - 1]), aliases[|aliases| - 1];
      if HasRow(emitted, last) then init else init + [last]
  }

  /** The row for the k-th alias that a model owns: the first one gets the ID, and several are marked as a group. */
  function NewRow(m: Model, owned: seq<string>, k: nat): AIModel
    requires k < |owned|
  {
    AIModel(if k == 0 then m.id else "", owned[k], m.labels, if |owned| > 1 then Some(owned[0]) else None)
  }

  function NewRows(m: Model, owned: seq<string>, n: nat): (rows: seq<AIModel>)
    requires n <= |owned|
    ensures |rows| == n
  {
    seq(n, k requires 0 <= k < n => NewRow(m, owned, k))
  }

  ghost function RowIndex(emitted: seq<AIModel>, name: string): (i: nat)
    requires HasRow(emitted, name)
    ensures i < |emitted| && emitted[i].name == name
  {
    var i :| 0 <= i < |emitted| && emitted[i].name == name;
    i
  }

  /** Where a model whose aliases all have rows puts its ID: at the first of these rows that has none. */
  ghost function SharedPlace(emitted: seq<AIModel>, aliases: seq<string>): (place: Option<nat>)
    requires forall a :: a in aliases ==> HasRow(emitted, a)
    ensures place.Some? ==> place.value < |emitted| && emitted[place.value].id == ""
  {
    if aliases == [] then None
    else
      assert aliases[0] in aliases;
      var i := RowIndex(emitted, aliases[0]);
      if emitted[i].id == "" then Some(i) else SharedPlace(emitted, aliases[1..])
  }

  /** Where a model puts its ID, if it has one and finds a place. */
  ghost function Place(emitted: seq<AIModel>, m: Model): (place: Option<nat>)
  {
    var aliases := AliasesOf(m);
    OwnedMeans(emitted, aliases);
    if m.id == "" then None
    else if Owned(emitted, aliases) != [] then Some(|emitted|)
    else SharedPlace(emitted, aliases)
  }

  /** The rows after a model is written. */
  ghost function Written(emitted: seq<AIModel>, m: Model): seq<AIModel>
  {
    var owned := Owned(emitted, AliasesOf(m));
    var place := Place(emitted, m);
    if owned != [] then emitted + NewRows(m, owned, |owned|)
    else if place.Some? then emitted[place.value := emitted[place.value].(id := m.id)]
    else emitted
  }

  lemma {:induction false} OwnedMeans(emitted: seq<AIModel>, aliases: seq<string>)
    ensures forall a :: a in Owned(emitted, aliases) <==> a in aliases && !HasRow(emitted, a)
    ensures NoDup(aliases) ==> NoDup(Owned(emitted, aliases))
  {
    if aliases != [] {
      var init, last := aliases[..|aliases| - 1], aliases[|aliases| - 1];
      OwnedMeans(emitted, init);
      assert aliases == init + [last];
    }
  }

  // ---------------------------------------------------------------------------------------------
  // Writing rows
  // ---------------------------------------------------------------------------------------------

  class ModelPass {
    var rows: map<string, Row>
    var emitted: seq<AIModel>
    /** The plugins with an ai_models scope; their order among the other plugins is not kept here. */
    var scoped: seq<ScopedPlugin>

    ghost predicate Valid()
      reads this`rows, this`emitted
    {
      Agree(rows, emitted)
    }

    constructor ()
      ensures Valid() && emitted == [] && scoped == []
    {
      rows, emitted, scoped := map[], [], [];
    }

    method OwnedAliases(aliases: seq<string>) returns (owned: seq<string>)
      requires Valid()
      ensures owned == Owned(emitted, aliases)
    {
      owned := [];
      for i := 0 to |aliases|
        invariant owned == Owned(emitted, aliases[..i])
      {
        OwnedNext(emitted, aliases, i);
        if aliases[i] !in rows {
          owned := owned + [aliases[i]];
        }
      }
      TakeAll(aliases);
    }

    /** Adds the row for the n-th alias that the model owns. */
    method AddRow(m: Model, alias: string, owned: seq<string>, group: Option<string>, ghost n: nat)
      requires Valid() && alias !in rows && NoDup(owned) && n < |owned| && alias == owned[n]
      requires group == if |owned| > 1 then Some(owned[0]) else None
      modifies this`rows, this`emitted
      ensures Valid() && emitted == old(emitted) + [NewRow(m, owned, n)]
    {
      var row := Row(m.name, if alias == owned[0] then m.id else "", m.labels, |emitted|);
      rows := rows[alias := row];
      emitted := emitted + [AIModel(row.id, alias, m.labels, group)];
    }

    /** Adds the rows for the aliases that the model owns. The first owned alias is read only if there is one. */
    method AddRows(m: Model, aliases: seq<string>, owned: seq<string>)
      requires Valid() && NoDup(aliases) && owned == Owned(emitted, aliases)
      modifies this`rows, this`emitted
      ensures Valid() && emitted == old(emitted) + NewRows(m, owned, |owned|)
    {
      ghost var before, n := emitted, 0;
      var group := if |owned| > 1 then Some(owned[0]) else None;
      OwnedMeans(before, aliases);
      for i := 0 to |aliases|
        invariant Valid() && n <= |owned| && owned[..n] == Owned(before, aliases[..i])
        invariant emitted == before + NewRows(m, owned, n)
      {
        NextRow(before, m, aliases, owned, i, n, emitted);
        InRows(rows, emitted, aliases[i]);
        if aliases[i] !in rows {
          AddRow(m, aliases[i], owned, group, n);
          n := n + 1;
        }
      }
      TakeAll(aliases);
    }

    /** Writes one row for each alias of a model that has none yet, and places the ID of the model. */
    method WriteAIModels(m: Model, aliases: seq<string>)
      requires Valid() && aliases == AliasesOf(m)
      modifies this`rows, this`emitted
      ensures Valid() && emitted == Written(old(emitted), m)
    {
      ghost var before := emitted;
      OwnedMeans(before, aliases);
      var owned := OwnedAliases(aliases);
      AddRows(m, aliases, owned);
      assert owned == [] ==> emitted == before;
      assert forall a :: a in aliases && !HasRow(before, a) ==> a in owned;
      if m.id != "" && |owned| == 0 {
        PlaceSharedID(m, aliases);
      }
    }

    /** Puts one copy of each plugin of a model on each of its routes for each of its aliases. */
    method AddScoped(m: Model, aliases: seq<string>)
      requires aliases == AliasesOf(m)
      modifies this`scoped
      ensures scoped == old(scoped) + ScopedOf(m)
    {
      for i := 0 to |m.routes|
        invariant scoped == old(scoped) + OnRoutes(m, m.routes[..i])
      {
        assert m.routes[..i + 1][..i] == m.routes[..i];
        if m.scoped && !m.routes[i].websocket {
          AddOnRoute(m, m.routes[i], aliases);
        }
      }
      TakeAll(m.routes);
    }

    method AddOnRoute(m: Model, r: Route, aliases: seq<string>)
      requires aliases == AliasesOf(m) && m.scoped && !r.websocket
      modifies this`scoped
      ensures scoped == old(scoped) + OnRoute(m, r, m.plugins)
    {
      for j := 0 to |m.plugins|
        invariant scoped == old(scoped) + OnRoute(m, r, m.plugins[..j])
      {
        assert m.plugins[..j + 1][..j] == m.plugins[..j];
        ghost var before := scoped;
        for a := 0 to |aliases|
          invariant scoped == before + CopiesFor(m.plugins[j], r, aliases[..a])
        {
          scoped := scoped + [ScopedPlugin(m.plugins[j], r.name, aliases[a])];
        }
        TakeAll(aliases);
      }
      TakeAll(m.plugins);
    }

    /** Writes the rows of all models of a pass, and the plugins that are scoped to them. */
    method WriteAll(ms: seq<Model>) returns (ghost hist: seq<seq<AIModel>>)
      requires Valid() && emitted == [] && scoped == []
      modifies this
      ensures Valid() && Pass(ms, hist) && emitted == hist[|ms|]
      ensures scoped == ScopedOfAll(ms)
    {
      hist := [[]];
      for i := 0 to |ms|
        invariant Valid() && Pass(ms[..i], hist) && emitted == hist[i]
        invariant scoped == ScopedOfAll(ms[..i])
      {
        var aliases, dupes := ExtractModelAliases(ms[i]);
        WriteAIModels(ms[i], aliases);
        AddScoped(ms[i], aliases);
        PassGrows(ms, hist, i, emitted);
        hist := hist + [emitted];
        assert ms[..i + 1][..i] == ms[..i];
      }
      TakeAll(ms);
    }

    /** Gives the ID of a model to the first of its rows that has none. */
    method PlaceSharedID(m: Model, aliases: seq<string>)
      requires Valid() && forall a :: a in aliases ==> HasRow(emitted, a)
      modifies this`rows, this`emitted
      ensures Valid()
      ensures var place := SharedPlace(old(emitted), aliases);
              emitted == if place.Some? then old(emitted)[place.value := old(emitted)[place.value].(id := m.id)]
                  else old(emitted)
    {
      for i := 0 to |aliases|
        invariant Valid() && emitted == old(emitted)
        invariant SharedPlace(emitted, aliases) == SharedPlace(emitted, aliases[i..])
      {
        var alias := aliases[i];
        assert alias in aliases;
        var row := rows[alias];
        if row.id == "" {
          rows := rows[alias := row.(id := m.id)];
          emitted := emitted[row.index := emitted[row.index].(id := m.id)];
          return;
        }
      }
    }
  }

  /** The copies of a plugin on a route, one for each alias. */
  function CopiesFor(plugin: string, r: Route, aliases: seq<string>): (copies: seq<ScopedPlugin>)
    ensures |copies| == |aliases|
  {
    seq(|aliases|, i requires 0 <= i < |aliases| => ScopedPlugin(plugin, r.name, aliases[i]))
  }

  function OnRoute(m: Model, r: Route, plugins: seq<string>): seq<ScopedPlugin> {
    if plugins == [] || !m.scoped || r.websocket then []
    else OnRoute(m, r, plugins[..|plugins| - 1]) + CopiesFor(plugins[|plugins| - 1], r, AliasesOf(m))
  }

  function OnRoutes(m: Model, routes: seq<Route>): seq<ScopedPlugin> {
    if routes == [] then [] else OnRoutes(m, routes[..|routes| - 1]) + OnRoute(m, routes[|routes| - 1], m.plugins)
  }

  /** The plugins of a model that are scoped to its rows. */
  function ScopedOf(m: Model): seq<ScopedPlugin> {
    OnRoutes(m, m.routes)
  }

  function ScopedOfAll(ms: seq<Model>): seq<ScopedPlugin> {
    if ms == [] then [] else ScopedOfAll(ms[..|ms| - 1]) + ScopedOf(ms[|ms| - 1])
  }

  lemma PassGrows(ms: seq<Model>, hist: seq<seq<AIModel>>, i: nat, after: seq<AIModel>)
    requires i < |ms| && Pass(ms[..i], hist) && after == Written(hist[i], ms[i])
    ensures Pass(ms[..i + 1], hist + [after])
  {
    var ms', hist' := ms[..i + 1], hist + [after];
    forall k: nat | k < |ms'| ensures Next(ms', hist', k) {
      if k < i {
        assert Next(ms[..i], hist, k);
      }
    }
  }

  lemma OwnedNext(emitted: seq<AIModel>, aliases: seq<string>, i: nat)
    requires i < |aliases|
    ensures Owned(emitted, aliases[..i + 1]) == Owned(emitted, aliases[..i]) +
            if HasRow(emitted, aliases[i]) then [] else [aliases[i]]
  {
    assert aliases[..i + 1][..i] == aliases[..i];
  }

  /** Before alias i is looked at, it has a row exactly if it had one at the start. */
  lemma RowsSoFar(before: seq<AIModel>, m: Model, aliases: seq<string>, owned: seq<string>, i: nat, n: nat,
      emitted: seq<AIModel>)
    requires i < |aliases| && NoDup(aliases) && n <= |owned| && owned[..n] == Owned(before, aliases[..i])
    requires emitted == before + NewRows(m, owned, n)
    ensures HasRow(emitted, aliases[i]) <==> HasRow(before, aliases[i])
  {
    OwnedMeans(before, aliases[..i]);
    forall k | 0 <= k < n ensures NewRows(m, owned, n)[k].name != aliases[i] {
      assert owned[..n][k] in Owned(before, aliases[..i]);
    }
    if HasRow(before, aliases[i]) {
      var k :| 0 <= k < |before| && before[k].name == aliases[i];
      assert emitted[k].name == aliases[i];
    }
  }

  lemma InRows(rows: map<string, Row>, emitted: seq<AIModel>, alias: string)
    requires Agree(rows, emitted)
    ensures alias in rows <==> HasRow(emitted, alias)
  {
  }

  lemma NextRow(before: seq<AIModel>, m: Model, aliases: seq<string>, owned: seq<string>, i: nat, n: nat,
      emitted: seq<AIModel>)
    requires i < |aliases| && NoDup(aliases) && n <= |owned| && owned[..n] == Owned(before, aliases[..i])
    requires owned == Owned(before, aliases) && emitted == before + NewRows(m, owned, n)
    ensures HasRow(emitted, aliases[i]) <==> HasRow(before, aliases[i])
    ensures if HasRow(before, aliases[i]) then owned[..n] == Owned(before, aliases[..i + 1])
            else n < |owned| && owned[n] == aliases[i] && owned[..n + 1] == Owned(before, aliases[..i + 1]) &&
                 emitted + [NewRow(m, owned, n)] == before + NewRows(m, owned, n + 1)
  {
    OwnedNext(before, aliases, i);
    OwnedPrefix(before, aliases, i + 1);
    RowsSoFar(before, m, aliases, owned, i, n, emitted);
    if !HasRow(before, aliases[i]) {
      var next := owned[..n] + [aliases[i]];
      assert next <= owned && |next| == n + 1 && next[n] == aliases[i];
      assert owned[n] == next[n];
      assert NewRows(m, owned, n + 1) == NewRows(m, owned, n) + [NewRow(m, owned, n)];
    }
  }

  lemma {:induction false} OwnedPrefix(emitted: seq<AIModel>, aliases: seq<string>, n: nat)
    requires n <= |aliases|
    ensures Owned(emitted, aliases[..n]) <= Owned(emitted, aliases)
    decreases |aliases| - n
  {
    if n < |aliases| {
      OwnedPrefix(emitted, aliases, n + 1);
      assert aliases[..n + 1][..n] == aliases[..n];
    } else {
      TakeAll(aliases);
    }
  }

  // ---------------------------------------------------------------------------------------------
  // Rows over a whole pass
  // ---------------------------------------------------------------------------------------------

  /** hist holds the rows before the first model, and after each model. */
  ghost predicate Pass(ms: seq<Model>, hist: seq<seq<AIModel>>) {
    |hist| == |ms| + 1 && hist[0] == [] && forall k :: 0 <= k < |ms| ==> Next(ms, hist, k)
  }

  ghost predicate Next(ms: seq<Model>, hist: seq<seq<AIModel>>, k: nat)
    requires k < |ms| && |hist| == |ms| + 1
  {
    hist[k + 1] == Written(hist[k], ms[k])
  }

  lemma WrittenNameAt(emitted: seq<AIModel>, m: Model)
    ensures |Written(emitted, m)| == |emitted| + |Owned(emitted, AliasesOf(m))|
    ensures forall i :: 0 <= i < |emitted| ==> Written(emitted, m)[i].name == emitted[i].name
    ensures forall i :: |emitted| <= i < |Written(emitted, m)| ==>
              Written(emitted, m)[i].name == Owned(emitted, AliasesOf(m))[i - |emitted|]
  {
    OwnedMeans(emitted, AliasesOf(m));
  }

  /** The rows after have the names before, and behind them the owned ones. */
  ghost predicate Named(before: seq<AIModel>, owned: seq<string>, after: seq<AIModel>) {
    |after| == |before| + |owned| &&
    (forall i :: 0 <= i < |before| ==> after[i].name == before[i].name) &&
    (forall i :: |before| <= i < |after| ==> after[i].name == owned[i - |before|])
  }

  lemma NamedUnique(before: seq<AIModel>, owned: seq<string>, after: seq<AIModel>)
    requires Named(before, owned, after) && UniqueNames(before) && NoDup(owned)
    requires forall a :: a in owned ==> !HasRow(before, a)
    ensures UniqueNames(after)
  {
    forall i, j | 0 <= i < j < |after| ensures after[i].name != after[j].name {
      if i < |before| <= j {
        assert owned[j - |before|] in owned;
        assert before[i].name == after[i].name;
      }
    }
  }

  lemma NamedHas(before: seq<AIModel>, owned: seq<string>, after: seq<AIModel>, a: string)
    requires Named(before, owned, after)
    ensures HasRow(after, a) <==> HasRow(before, a) || a in owned
  {
    if HasRow(before, a) {
      var i :| 0 <= i < |before| && before[i].name == a;
      assert after[i].name == a;
    }
    if a in owned {
      var k :| 0 <= k < |owned| && owned[k] == a;
      assert after[|before| + k].name == a;
    }
    if HasRow(after, a) {
      var i :| 0 <= i < |after| && after[i].name == a;
      if i < |before| {
        assert before[i].name == a;
      } else {
        assert owned[i - |before|] == a;
      }
    }
  }

  /** Writing a model adds exactly the rows of its aliases that were missing, and keeps the names unique. */
  lemma WrittenNames(emitted: seq<AIModel>, m: Model, a: string)
    requires UniqueNames(emitted)
    ensures UniqueNames(Written(emitted, m))
    ensures HasRow(Written(emitted, m), a) <==> HasRow(emitted, a) || a in AliasesOf(m)
  {
    var owned, after := Owned(emitted, AliasesOf(m)), Written(emitted, m);
    OwnedMeans(emitted, AliasesOf(m));
    WrittenNameAt(emitted, m);
    NamedUnique(emitted, owned, after);
    NamedHas(emitted, owned, after, a);
  }

  /** One step of a pass: of the rows there are it changes at most one ID, at place, from none to the given one. */
  ghost predicate Keeps(before: seq<AIModel>, after: seq<AIModel>, place: Option<nat>, id: string) {
    |before| <= |after| && (place.Some? ==> id != "" && place.value < |after| && after[place.value].id == id) &&
    (forall i :: 0 <= i < |before| ==> after[i].(id := "") == before[i].(id := "")) &&
    (forall i :: 0 <= i < |before| ==> if place == Some(i) then before[i].id == "" else after[i].id == before[i].id) &&
    (forall i :: |before| <= i < |after| && place != Some(i) ==> after[i].id == "")
  }

  lemma WrittenKeeps(emitted: seq<AIModel>, m: Model)
    ensures Keeps(emitted, Written(emitted, m), Place(emitted, m), m.id)
  {
    OwnedMeans(emitted, AliasesOf(m));
  }

  /** At the end of a pass the row names are unique, and the names are exactly the aliases of the models. */
  lemma {:induction false} RowsAreAliases(ms: seq<Model>, hist: seq<seq<AIModel>>, n: nat, a: string)
    requires Pass(ms, hist) && n <= |ms|
    ensures UniqueNames(hist[n])
    ensures HasRow(hist[n], a) <==> InSome(ms, n, a)
  {
    if n > 0 {
      RowsAreAliases(ms, hist, n - 1, a);
      StepNames(ms, hist, n - 1, a);
      InSomeNext(ms, n - 1, n, a);
    }
  }

  lemma StepNames(ms: seq<Model>, hist: seq<seq<AIModel>>, k: nat, a: string)
    requires Pass(ms, hist) && k < |ms| && UniqueNames(hist[k])
    ensures UniqueNames(hist[k + 1])
    ensures HasRow(hist[k + 1], a) <==> HasRow(hist[k], a) || a in AliasesOf(ms[k])
  {
    assert Next(ms, hist, k);
    WrittenNames(hist[k], ms[k], a);
  }

  lemma InSomeNext(ms: seq<Model>, k: nat, n: nat, a: string)
    requires n == k + 1 <= |ms|
    ensures InSome(ms, n, a) <==> InSome(ms, k, a) || a in AliasesOf(ms[k])
  {
  }

  /** One of the first n models has the alias a. */
  ghost predicate InSome(ms: seq<Model>, n: nat, a: string)
    requires n <= |ms|
  {
    exists k :: 0 <= k < n && a in AliasesOf(ms[k])
  }

  // Plugins that refer to rows

  /** The model scopes a plugin of this name on this route to its row for the alias. */
  ghost predicate Scopes(m: Model, p: ScopedPlugin) {
    m.scoped && p.name in m.plugins && p.row in AliasesOf(m) &&
        exists r :: r in m.routes && r.name == p.route && !r.websocket
  }

  lemma {:induction false} OnRouteMeans(m: Model, r: Route, plugins: seq<string>, p: ScopedPlugin)
    ensures p in OnRoute(m, r, plugins) <==>
            m.scoped && !r.websocket && p.name in plugins && p.route == r.name && p.row in AliasesOf(m)
  {
    if plugins != [] && m.scoped && !r.websocket {
      var init, last := plugins[..|plugins| - 1], plugins[|plugins| - 1];
      assert plugins == init + [last];
      OnRouteMeans(m, r, init, p);
      var aliases, copies := AliasesOf(m), CopiesFor(last, r, AliasesOf(m));
      if p.row in aliases && p.name == last && p.route == r.name {
        var a :| 0 <= a < |aliases| && aliases[a] == p.row;
        assert copies[a] == p;
      }
    }
  }

  lemma {:induction false} OnRoutesMean(m: Model, routes: seq<Route>, p: ScopedPlugin)
    ensures p in OnRoutes(m, routes) <==> exists r :: r in routes && p in OnRoute(m, r, m.plugins)
  {
    if routes != [] {
      var init, last := routes[..|routes| - 1], routes[|routes| - 1];
      assert routes == init + [last];
      OnRoutesMean(m, init, p);
      assert last in routes && forall r :: r in routes <==> r in init || r == last;
      assert p in OnRoutes(m, routes) <==> p in OnRoutes(m, init) || p in OnRoute(m, last, m.plugins);
    }
  }

  lemma ScopedOfMeans(m: Model, p: ScopedPlugin)
    ensures p in ScopedOf(m) <==> Scopes(m, p)
  {
    OnRoutesMean(m, m.routes, p);
    forall r | r in m.routes
      ensures p in OnRoute(m, r, m.plugins) <==>
              m.scoped && !r.websocket && p.name in m.plugins && p.route == r.name && p.row in AliasesOf(m)
    {
      OnRouteMeans(m, r, m.plugins, p);
    }
  }

  lemma {:induction false} ScopedOfAllMeans(ms: seq<Model>, p: ScopedPlugin)
    ensures p in ScopedOfAll(ms) <==> exists m :: m in ms && Scopes(m, p)
  {
    if ms != [] {
      var init, last := ms[..|ms| - 1], ms[|ms| - 1];
      assert ms == init + [last];
      ScopedOfAllMeans(init, p);
      ScopedOfMeans(last, p);
    }
  }

  /** Each plugin with an ai_models scope names exactly one row at the end of the pass. */
  lemma ReferencesNameOneRow(ms: seq<Model>, hist: seq<seq<AIModel>>, p: ScopedPlugin) returns (i: nat)
    requires Pass(ms, hist) && p in ScopedOfAll(ms)
    ensures i < |hist[|ms|]| && hist[|ms|][i].name == p.row
    ensures forall j :: 0 <= j < |hist[|ms|]| && hist[|ms|][j].name == p.row ==> j == i
  {
    ScopedOfAllMeans(ms, p);
    var m :| m in ms && Scopes(m, p);
    var k :| 0 <= k < |ms| && ms[k] == m;
    RowsAreAliases(ms, hist, |ms|, p.row);
    assert InSome(ms, |ms|, p.row);
    i :| 0 <= i < |hist[|ms|]| && hist[|ms|][i].name == p.row;
  }

  /** A row is named by a plugin exactly if some model with plugins has the alias and a route with a selector. */
  lemma RowReferencedExactly(ms: seq<Model>, a: string)
    ensures (exists p :: p in ScopedOfAll(ms) && p.row == a) <==>
            exists m, r :: m in ms && m.scoped && m.plugins != [] && a in AliasesOf(m) && r in m.routes && !r.websocket
  {
    if p :| p in ScopedOfAll(ms) && p.row == a {
      ScopedOfAllMeans(ms, p);
      var m :| m in ms && Scopes(m, p);
      assert m.plugins != [];
    }
    if m, r :| m in ms && m.scoped && m.plugins != [] && a in AliasesOf(m) && r in m.routes && !r.websocket {
      var p := ScopedPlugin(m.plugins[0], r.name, a);
      ScopedOfAllMeans(ms, p);
      assert Scopes(m, p);
    }
  }

  /** The rows after each model of a pass, with the places of the IDs, and the IDs. */
  datatype Step = Step(rows: seq<AIModel>, place: Option<nat>, id: string)

  ghost predicate Linked(a: Step, b: Step) {
    Keeps(a.rows, b.rows, a.place, a.id)
  }

  /** Each step leads from its rows to those of the next step. */
  ghost predicate Run(steps: seq<Step>) {
    forall k {:trigger steps[k]} :: 0 <= k < |steps| - 1 ==> Linked(steps[k], steps[k + 1])
  }

  lemma {:induction false} RunKeeps(steps: seq<Step>, k: nat, n: nat, i: nat)
    requires Run(steps) && k <= n < |steps| && i < |steps[k].rows|
    ensures i < |steps[n].rows| && steps[n].rows[i].(id := "") == steps[k].rows[i].(id := "")
    ensures steps[k].rows[i].id != "" ==> steps[n].rows[i] == steps[k].rows[i]
    decreases n
  {
    if k < n {
      RunKeeps(steps, k, n - 1, i);
      assert Linked(steps[n - 1], steps[n]);
    }
  }

  lemma RunPlaces(steps: seq<Step>, j: nat, n: nat)
    requires Run(steps) && j < n < |steps| && steps[j].place.Some?
    ensures steps[j].place.value < |steps[n].rows| && steps[n].rows[steps[j].place.value].id == steps[j].id != ""
  {
    assert Linked(steps[j], steps[j + 1]);
    RunKeeps(steps, j + 1, n, steps[j].place.value);
  }

  lemma {:induction false} RunPlaced(steps: seq<Step>, n: nat, i: nat)
    requires Run(steps) && steps != [] && steps[0].rows == [] && n < |steps| && i < |steps[n].rows|
    ensures steps[n].rows[i].id != "" <==> PlacedBefore(steps, n, i)
  {
    if n > 0 {
      assert Linked(steps[n - 1], steps[n]);
      if i < |steps[n - 1].rows| {
        RunPlaced(steps, n - 1, i);
      } else {
        NotYetPlaced(steps, n - 1, i);
      }
      assert PlacedBefore(steps, n, i) <==> PlacedBefore(steps, n - 1, i) || steps[n - 1].place == Some(i);
    }
  }

  /** One of the first n steps placed an ID at row i. */
  ghost predicate PlacedBefore(steps: seq<Step>, n: nat, i: nat)
    requires n <= |steps|
  {
    exists j :: 0 <= j < n && steps[j].place == Some(i)
  }

  lemma NotYetPlaced(steps: seq<Step>, n: nat, i: nat)
    requires Run(steps) && n < |steps| && i >= |steps[n].rows|
    ensures !PlacedBefore(steps, n, i)
  {
    forall j | 0 <= j < n ensures steps[j].place != Some(i) {
      if steps[j].place.Some? {
        RunPlaces(steps, j, n);
      }
    }
  }

  ghost function StepOf(ms: seq<Model>, hist: seq<seq<AIModel>>, k: nat): Step
    requires |hist| == |ms| + 1 && k <= |ms|
  {
    if k < |ms| then Step(hist[k], Place(hist[k], ms[k]), ms[k].id) else Step(hist[k], None, "")
  }

  /** The steps of a pass over models. */
  ghost function StepsOf(ms: seq<Model>, hist: seq<seq<AIModel>>): (steps: seq<Step>)
    requires |hist| == |ms| + 1
    ensures |steps| == |ms| + 1 && forall k :: 0 <= k <= |ms| ==> steps[k] == StepOf(ms, hist, k)
  {
    seq(|ms| + 1, k requires 0 <= k <= |ms| => StepOf(ms, hist, k))
  }

  lemma PassRuns(ms: seq<Model>, hist: seq<seq<AIModel>>)
    requires Pass(ms, hist)
    ensures Run(StepsOf(ms, hist)) && StepsOf(ms, hist)[0].rows == []
  {
    forall k | 0 <= k < |ms| ensures Linked(StepOf(ms, hist, k), StepOf(ms, hist, k + 1)) {
      StepKeeps(ms, hist, k);
    }
  }

  lemma StepKeeps(ms: seq<Model>, hist: seq<seq<AIModel>>, k: nat)
    requires Pass(ms, hist) && k < |ms|
    ensures Keeps(hist[k], hist[k + 1], Place(hist[k], ms[k]), ms[k].id)
  {
    assert Next(ms, hist, k);
    WrittenKeeps(hist[k], ms[k]);
  }

  /** A row keeps its place, its name and its tags, and its ID once it is set. */
  lemma RowsLast(ms: seq<Model>, hist: seq<seq<AIModel>>, k: nat, n: nat, i: nat)
    requires Pass(ms, hist) && k <= n <= |ms| && i < |hist[k]|
    ensures i < |hist[n]| && hist[n][i].(id := "") == hist[k][i].(id := "")
    ensures hist[k][i].id != "" ==> hist[n][i] == hist[k][i]
  {
    PassRuns(ms, hist);
    RunKeeps(StepsOf(ms, hist), k, n, i);
  }

  /** The ID of a model stays where the model placed it, and no later model places an ID there. */
  lemma IDsAreKept(ms: seq<Model>, hist: seq<seq<AIModel>>, j: nat, n: nat)
    requires Pass(ms, hist) && j < n <= |ms| && Place(hist[j], ms[j]).Some?
    ensures Place(hist[j], ms[j]).value < |hist[n]|
    ensures hist[n][Place(hist[j], ms[j]).value].id == ms[j].id != ""
    ensures n < |ms| ==> Place(hist[n], ms[n]) != Place(hist[j], ms[j])
  {
    PassRuns(ms, hist);
    RunPlaces(StepsOf(ms, hist), j, n);
    if n < |ms| {
      assert Next(ms, hist, n);
      WrittenKeeps(hist[n], ms[n]);
    }
  }

  /** Every ID in the rows was placed there by a model. */
  lemma IDsArePlaced(ms: seq<Model>, hist: seq<seq<AIModel>>, n: nat, i: nat)
    requires Pass(ms, hist) && n <= |ms| && i < |hist[n]|
    ensures hist[n][i].id != "" <==> exists j :: 0 <= j < n && Place(hist[j], ms[j]) == Some(i)
  {
    PassRuns(ms, hist);
    var steps := StepsOf(ms, hist);
    RunPlaced(steps, n, i);
    assert forall j :: 0 <= j < n ==> steps[j].place == Place(hist[j], ms[j]);
  }

  /** A model finds no place for its ID exactly if other models have set the IDs of all its rows. */
  lemma PlaceExact(emitted: seq<AIModel>, m: Model)
    requires UniqueNames(emitted) && m.id != ""
    ensures Place(emitted, m).None? <==>
            forall a :: a in AliasesOf(m) ==> HasRow(emitted, a) && emitted[RowIndex(emitted, a)].id != ""
  {
    OwnedMeans(emitted, AliasesOf(m));
    if Owned(emitted, AliasesOf(m)) == [] {
      SharedPlaceExact(emitted, AliasesOf(m));
    } else {
      assert Owned(emitted, AliasesOf(m))[0] in Owned(emitted, AliasesOf(m));
    }
  }

  lemma {:induction false} SharedPlaceExact(emitted: seq<AIModel>, aliases: seq<string>)
    requires forall a :: a in aliases ==> HasRow(emitted, a)
    ensures SharedPlace(emitted, aliases).None? <==> forall a :: a in aliases ==> emitted[RowIndex(emitted, a)].id != ""
  {
    if aliases != [] {
      assert aliases[0] in aliases;
      SharedPlaceExact(emitted, aliases[1..]);
      assert forall a :: a in aliases <==> a == aliases[0] || a in aliases[1..];
    }
  }

  // ---------------------------------------------------------------------------------------------
  // The way back
  // ---------------------------------------------------------------------------------------------

  /** The markers that the reverter reads from the rows. */
  ghost function MarkersOf(emitted: seq<AIModel>): AliasMerge.Markers {
    map a | a in (set i | 0 <= i < |emitted| :: emitted[i].name) ::
      assert HasRow(emitted, a);
      var group := emitted[RowIndex(emitted, a)].group;
      if group.Some? then group.value else ""
  }

  /** On a route stand the copies for the aliases of a model, among plugins for other aliases, in any order. */
  ghost predicate CopiesAmong(aliases: seq<string>, config: string, rests: seq<string>, ps: seq<AliasMerge.Plugin>) {
    (forall a :: a in aliases ==> AliasMerge.Copy(a, config, rests) in ps) &&
    (forall i :: 0 <= i < |ps| && ps[i].model.Some? && ps[i].model.value in aliases ==>
       AliasMerge.IsCopy(aliases, config, rests, ps[i])) &&
    (forall i, j :: 0 <= i < j < |ps| && AliasMerge.IsCopy(aliases, config, rests, ps[i]) ==> ps[i] != ps[j])
  }

  /**
    A model with several aliases that makes all its rows marks them with its first alias, whatever
    the models after it write, and no row of another model gets that mark. Its plugin copies are then
    the fan-out that the reverter merges, whatever other plugins stand on the route.
   */
  lemma FreshModelFansOut(ms: seq<Model>, hist: seq<seq<AIModel>>, k: nat, config: string, rests: seq<string>,
      ps: seq<AliasMerge.Plugin>)
    requires Pass(ms, hist) && k < |ms| && |AliasesOf(ms[k])| > 1 && AliasesOf(ms[k])[0] != ""
    requires forall a :: a in AliasesOf(ms[k]) ==> !HasRow(hist[k], a)
    requires CopiesAmong(AliasesOf(ms[k]), config, rests, ps)
    ensures AliasMerge.FanOut(MarkersOf(hist[|ms|]), AliasesOf(ms[k]), config, rests, ps)
  {
    var aliases, emitted := AliasesOf(ms[k]), hist[|ms|];
    forall a | a in aliases ensures a in MarkersOf(emitted) && MarkersOf(emitted)[a] == aliases[0] {
      var i := FreshRow(ms, hist, k, a);
      RowsAreAliases(ms, hist, |ms|, a);
      MarkerAt(emitted, i, aliases[0]);
    }
    forall a | a in MarkersOf(emitted) && MarkersOf(emitted)[a] == aliases[0] ensures a in aliases {
      assert HasRow(emitted, a);
      OnlyOwnRowsMarked(ms, hist, k, RowIndex(emitted, a));
    }
    forall i | 0 <= i < |ps| && AliasMerge.KeyOf(MarkersOf(emitted), ps[i]).Some? &&
               AliasMerge.KeyOf(MarkersOf(emitted), ps[i]).value.group == aliases[0]
      ensures ps[i].model.Some? && ps[i].model.value in aliases
    {
    }
  }

  /** A marked row was made by a model that has its name as an alias, and whose first new row has the marker as name. */
  lemma {:induction false} MarkedByMaker(ms: seq<Model>, hist: seq<seq<AIModel>>, n: nat, i: nat) returns (j: nat)
    requires Pass(ms, hist) && n <= |ms| && i < |hist[n]| && hist[n][i].group.Some?
    ensures j < n && |hist[j]| <= i < |hist[j + 1]| && hist[n][i].name in AliasesOf(ms[j])
    ensures |hist[j]| < |hist[n]| && hist[n][|hist[j]|].name == hist[n][i].group.value
    decreases n
  {
    j := n - 1;
    StepKeeps(ms, hist, n - 1);
    if i < |hist[n - 1]| {
      j := MarkedByMaker(ms, hist, n - 1, i);
    } else {
      assert Next(ms, hist, n - 1);
      NewRowAt(hist[n - 1], ms[n - 1], i);
    }
  }

  lemma NewRowAt(emitted: seq<AIModel>, m: Model, i: nat)
    requires |emitted| <= i < |Written(emitted, m)|
    ensures Written(emitted, m)[i].name in AliasesOf(m)
    ensures Written(emitted, m)[i].group.Some? ==>
            Written(emitted, m)[|emitted|].name == Written(emitted, m)[i].group.value
  {
    var owned := Owned(emitted, AliasesOf(m));
    OwnedMeans(emitted, AliasesOf(m));
    assert Written(emitted, m)[i] == NewRow(m, owned, i - |emitted|);
    assert Written(emitted, m)[|emitted|] == NewRow(m, owned, 0);
    assert owned[i - |emitted|] in owned;
  }

  lemma RowsGrow(ms: seq<Model>, hist: seq<seq<AIModel>>, j: nat, k: nat)
    requires Pass(ms, hist) && j <= k <= |ms|
    ensures |hist[j]| <= |hist[k]|
    decreases k
  {
    if j < k {
      RowsGrow(ms, hist, j, k - 1);
      StepKeeps(ms, hist, k - 1);
    }
  }

  lemma FirstRow(ms: seq<Model>, hist: seq<seq<AIModel>>, k: nat)
    requires Pass(ms, hist) && k < |ms| && forall a :: a in AliasesOf(ms[k]) ==> !HasRow(hist[k], a)
    ensures |hist[k]| < |hist[k + 1]| && |hist[k]| < |hist[|ms|]|
    ensures hist[|ms|][|hist[k]|].name == AliasesOf(ms[k])[0]
  {
    FreshStep(ms, hist, k, 0);
    RowsLast(ms, hist, k + 1, |ms|, |hist[k]|);
  }

  lemma SameName(emitted: seq<AIModel>, i: nat, j: nat)
    requires UniqueNames(emitted) && i < |emitted| && j < |emitted| && emitted[i].name == emitted[j].name
    ensures i == j
  {
  }

  /** Only rows of the model itself have its first alias as marker. */
  lemma OnlyOwnRowsMarked(ms: seq<Model>, hist: seq<seq<AIModel>>, k: nat, i: nat)
    requires Pass(ms, hist) && k < |ms|
    requires forall a :: a in AliasesOf(ms[k]) ==> !HasRow(hist[k], a)
    requires i < |hist[|ms|]| && hist[|ms|][i].group == Some(AliasesOf(ms[k])[0])
    ensures hist[|ms|][i].name in AliasesOf(ms[k])
  {
    var first := AliasesOf(ms[k])[0];
    FirstRow(ms, hist, k);
    RowsAreAliases(ms, hist, |ms|, first);
    var j := MarkedByMaker(ms, hist, |ms|, i);
    SameName(hist[|ms|], |hist[j]|, |hist[k]|);
    SameMaker(ms, hist, j, k);
  }

  lemma SameMaker(ms: seq<Model>, hist: seq<seq<AIModel>>, j: nat, k: nat)
    requires Pass(ms, hist) && j < |ms| && k < |ms| && |hist[j]| == |hist[k]|
    requires |hist[j]| < |hist[j + 1]| && |hist[k]| < |hist[k + 1]|
    ensures j == k
  {
    if j < k {
      RowsGrow(ms, hist, j + 1, k);
    } else if k < j {
      RowsGrow(ms, hist, k + 1, j);
    }
  }

  /** The row that a model made for one of its aliases, with the marker it still has at the end. */
  lemma FreshRow(ms: seq<Model>, hist: seq<seq<AIModel>>, k: nat, a: string) returns (i: nat)
    requires Pass(ms, hist) && k < |ms| && |AliasesOf(ms[k])| > 1 && a in AliasesOf(ms[k])
    requires forall a :: a in AliasesOf(ms[k]) ==> !HasRow(hist[k], a)
    ensures i < |hist[|ms|]|
    ensures hist[|ms|][i].name == a && hist[|ms|][i].group == Some(AliasesOf(ms[k])[0])
  {
    var aliases, before := AliasesOf(ms[k]), hist[k];
    var p :| 0 <= p < |aliases| && aliases[p] == a;
    i := |before| + p;
    FreshStep(ms, hist, k, p);
    RowsLast(ms, hist, k + 1, |ms|, i);
  }

  lemma FreshStep(ms: seq<Model>, hist: seq<seq<AIModel>>, k: nat, p: nat)
    requires Pass(ms, hist) && k < |ms| && p < |AliasesOf(ms[k])| &&
             forall a :: a in AliasesOf(ms[k]) ==> !HasRow(hist[k], a)
    ensures |hist[k]| + p < |hist[k + 1]|
    ensures hist[k + 1][|hist[k]| + p] == NewRow(ms[k], AliasesOf(ms[k]), p)
  {
    assert Next(ms, hist, k);
    FreshRows(hist[k], ms[k], p);
  }

  lemma FreshRows(emitted: seq<AIModel>, m: Model, p: nat)
    requires p < |AliasesOf(m)| && forall a :: a in AliasesOf(m) ==> !HasRow(emitted, a)
    ensures |Written(emitted, m)| == |emitted| + |AliasesOf(m)|
    ensures Written(emitted, m)[|emitted| + p] == NewRow(m, AliasesOf(m), p)
  {
    AllOwned(emitted, AliasesOf(m));
  }

  lemma MarkerAt(emitted: seq<AIModel>, i: nat, group: string)
    requires UniqueNames(emitted) && i < |emitted| && emitted[i].group == Some(group)
    ensures emitted[i].name in MarkersOf(emitted) && MarkersOf(emitted)[emitted[i].name] == group
  {
    assert HasRow(emitted, emitted[i].name) && RowIndex(emitted, emitted[i].name) == i;
  }

  lemma {:induction false} AllOwned(emitted: seq<AIModel>, aliases: seq<string>)
    requires forall a :: a in aliases ==> !HasRow(emitted, a)
    ensures Owned(emitted, aliases) == aliases
  {
    if aliases != [] {
      var init, last := aliases[..|aliases| - 1], aliases[|aliases| - 1];
      assert aliases == init + [last];
      AllOwned(emitted, init);
    }
  }
}
