/**
  What lowering and lifting a vectordb block gives, key by key (internal/aimap/vectordb.go).
 */
module VectorDBShapes {
  import opened Sequences
  import opened VectorDB

  // ---------------------------------------------------------------------------------------------
  // The parts of a block
  // ---------------------------------------------------------------------------------------------

  function NameIn(src: Fields): string {
    if "strategy" in src && src["strategy"].Str? then src["strategy"].s else ""
  }

  predicate StaysOnTop(key: string) {
    key in {"strategy", "dimensions", "distance_metric", "threshold", "pgvector", "redis"}
  }

  ghost predicate IsGroup(s: string, g: string) {
    if s == "pgvector" then g == "ssl" else s == "redis" && g in {"cluster", "keepalive", "sentinel"}
  }

  /** The key is that of the group, or its name, an underscore and a field. */
  predicate OfGroup(g: string, key: string) {
    key == g || HasPrefix(key, g + "_")
  }

  ghost predicate OfNoGroup(s: string, key: string) {
    forall g :: IsGroup(s, g) ==> !OfGroup(g, key)
  }

  // ---------------------------------------------------------------------------------------------
  // Lowering
  // ---------------------------------------------------------------------------------------------

  /** nested has the other keys of the block and those of its sub-block; of a key in both places either value counts. */
  ghost predicate Nests(src: Fields, s: string, nested: Fields) {
    var sub := if s in src && src[s].Object? then src[s].fields else map[];
    forall key ::
      (key in nested <==> (key in src && !StaysOnTop(key)) || key in sub) &&
      (key in nested ==>
         (key in src && !StaysOnTop(key) && nested[key] == src[key]) || (key in sub && nested[key] == sub[key]))
  }

  /** A group that is an object gives way to its fields; other keys are as they were. */
  ghost predicate FlatAt(nested: Fields, g: string, key: string, flat: Fields)
    requires OfGroup(g, key)
  {
    if !(g in nested && nested[g].Object?) then SameAt(flat, nested, key)
    else
      var fields := nested[g].fields;
      if key == g then (key in flat <==> "enabled" in fields) && (key in flat ==> flat[key] == fields["enabled"])
      else
        var field := key[|g| + 1..];
        if field != "enabled" && field in fields then key in flat && flat[key] == fields[field]
        else SameAt(flat, nested, key)
  }

  ghost predicate Flattens(s: string, nested: Fields, flat: Fields) {
    (forall g, key :: IsGroup(s, g) && OfGroup(g, key) ==> FlatAt(nested, g, key, flat)) &&
    forall key :: OfNoGroup(s, key) ==> SameAt(flat, nested, key)
  }

  /** What is nested goes under the name of the strategy, if there is any; the rest stays on top. */
  ghost predicate LowersBy(raw: Json, nested: Fields, flat: Fields, out: Json) {
    if !raw.Object? || NameIn(raw.fields) !in {"pgvector", "redis"} then out == raw
    else
      var src, s := raw.fields, NameIn(raw.fields);
      Nests(src, s, nested) && Flattens(s, nested, flat) && out.Object? &&
      forall key ::
        if key == s && flat != map[] then key in out.fields && out.fields[key] == Object(flat)
        else if key in src && StaysOnTop(key) && !(key == s && src[key].Object?) then
          key in out.fields && out.fields[key] == src[key]
        else key !in out.fields
  }

  lemma LoweredMeans(x: Json, y: Json) returns (nested: Fields, flat: Fields)
    requires Lowered(x, y)
    ensures LowersBy(x, nested, flat, y)
  {
    nested :| LowersTo(x, nested, y);
    flat := map[];
    if x.Object? && IsStrategy(StrategyOf(x.fields)) {
      var src, s := x.fields, StrategyOf(x.fields);
      flat := FlattenAll(nested, GroupsOf(s));
      MergedNests(src, s, nested);
      FlattenAllMeans(s, nested);
    }
  }

  lemma MergedNests(src: Fields, s: string, nested: Fields)
    requires Merged(src, s, nested)
    ensures Nests(src, s, nested)
  {
    assert forall key :: IsSetting(src, key) <==> key in src && !StaysOnTop(key);
  }

  lemma GroupsMean(s: string, g: string)
    ensures g in GroupsOf(s) <==> IsGroup(s, g)
  {
  }

  lemma FlattenAllMeans(s: string, nested: Fields)
    ensures Flattens(s, nested, FlattenAll(nested, GroupsOf(s)))
  {
    var groups := GroupsOf(s);
    var flat := FlattenAll(nested, groups);
    GroupsPlain(s);
    forall g, key | IsGroup(s, g) && OfGroup(g, key) ensures FlatAt(nested, g, key, flat) {
      GroupsMean(s, g);
      FlattenAllHere(nested, groups, g);
      FlattenOneAt(Restrict(nested, g), g, key);
      assert SameAt(Restrict(flat, g), flat, key) && SameAt(Restrict(nested, g), nested, key);
      assert OfGroup(g, g) && SameAt(Restrict(nested, g), nested, g);
    }
    forall key | OfNoGroup(s, key) ensures SameAt(flat, nested, key) {
      forall g | g in groups ensures !Related(g, key) {
        GroupsMean(s, g);
        assert !OfGroup(g, key);
      }
      FlattenAllElsewhere(nested, groups, key);
    }
  }

  lemma FlattenOneAt(m: Fields, g: string, key: string)
    requires OfGroup(g, key)
    ensures FlatAt(m, g, key, FlattenOne(m, g))
  {
    if g in m && m[g].Object? {
      var fields := m[g].fields;
      var field := if key == g then "enabled" else key[|g| + 1..];
      assert FieldOf(g, key) == field;
      assert IsFlat(g, fields, key) <==> field in fields && (key == g || field != "enabled") by {
        if key != g {
          assert key == g + "_" + field;
        }
      }
    }
  }

  // ---------------------------------------------------------------------------------------------
  // Lifting
  // ---------------------------------------------------------------------------------------------

  /** The field of a group that a key stands for. */
  ghost predicate StandsFor(g: string, key: string, field: string) {
    (key == g && field == "enabled") || key == g + "_" + field
  }

  /** The keys of the group are collected in an object, if there are any; of two keys for one field either counts. */
  ghost predicate CollectsGroup(spread: Fields, g: string, out: Fields) {
    (forall key :: key in out && OfGroup(g, key) ==> key == g) &&
    if forall key :: key in spread ==> !OfGroup(g, key) then g !in out
    else
      g in out && out[g].Object? &&
      (forall key :: key in spread && OfGroup(g, key) ==>
         exists field :: field in out[g].fields && StandsFor(g, key, field)) &&
      forall field :: field in out[g].fields ==> FromSpread(spread, g, field, out[g].fields[field])
  }

  ghost predicate FromSpread(spread: Fields, g: string, field: string, value: Json) {
    exists key :: key in spread && StandsFor(g, key, field) && spread[key] == value
  }

  /** The sub-block is spread over the block, and the keys of each group are collected. */
  ghost predicate LiftsBy(raw: Json, out: Json) {
    if !raw.Object? || !IsObject(raw.fields, NameIn(raw.fields)) then out == raw
    else
      var s := NameIn(raw.fields);
      var spread := (raw.fields - {s}) + raw.fields[s].fields;
      out.Object? &&
      (forall g :: IsGroup(s, g) ==> CollectsGroup(spread, g, out.fields)) &&
      forall key :: OfNoGroup(s, key) ==> SameAt(out.fields, spread, key)
  }

  lemma LiftedMeans(x: Json, y: Json)
    requires Lifted(x, y)
    ensures LiftsBy(x, y)
  {
    var steps :| LiftsTo(x, steps, y);
    if x.Object? && IsObject(x.fields, StrategyOf(x.fields)) {
      var s := StrategyOf(x.fields);
      var spread, groups := (x.fields - {s}) + x.fields[s].fields, GroupsOf(s);
      GroupsPlain(s);
      forall g | IsGroup(s, g) ensures CollectsGroup(spread, g, y.fields) {
        GroupsMean(s, g);
        var i :| 0 <= i < |groups| && groups[i] == g;
        GroupedAllHere(spread, groups, steps, |groups|, i);
        GroupedCollects(spread, g, y.fields);
      }
      forall key | OfNoGroup(s, key) ensures SameAt(y.fields, spread, key) {
        forall g | g in groups ensures !Related(g, key) {
          GroupsMean(s, g);
          assert !OfGroup(g, key);
        }
        GroupedAllElsewhere(spread, groups, steps, |groups|, key);
      }
    }
  }

  lemma FieldStands(g: string, key: string, field: string)
    ensures Related(g, key) && FieldOf(g, key) == field ==> StandsFor(g, key, field)
  {
    if Related(g, key) && key != g {
      assert key == g + "_" + key[|g| + 1..];
    }
  }

  lemma GroupedCollects(spread: Fields, g: string, out: Fields)
    requires GroupedOne(Restrict(spread, g), g, Restrict(out, g))
    ensures CollectsGroup(spread, g, out)
  {
    var m, z := Restrict(spread, g), Restrict(out, g);
    var keys := set key | key in m && Related(g, key);
    assert keys == m.Keys && m - keys == map[];
    assert forall key :: OfGroup(g, key) <==> Related(g, key);
    assert forall key :: key in z <==> key in out && Related(g, key);
    if keys == {} {
      assert z == map[];
      assert g !in z;
    } else {
      assert z.Keys == {g} && z[g] == out[g];
      forall key | key in spread && OfGroup(g, key)
        ensures exists field :: field in out[g].fields && StandsFor(g, key, field)
      {
        assert key in keys;
        FieldStands(g, key, FieldOf(g, key));
      }
      forall field | field in out[g].fields ensures FromSpread(spread, g, field, out[g].fields[field]) {
        assert CollectedFrom(m, g, keys, field, z[g].fields[field]);
        var key :| key in keys && key in m && Related(g, key) && FieldOf(g, key) == field &&
            m[key] == z[g].fields[field];
        FieldStands(g, key, field);
      }
      var key :| key in keys;
      assert key in spread && OfGroup(g, key);
    }
  }
}
