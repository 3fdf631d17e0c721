/**
  The vectordb block of a model and of the plugin (internal/aimap/vectordb.go).

  The plugin nests the settings of a strategy in a sub-block of that name and spells grouped settings
  as flat keys; the model has the settings at the top and keeps each group as an object. Maps are
  visited in any order.
 */
module VectorDB {
  import opened Sequences

  datatype Json = Str(s: string) | Other(literal: string) | Object(fields: Fields)

  type Fields = map<string, Json>

  predicate IsObject(cfg: Fields, key: string) {
    key in cfg && cfg[key].Object?
  }

  predicate Common(key: string) {
    key in {"strategy", "dimensions", "distance_metric", "threshold"}
  }

  function GroupsOf(strategy: string): seq<string> {
    if strategy == "pgvector" then ["ssl"] else if strategy == "redis" then ["cluster", "keepalive", "sentinel"] else []
  }

  predicate IsStrategy(name: string) {
    name in {"pgvector", "redis"}
  }

  const ENABLED := "enabled"

  /** The key of a group, or a flat key of one of its fields. */
  predicate Related(group: string, key: string) {
    key == group || HasPrefix(key, group + "_")
  }

  /** The flat key of a field of a group, and the field of such a key. */
  function FlatKey(group: string, field: string): string {
    if field == ENABLED then group else group + "_" + field
  }

  function FieldOf(group: string, key: string): (field: string)
    requires Related(group, key)
  {
    if key == group then ENABLED else key[|group| + 1..]
  }

  lemma FieldOfFlatKey(group: string, field: string)
    ensures Related(group, FlatKey(group, field)) && FieldOf(group, FlatKey(group, field)) == field
  {
    if field != ENABLED {
      var key := group + "_" + field;
      assert key[..|group| + 1] == group + "_";
    }
  }

  /** The key is the flat key of one of the fields. */
  ghost predicate IsFlat(group: string, fields: Fields, key: string) {
    Related(group, key) && FieldOf(group, key) in fields && key == FlatKey(group, FieldOf(group, key))
  }

  /** The flat keys of the fields of a group. */
  ghost function FlatFields(group: string, fields: Fields): (flat: Fields)
    ensures forall key :: key in flat ==> IsFlat(group, fields, key)
    ensures forall key :: IsFlat(group, fields, key) ==> key in flat && flat[key] == fields[FieldOf(group, key)]
  {
    forall field ensures Related(group, FlatKey(group, field)) && FieldOf(group, FlatKey(group, field)) == field {
      FieldOfFlatKey(group, field);
    }
    map key | key in (set field | field in fields :: FlatKey(group, field)) :: fields[FieldOf(group, key)]
  }

  /** The block with one group spelled out. */
  ghost function FlattenOne(cfg: Fields, group: string): Fields {
    if IsObject(cfg, group) then (cfg - {group}) + FlatFields(group, cfg[group].fields) else cfg
  }

  ghost function FlattenAll(cfg: Fields, groups: seq<string>): Fields {
    if groups == [] then cfg else FlattenOne(FlattenAll(cfg, groups[..|groups| - 1]), groups[|groups| - 1])
  }

  /** cfg' is cfg with the keys of one group collected in an object; if two keys are for one field, either counts. */
  ghost predicate GroupedOne(cfg: Fields, group: string, cfg': Fields) {
    var keys := set key | key in cfg && Related(group, key);
    if keys == {} then cfg' == cfg
    else
      IsObject(cfg', group) && cfg' == (cfg - keys)[group := cfg'[group]] &&
      Collected(cfg, group, keys, cfg'[group].fields)
  }

  ghost predicate Collected(cfg: Fields, group: string, keys: set<string>, fields: Fields) {
    (forall key :: key in keys ==> key in cfg && Related(group, key) && FieldOf(group, key) in fields) &&
    forall field :: field in fields ==> CollectedFrom(cfg, group, keys, field, fields[field])
  }

  ghost predicate CollectedFrom(cfg: Fields, group: string, keys: set<string>, field: string, value: Json) {
    exists key :: key in keys && key in cfg && Related(group, key) && FieldOf(group, key) == field && cfg[key] == value
  }

  /** steps are the blocks before the first group and after each group. */
  ghost predicate Grouped(cfg: Fields, groups: seq<string>, steps: seq<Fields>) {
    |steps| == |groups| + 1 && steps[0] == cfg && forall k :: 0 <= k < |groups| ==> GroupedStep(groups, steps, k)
  }

  ghost predicate GroupedStep(groups: seq<string>, steps: seq<Fields>, k: nat)
    requires |steps| == |groups| + 1 && k < |groups|
  {
    GroupedOne(steps[k], groups[k], steps[k + 1])
  }

  // ---------------------------------------------------------------------------------------------
  // Rewriting a block in place
  // ---------------------------------------------------------------------------------------------

  class Block {
    var cfg: Fields

    constructor (cfg: Fields)
      ensures this.cfg == cfg
    {
      this.cfg := cfg;
    }

    /** Spells out each group that is an object. */
    method FlattenGroups(groups: seq<string>)
      modifies this
      ensures cfg == FlattenAll(old(cfg), groups)
    {
      for i := 0 to |groups|
        invariant cfg == FlattenAll(old(cfg), groups[..i])
      {
        assert groups[..i + 1][..i] == groups[..i];
        if groups[i] in cfg && cfg[groups[i]].Object? {
          FlattenGroup(groups[i]);
        }
      }
      TakeAll(groups);
    }

    method FlattenGroup(group: string)
      requires IsObject(cfg, group)
      modifies this
      ensures cfg == FlattenOne(old(cfg), group)
    {
      var fields := cfg[group].fields;
      cfg := cfg - {group};
      ghost var start := cfg;
      var left := fields.Keys;
      while left != {}
        invariant left <= fields.Keys
        invariant cfg == start + FlatFields(group, fields - left)
        decreases |left|
      {
        var k :| k in left;
        ghost var before := cfg;
        cfg := cfg[FlatKey(group, k) := fields[k]];
        MoreFlat(start, group, fields, left, k, before, cfg);
        left := left - {k};
      }
      assert fields - {} == fields;
    }

    /** Collects the flat keys of each group in an object. */
    method GroupFlatKeys(groups: seq<string>) returns (ghost steps: seq<Fields>)
      modifies this
      ensures Grouped(old(cfg), groups, steps) && cfg == steps[|groups|]
    {
      steps := [cfg];
      for i := 0 to |groups|
        invariant Grouped(old(cfg), groups[..i], steps) && cfg == steps[i]
      {
        GroupKeys(groups[i]);
        MoreGrouped(old(cfg), groups, i, steps, cfg);
        steps := steps + [cfg];
      }
      TakeAll(groups);
    }

    method GroupKeys(group: string)
      modifies this
      ensures GroupedOne(old(cfg), group, cfg)
    {
      ghost var start := cfg;
      ghost var taken;
      var fields;
      fields, taken := TakeKeys(group);
      assert taken == {} ==> cfg == start;
      if |fields| > 0 {
        cfg := cfg[group := Object(fields)];
      }
    }

    /** Moves the keys of a group out of the block. */
    method TakeKeys(group: string) returns (fields: Fields, ghost taken: set<string>)
      modifies this
      ensures taken == set key | key in old(cfg) && Related(group, key)
      ensures cfg == old(cfg) - taken && Collected(old(cfg), group, taken, fields) && (taken == {} <==> fields == map[])
    {
      fields, taken := map[], {};
      var left := cfg.Keys;
      assert cfg - {} == cfg;
      while left != {}
        invariant left <= old(cfg).Keys &&
                  forall key :: key in taken <==> key in old(cfg) && key !in left && Related(group, key)
        invariant cfg == old(cfg) - taken
        invariant Collected(old(cfg), group, taken, fields)
        invariant taken == {} <==> fields == map[]
        decreases |left|
      {
        var k :| k in left;
        if k == group || HasPrefix(k, group + "_") {
          var field := if k == group then ENABLED else k[|group| + 1..];
          MoreCollected(old(cfg), group, taken, fields, k, fields[field := cfg[k]]);
          MoreTaken(old(cfg), taken, k);
          assert field in fields[field := cfg[k]];
          fields := fields[field := cfg[k]];
          cfg := cfg - {k};
          taken := taken + {k};
        }
        left := left - {k};
      }
    }
  }

  lemma MoreTaken(cfg: Fields, taken: set<string>, k: string)
    ensures cfg - taken - {k} == cfg - (taken + {k})
  {
  }

  lemma MoreFlat(start: Fields, group: string, fields: Fields, left: set<string>, k: string, before: Fields,
      cfg: Fields)
    requires left <= fields.Keys && k in left && before == start + FlatFields(group, fields - left)
    requires cfg == before[FlatKey(group, k) := fields[k]]
    ensures cfg == start + FlatFields(group, fields - (left - {k}))
  {
    PutBack(fields, left, k);
    FlatSnoc(group, fields - left, k, fields[k]);
    AddThenSet(start, FlatFields(group, fields - left), FlatKey(group, k), fields[k]);
  }

  lemma PutBack(m: Fields, left: set<string>, k: string)
    requires k in m && k in left
    ensures m - (left - {k}) == (m - left)[k := m[k]]
  {
  }

  lemma AddThenSet(a: Fields, b: Fields, k: string, v: Json)
    ensures a + b[k := v] == (a + b)[k := v]
  {
  }

  lemma FlatSnoc(group: string, fields: Fields, k: string, v: Json)
    ensures FlatFields(group, fields[k := v]) == FlatFields(group, fields)[FlatKey(group, k) := v]
  {
    var a, b := FlatFields(group, fields)[FlatKey(group, k) := v], FlatFields(group, fields[k := v]);
    FieldOfFlatKey(group, k);
    forall key ensures key in b <==> key in a {
      FlatSnocKey(group, fields, k, v, key);
    }
    forall key | key in b ensures b[key] == a[key] {
      FlatSnocKey(group, fields, k, v, key);
    }
  }

  lemma FlatSnocKey(group: string, fields: Fields, k: string, v: Json, key: string)
    ensures IsFlat(group, fields[k := v], key) <==> IsFlat(group, fields, key) || key == FlatKey(group, k)
  {
    FieldOfFlatKey(group, k);
  }

  lemma MoreCollected(cfg: Fields, group: string, keys: set<string>, before: Fields, k: string, fields: Fields)
    requires Collected(cfg, group, keys, before) && k in cfg && Related(group, k) &&
             fields == before[FieldOf(group, k) := cfg[k]]
    ensures Collected(cfg, group, keys + {k}, fields)
  {
    forall field | field in fields ensures CollectedFrom(cfg, group, keys + {k}, field, fields[field]) {
      if field != FieldOf(group, k) {
        assert CollectedFrom(cfg, group, keys, field, before[field]);
        var key :| key in keys && key in cfg && Related(group, key) && FieldOf(group, key) == field &&
            cfg[key] == before[field];
        assert key in keys + {k};
      }
    }
  }

  lemma MoreGrouped(cfg: Fields, groups: seq<string>, i: nat, steps: seq<Fields>, after: Fields)
    requires i < |groups| && Grouped(cfg, groups[..i], steps) && GroupedOne(steps[i], groups[i], after)
    ensures Grouped(cfg, groups[..i + 1], steps + [after])
  {
    var groups', steps' := groups[..i + 1], steps + [after];
    forall k: nat | k < |groups'| ensures GroupedStep(groups', steps', k) {
      if k < i {
        assert GroupedStep(groups[..i], steps, k);
      }
    }
  }

  // ---------------------------------------------------------------------------------------------
  // Lowering and lifting
  // ---------------------------------------------------------------------------------------------

  function StrategyOf(src: Fields): string {
    if "strategy" in src && src["strategy"].Str? then src["strategy"].s else ""
  }

  /** A setting of the strategy that stands at the top of the block. */
  predicate IsSetting(src: Fields, key: string) {
    key in src && !Common(key) && !IsStrategy(key)
  }

  function SubBlock(src: Fields, strategy: string): Fields {
    if IsObject(src, strategy) then src[strategy].fields else map[]
  }

  /** What stays at the top of the block. */
  ghost function Top(src: Fields, strategy: string): Fields {
    map key | key in src && (Common(key) || (IsStrategy(key) && !(key == strategy && src[key].Object?))) :: src[key]
  }

  /** nested has the settings at the top and those of the sub-block; if a setting is in both places, either counts. */
  ghost predicate Merged(src: Fields, strategy: string, nested: Fields) {
    (forall key :: key in nested <==> IsSetting(src, key) || key in SubBlock(src, strategy)) &&
    forall key :: key in nested ==>
      (IsSetting(src, key) && nested[key] == src[key]) ||
          (key in SubBlock(src, strategy) && nested[key] == SubBlock(src, strategy)[key])
  }

  /** out is the lowered block, in which nested became the sub-block. */
  ghost predicate LowersTo(raw: Json, nested: Fields, out: Json) {
    if !raw.Object? || !IsStrategy(StrategyOf(raw.fields)) then out == raw
    else
      var s := StrategyOf(raw.fields);
      var flat := FlattenAll(nested, GroupsOf(s));
      Merged(raw.fields, s, nested) &&
          out == Object(if flat == map[] then Top(raw.fields, s) else Top(raw.fields, s)[s := Object(flat)])
  }

  /** out is the lifted block, which came about in steps. */
  ghost predicate LiftsTo(raw: Json, steps: seq<Fields>, out: Json) {
    if !raw.Object? || !IsObject(raw.fields, StrategyOf(raw.fields)) then out == raw
    else
      var s := StrategyOf(raw.fields);
      Grouped((raw.fields - {s}) + raw.fields[s].fields, GroupsOf(s), steps) && out == Object(steps[|GroupsOf(s)|])
  }

  ghost predicate Lowered(raw: Json, out: Json) {
    exists nested :: LowersTo(raw, nested, out)
  }

  ghost predicate Lifted(raw: Json, out: Json) {
    exists steps :: LiftsTo(raw, steps, out)
  }

  method VectorDBToPlugin(raw: Json) returns (out: Json)
    ensures Lowered(raw, out)
  {
    assert LowersTo(raw, map[], raw) || (raw.Object? && IsStrategy(StrategyOf(raw.fields)));
    if !raw.Object? {
      return raw;
    }
    var src := raw.fields;
    var s := StrategyOf(src);
    if !IsStrategy(s) {
      return raw;
    }
    var top, nested := Split(src, s);
    var block := new Block(nested);
    block.FlattenGroups(GroupsOf(s));
    if |block.cfg| > 0 {
      top := top[s := Object(block.cfg)];
    }
    out := Object(top);
    assert LowersTo(raw, nested, out);
  }

  /** Splits a block into what stays at the top and the settings of the strategy, visiting the keys in any order. */
  method Split(src: Fields, s: string) returns (top: Fields, nested: Fields)
    requires IsStrategy(s)
    ensures top == Top(src, s) && Merged(src, s, nested)
  {
    top, nested := map[], map[];
    var left := src.Keys;
    while left != {}
      invariant left <= src.Keys && top == Top(src - left, s) && Merged(src - left, s, nested)
      decreases |left|
    {
      var k :| k in left;
      PutBack(src, left, k);
      SplitNext(src - left, s, k, src[k], nested);
      if Common(k) {
        top := top[k := src[k]];
      } else if k == s {
        if src[k].Object? {
          nested := nested + src[k].fields;
        } else {
          top := top[k := src[k]];
        }
      } else if IsStrategy(k) {
        top := top[k := src[k]];
      } else {
        nested := nested[k := src[k]];
      }
      left := left - {k};
    }
    assert src - left == src;
  }

  /** One more key of the block stays at the top, brings the sub-block, or is a setting. */
  lemma SplitNext(src: Fields, s: string, k: string, v: Json, nested: Fields)
    requires IsStrategy(s) && k !in src && Merged(src, s, nested)
    ensures Top(src[k := v], s) ==
            if Common(k) || (IsStrategy(k) && !(k == s && v.Object?)) then Top(src, s)[k := v] else Top(src, s)
    ensures k == s && v.Object? ==> Merged(src[k := v], s, nested + v.fields)
    ensures IsSetting(src[k := v], k) ==> Merged(src[k := v], s, nested[k := v])
    ensures !(k == s && v.Object?) && !IsSetting(src[k := v], k) ==> Merged(src[k := v], s, nested)
  {
    TopNext(src, s, k, v);
    if k == s && v.Object? {
      SubBlockNext(src, s, v, nested);
    } else {
      SettingNext(src, s, k, v, nested);
    }
  }

  lemma SubBlockNext(src: Fields, s: string, v: Json, nested: Fields)
    requires IsStrategy(s) && s !in src && Merged(src, s, nested) && v.Object?
    ensures Merged(src[s := v], s, nested + v.fields)
  {
    assert forall key :: IsSetting(src[s := v], key) <==> IsSetting(src, key);
  }

  lemma SettingNext(src: Fields, s: string, k: string, v: Json, nested: Fields)
    requires k !in src && Merged(src, s, nested) && !(k == s && v.Object?)
    ensures IsSetting(src[k := v], k) ==> Merged(src[k := v], s, nested[k := v])
    ensures !IsSetting(src[k := v], k) ==> Merged(src[k := v], s, nested)
  {
    assert SubBlock(src[k := v], s) == SubBlock(src, s);
    assert forall key :: key != k ==> (IsSetting(src[k := v], key) <==> IsSetting(src, key));
  }

  lemma TopNext(src: Fields, s: string, k: string, v: Json)
    requires k !in src
    ensures Top(src[k := v], s) ==
            if Common(k) || (IsStrategy(k) && !(k == s && v.Object?)) then Top(src, s)[k := v] else Top(src, s)
  {
  }

  method VectorDBFromPlugin(raw: Json) returns (out: Json)
    ensures Lifted(raw, out)
  {
    assert LiftsTo(raw, [], raw) || (raw.Object? && IsObject(raw.fields, StrategyOf(raw.fields)));
    if !raw.Object? {
      return raw;
    }
    var src := raw.fields;
    var s := StrategyOf(src);
    if !(s in src && src[s].Object?) {
      return raw;
    }
    var block := new Block((src - {s}) + src[s].fields);
    ghost var steps := block.GroupFlatKeys(GroupsOf(s));
    out := Object(block.cfg);
    assert LiftsTo(raw, steps, out);
  }

  // ---------------------------------------------------------------------------------------------
  // Groups do not interfere
  // ---------------------------------------------------------------------------------------------

  /** The part of a key in front of its first underscore. */
  function Head(key: string): string {
    if key == "" || key[0] == '_' then "" else [key[0]] + Head(key[1..])
  }

  lemma {:induction false} HeadExact(g: string, rest: string)
    requires '_' !in g
    ensures Head(g) == g && Head(g + "_" + rest) == g
  {
    if g != "" {
      assert (g + "_" + rest)[1..] == g[1..] + "_" + rest;
      HeadExact(g[1..], rest);
    }
  }

  lemma RelatedHead(g: string, key: string)
    requires '_' !in g && Related(g, key)
    ensures Head(key) == g
  {
    HeadExact(g, "");
    if key != g {
      assert key == g + "_" + key[|g| + 1..];
      HeadExact(g, key[|g| + 1..]);
    }
  }

  /** A key belongs to one group only. */
  lemma RelatedOnce(g: string, h: string, key: string)
    requires '_' !in g && '_' !in h && Related(g, key) && Related(h, key)
    ensures g == h
  {
    RelatedHead(g, key);
    RelatedHead(h, key);
  }

  ghost predicate Plain(groups: seq<string>) {
    NoDup(groups) && forall g :: g in groups ==> '_' !in g
  }

  lemma GroupsPlain(strategy: string)
    ensures Plain(GroupsOf(strategy))
    ensures forall g :: g in GroupsOf(strategy) ==> !Common(g) && !IsStrategy(g)
    ensures forall g, key :: g in GroupsOf(strategy) && (Common(key) || IsStrategy(key)) ==> !Related(g, key)
  {
    forall g, key | g in GroupsOf(strategy) && Related(g, key) ensures !Common(key) && !IsStrategy(key) {
      RelatedHead(g, key);
      TopHeads(key);
    }
  }

  lemma TopHeads(key: string)
    ensures Common(key) || IsStrategy(key) ==> Head(key) == if key == "distance_metric" then "distance" else key
  {
    if key == "distance_metric" {
      assert key == "distance" + "_" + "metric";
      HeadExact("distance", "metric");
    } else if Common(key) || IsStrategy(key) {
      HeadExact(key, "");
    }
  }

  /** The keys of one group. */
  ghost function Restrict(cfg: Fields, group: string): Fields {
    map key | key in cfg && Related(group, key) :: cfg[key]
  }

  ghost predicate Unrelated(groups: seq<string>, key: string) {
    forall g :: g in groups ==> !Related(g, key)
  }

  ghost predicate SameAt(a: Fields, b: Fields, key: string) {
    (key in a <==> key in b) && (key in a ==> a[key] == b[key])
  }

  lemma FlattenOneElsewhere(cfg: Fields, group: string, key: string)
    requires !Related(group, key)
    ensures SameAt(FlattenOne(cfg, group), cfg, key)
  {
  }

  lemma FlattenOneHere(cfg: Fields, group: string)
    ensures Restrict(FlattenOne(cfg, group), group) == FlattenOne(Restrict(cfg, group), group)
  {
  }

  lemma OtherGroup(cfg: Fields, g: string, h: string)
    requires '_' !in g && '_' !in h && g != h
    ensures Restrict(FlattenOne(cfg, h), g) == Restrict(cfg, g)
  {
    forall key | Related(g, key) ensures SameAt(FlattenOne(cfg, h), cfg, key) {
      if Related(h, key) {
        RelatedOnce(g, h, key);
      }
      FlattenOneElsewhere(cfg, h, key);
    }
  }

  lemma {:induction false} FlattenAllElsewhere(cfg: Fields, groups: seq<string>, key: string)
    requires Unrelated(groups, key)
    ensures SameAt(FlattenAll(cfg, groups), cfg, key)
  {
    if groups != [] {
      var init, last := groups[..|groups| - 1], groups[|groups| - 1];
      assert last in groups && forall g :: g in init ==> g in groups;
      FlattenAllElsewhere(cfg, init, key);
      FlattenOneElsewhere(FlattenAll(cfg, init), last, key);
    }
  }

  lemma {:induction false} FlattenAllAbsent(cfg: Fields, groups: seq<string>, g: string)
    requires Plain(groups) && g !in groups && '_' !in g
    ensures Restrict(FlattenAll(cfg, groups), g) == Restrict(cfg, g)
  {
    if groups != [] {
      var init, last := groups[..|groups| - 1], groups[|groups| - 1];
      assert last in groups && forall h :: h in init ==> h in groups;
      FlattenAllAbsent(cfg, init, g);
      OtherGroup(FlattenAll(cfg, init), g, last);
    }
  }

  /** Each group is spelled out as if it stood alone. */
  lemma {:induction false} FlattenAllHere(cfg: Fields, groups: seq<string>, g: string)
    requires Plain(groups) && g in groups
    ensures Restrict(FlattenAll(cfg, groups), g) == FlattenOne(Restrict(cfg, g), g)
  {
    var init, last := groups[..|groups| - 1], groups[|groups| - 1];
    assert groups == init + [last] && forall h :: h in init ==> h in groups;
    if g == last {
      FlattenAllAbsent(cfg, init, g);
      FlattenOneHere(FlattenAll(cfg, init), g);
    } else {
      FlattenAllHere(cfg, init, g);
      OtherGroup(FlattenAll(cfg, init), g, last);
    }
  }

  lemma GroupedElsewhere(cfg: Fields, group: string, cfg': Fields, key: string)
    requires GroupedOne(cfg, group, cfg') && !Related(group, key)
    ensures SameAt(cfg', cfg, key)
  {
  }

  lemma GroupedHere(cfg: Fields, group: string, cfg': Fields)
    requires GroupedOne(cfg, group, cfg')
    ensures GroupedOne(Restrict(cfg, group), group, Restrict(cfg', group))
  {
    var keys := set key | key in cfg && Related(group, key);
    assert keys == set key | key in Restrict(cfg, group) && Related(group, key);
    if keys != {} {
      forall field | field in cfg'[group].fields
        ensures CollectedFrom(Restrict(cfg, group), group, keys, field, cfg'[group].fields[field])
      {
        assert CollectedFrom(cfg, group, keys, field, cfg'[group].fields[field]);
      }
    }
  }

  lemma GroupedOther(cfg: Fields, h: string, cfg': Fields, g: string)
    requires GroupedOne(cfg, h, cfg') && '_' !in g && '_' !in h && g != h
    ensures Restrict(cfg', g) == Restrict(cfg, g)
  {
    forall key | Related(g, key) ensures SameAt(cfg', cfg, key) {
      if Related(h, key) {
        RelatedOnce(g, h, key);
      }
      GroupedElsewhere(cfg, h, cfg', key);
    }
  }

  lemma {:induction false} GroupedAllElsewhere(cfg: Fields, groups: seq<string>, steps: seq<Fields>, n: nat,
      key: string)
    requires Grouped(cfg, groups, steps) && n <= |groups| && Unrelated(groups, key)
    ensures SameAt(steps[n], cfg, key)
  {
    if n > 0 {
      GroupedAllElsewhere(cfg, groups, steps, n - 1, key);
      assert GroupedStep(groups, steps, n - 1);
      assert groups[n - 1] in groups;
      GroupedElsewhere(steps[n - 1], groups[n - 1], steps[n], key);
    }
  }

  /** Each group is collected as if it stood alone. */
  lemma {:induction false} GroupedAllHere(cfg: Fields, groups: seq<string>, steps: seq<Fields>, n: nat, i: nat)
    requires Grouped(cfg, groups, steps) && Plain(groups) && n <= |groups| && i < |groups|
    ensures if i < n then GroupedOne(Restrict(cfg, groups[i]), groups[i], Restrict(steps[n], groups[i]))
            else Restrict(steps[n], groups[i]) == Restrict(cfg, groups[i])
  {
    if n > 0 {
      GroupedAllHere(cfg, groups, steps, n - 1, i);
      assert GroupedStep(groups, steps, n - 1);
      assert groups[i] in groups && groups[n - 1] in groups;
      if i == n - 1 {
        GroupedHere(steps[i], groups[i], steps[n]);
      } else {
        GroupedOther(steps[n - 1], groups[n - 1], steps[n], groups[i]);
      }
    }
  }

  /**
    A group survives being spelled out and collected exactly if it is absent, or an object with fields and
    nothing else.
   */
  lemma GroupBack(m: Fields, group: string, z: Fields)
    requires forall key :: key in m ==> Related(group, key)
    requires GroupedOne(FlattenOne(m, group), group, z)
    ensures z == m <==> m == map[] || (m.Keys == {group} && m[group].Object? && m[group].fields != map[])
  {
    var f := FlattenOne(m, group);
    var keys := set key | key in f && Related(group, key);
    assert keys == f.Keys;
    if keys == {} {
      NothingOfGroup(m, group);
    } else {
      assert f - keys == map[] && z.Keys == {group};
      FieldsOfGroup(m, group, keys, z);
    }
  }

  /** Nothing is left of a group only if it was absent, or an object without fields. */
  lemma NothingOfGroup(m: Fields, group: string)
    requires FlattenOne(m, group) == map[]
    ensures m == map[] || (IsObject(m, group) && m[group].fields == map[])
  {
    if IsObject(m, group) {
      forall field | field in m[group].fields ensures FlatKey(group, field) in FlattenOne(m, group) {
        FieldOfFlatKey(group, field);
        assert IsFlat(group, m[group].fields, FlatKey(group, field));
      }
    }
  }

  lemma FieldsOfGroup(m: Fields, group: string, keys: set<string>, z: Fields)
    requires keys != {} && keys == FlattenOne(m, group).Keys
    requires z.Keys == {group} && z[group].Object? && Collected(FlattenOne(m, group), group, keys, z[group].fields)
    ensures z == m <==> m.Keys == {group} && m[group].Object? && m[group].fields != map[]
  {
    if m.Keys == {group} && m[group].Object? {
      assert m - {group} == map[];
      assert FlattenOne(m, group) == FlatFields(group, m[group].fields);
      SameFields(m[group].fields, group, FlattenOne(m, group), keys, z[group].fields);
      assert z == m;
    }
    var key :| key in keys;
    assert FieldOf(group, key) in z[group].fields;
  }

  lemma SameFields(fields: Fields, group: string, flat: Fields, keys: set<string>, collected: Fields)
    requires flat == FlatFields(group, fields) && keys == flat.Keys && Collected(flat, group, keys, collected)
    ensures collected == fields
  {
    forall field | field in fields ensures field in collected {
      FieldOfFlatKey(group, field);
      assert IsFlat(group, fields, FlatKey(group, field));
      assert FlatKey(group, field) in keys;
    }
    forall field | field in collected ensures field in fields && collected[field] == fields[field] {
      assert CollectedFrom(flat, group, keys, field, collected[field]);
      var key :| key in keys && key in flat && Related(group, key) && FieldOf(group, key) == field &&
          flat[key] == collected[field];
      assert IsFlat(group, fields, key);
    }
  }

  // ---------------------------------------------------------------------------------------------
  // The round trip, and lowering twice
  // ---------------------------------------------------------------------------------------------

  /** The group is absent or an object with fields, and no key has the form of one of its flat keys. */
  ghost predicate Clean(src: Fields, group: string) {
    (group in src ==> src[group].Object? && src[group].fields != map[]) &&
    forall key :: key in src ==> !HasPrefix(key, group + "_")
  }

  /**
    A block survives lowering and lifting: it has no sub-block of its own, its groups are clean, and
    if a plain value stands under the name of the strategy there are no settings that could replace it.
   */
  ghost predicate RoundTrips(raw: Json) {
    raw.Object? ==>
      var src, s := raw.fields, StrategyOf(raw.fields);
      !IsObject(src, s) &&
      (IsStrategy(s) && s in src ==> forall key :: !IsSetting(src, key)) &&
      (IsStrategy(s) ==> forall g :: g in GroupsOf(s) ==> Clean(src, g))
  }

  lemma CleanExact(src: Fields, group: string)
    ensures Clean(src, group) <==>
            var m := Restrict(src, group);
            m == map[] || (m.Keys == {group} && m[group].Object? && m[group].fields != map[])
  {
    var m := Restrict(src, group);
    assert !HasPrefix(group, group + "_");
    if Clean(src, group) {
      forall key | key in m ensures key == group {
      }
      assert group in m ==> m.Keys == {group};
      assert group !in m ==> m == map[];
    } else if key :| key in src && HasPrefix(key, group + "_") {
      assert key in m && key != group;
    } else {
      assert group in m;
    }
  }

  /** An object is not one of its own fields. */
  lemma NotInItself(fields: Fields, key: string)
    requires key in fields
    ensures fields[key] != Object(fields)
  {
    assert fields[key] < Object(fields);
  }

  lemma LoweredStrategy(src: Fields, s: string, flat: Fields)
    requires s == StrategyOf(src) && IsStrategy(s)
    ensures StrategyOf(Top(src, s)) == s && StrategyOf(Top(src, s)[s := Object(flat)]) == s
  {
  }

  /** Nothing is left of settings only if there were none that the round trip keeps. */
  lemma NothingFlat(src: Fields, s: string, nested: Fields)
    requires s == StrategyOf(src) && IsStrategy(s) && Merged(src, s, nested) && FlattenAll(nested, GroupsOf(s)) == map[]
    ensures Top(src, s) == src <==> RoundTrips(Object(src))
  {
    GroupsPlain(s);
    assert Top(src, s) == src <==> !IsObject(src, s) && forall key :: !IsSetting(src, key);
    if RoundTrips(Object(src)) {
      forall key ensures !IsSetting(src, key) {
        if IsSetting(src, key) {
          SettingLeft(src, s, nested, key);
        }
      }
    }
    if Top(src, s) == src {
      forall g | g in GroupsOf(s) ensures Clean(src, g) {
        forall key | key in src ensures !Related(g, key) {
          assert !IsSetting(src, key);
        }
        assert Related(g, g);
      }
    }
  }

  lemma SettingLeft(src: Fields, s: string, nested: Fields, key: string)
    requires s == StrategyOf(src) && IsStrategy(s) && Merged(src, s, nested) && RoundTrips(Object(src)) &&
             IsSetting(src, key)
    ensures FlattenAll(nested, GroupsOf(s)) != map[]
  {
    GroupsPlain(s);
    var groups := GroupsOf(s);
    if Unrelated(groups, key) {
      FlattenAllElsewhere(nested, groups, key);
    } else {
      var g :| g in groups && Related(g, key);
      assert Clean(src, g) && key == g && nested[g] == src[g];
      FlattenAllHere(nested, groups, g);
      var m := Restrict(nested, g);
      assert IsObject(m, g);
      var field :| field in m[g].fields;
      FieldOfFlatKey(g, field);
      assert IsFlat(g, m[g].fields, FlatKey(g, field));
      assert FlatKey(g, field) in Restrict(FlattenAll(nested, groups), g);
    }
  }

  /** What is lifted: the top of the lowered block, with the sub-block spread out. */
  ghost function Spread(src: Fields, s: string, flat: Fields): Fields {
    (Top(src, s)[s := Object(flat)] - {s}) + flat
  }

  /** Something under the name of the strategy does not survive if there are settings for the sub-block. */
  lemma StrategyKeyLost(src: Fields, s: string, nested: Fields, steps: seq<Fields>)
    requires s == StrategyOf(src) && IsStrategy(s) && Merged(src, s, nested) && s in src
    requires var flat := FlattenAll(nested, GroupsOf(s));
             flat != map[] && Grouped(Spread(src, s, flat), GroupsOf(s), steps)
    ensures steps[|GroupsOf(s)|] != src && !RoundTrips(Object(src))
  {
    GroupsPlain(s);
    var groups := GroupsOf(s);
    var flat := FlattenAll(nested, groups);
    FlattenAllElsewhere(nested, groups, s);
    GroupedAllElsewhere(Spread(src, s, flat), groups, steps, |groups|, s);
    if src[s].Object? {
      if s in src[s].fields {
        NotInItself(src[s].fields, s);
      }
    } else if RoundTrips(Object(src)) {
      assert nested == map[];
      FlattenEmpty(groups);
    }
  }

  lemma {:induction false} FlattenEmpty(groups: seq<string>)
    ensures FlattenAll(map[], groups) == map[]
  {
    if groups != [] {
      FlattenEmpty(groups[..|groups| - 1]);
    }
  }

  /** Without a key of the strategy's name, keys outside the groups come back as they were. */
  lemma LiftedElsewhere(src: Fields, s: string, nested: Fields, steps: seq<Fields>, key: string)
    requires s == StrategyOf(src) && IsStrategy(s) && Merged(src, s, nested) && s !in src
    requires Grouped(Spread(src, s, FlattenAll(nested, GroupsOf(s))), GroupsOf(s), steps) && Unrelated(GroupsOf(s), key)
    ensures SameAt(steps[|GroupsOf(s)|], src, key)
  {
    FlattenAllElsewhere(nested, GroupsOf(s), key);
    GroupedAllElsewhere(Spread(src, s, FlattenAll(nested, GroupsOf(s))), GroupsOf(s), steps, |GroupsOf(s)|, key);
  }

  /** Each group is spelled out and collected as if it stood alone. */
  lemma LiftedGroup(src: Fields, s: string, nested: Fields, steps: seq<Fields>, i: nat)
    requires s == StrategyOf(src) && IsStrategy(s) && Merged(src, s, nested) && s !in src && i < |GroupsOf(s)|
    requires Grouped(Spread(src, s, FlattenAll(nested, GroupsOf(s))), GroupsOf(s), steps)
    ensures var g := GroupsOf(s)[i];
            GroupedOne(FlattenOne(Restrict(src, g), g), g, Restrict(steps[|GroupsOf(s)|], g))
  {
    GroupsPlain(s);
    var groups := GroupsOf(s);
    var g, flat := groups[i], FlattenAll(nested, groups);
    assert g in groups;
    GroupedAllHere(Spread(src, s, flat), groups, steps, |groups|, i);
    FlattenAllHere(nested, groups, g);
    GroupIsSettings(src, s, nested, flat, g);
  }

  lemma GroupIsSettings(src: Fields, s: string, nested: Fields, flat: Fields, g: string)
    requires IsStrategy(s) && Merged(src, s, nested) && s !in src && g in GroupsOf(s)
    ensures Restrict(nested, g) == Restrict(src, g) && Restrict(Spread(src, s, flat), g) == Restrict(flat, g)
  {
    GroupsPlain(s);
  }

  lemma SettingsReturn(src: Fields, s: string, nested: Fields, steps: seq<Fields>)
    requires s == StrategyOf(src) && IsStrategy(s) && Merged(src, s, nested) && s !in src
    requires Grouped(Spread(src, s, FlattenAll(nested, GroupsOf(s))), GroupsOf(s), steps)
    ensures steps[|GroupsOf(s)|] == src <==> RoundTrips(Object(src))
  {
    var groups := GroupsOf(s);
    var z := steps[|groups|];
    forall g | g in groups ensures Restrict(z, g) == Restrict(src, g) <==> Clean(src, g) {
      var i :| 0 <= i < |groups| && groups[i] == g;
      LiftedGroup(src, s, nested, steps, i);
      CleanExact(src, g);
      GroupBack(Restrict(src, g), g, Restrict(z, g));
    }
    if RoundTrips(Object(src)) {
      forall key ensures SameAt(z, src, key) {
        if Unrelated(groups, key) {
          LiftedElsewhere(src, s, nested, steps, key);
        } else {
          var g :| g in groups && Related(g, key);
          assert SameAt(Restrict(z, g), Restrict(src, g), key);
        }
      }
      SameEverywhere(z, src);
    }
  }

  lemma SameEverywhere(a: Fields, b: Fields)
    requires forall key :: SameAt(a, b, key)
    ensures a == b
  {
    forall key ensures key in a <==> key in b {
      assert SameAt(a, b, key);
    }
    forall key | key in a ensures a[key] == b[key] {
      assert SameAt(a, b, key);
    }
  }

  /** Lifting a lowered block gives the block back exactly if the block round trips, whatever the order of the maps. */
  lemma RoundTripExact(x: Json, y: Json, z: Json)
    requires Lowered(x, y) && Lifted(y, z)
    ensures z == x <==> RoundTrips(x)
  {
    var nested :| LowersTo(x, nested, y);
    var steps :| LiftsTo(y, steps, z);
    if x.Object? {
      var src, s := x.fields, StrategyOf(x.fields);
      if IsStrategy(s) {
        var flat := FlattenAll(nested, GroupsOf(s));
        LoweredStrategy(src, s, flat);
        if flat == map[] {
          NothingFlat(src, s, nested);
        } else {
          assert y.fields[s] == Object(flat);
          if s in src {
            StrategyKeyLost(src, s, nested, steps);
          } else {
            SettingsReturn(src, s, nested, steps);
          }
        }
      } else if IsObject(src, s) {
        UnknownLifted(src, s, steps, z);
      }
    }
  }

  lemma UnknownLifted(src: Fields, s: string, steps: seq<Fields>, z: Json)
    requires s == StrategyOf(src) && !IsStrategy(s) && IsObject(src, s) && LiftsTo(Object(src), steps, z)
    ensures z != Object(src)
  {
    assert GroupsOf(s) == [];
    if s in src[s].fields {
      NotInItself(src[s].fields, s);
    }
  }

  /** The group is an object with an object under its enabled field. */
  ghost predicate ObjectFlag(cfg: Fields, group: string) {
    IsObject(cfg, group) && ENABLED in cfg[group].fields && cfg[group].fields[ENABLED].Object?
  }

  /** After lowering, a group is still an object exactly if its enabled field was one. */
  lemma StillObject(nested: Fields, groups: seq<string>, g: string)
    requires Plain(groups) && g in groups
    ensures IsObject(FlattenAll(nested, groups), g) <==> ObjectFlag(nested, g)
  {
    FlattenAllHere(nested, groups, g);
    var m := Restrict(nested, g);
    assert Related(g, g) && FieldOf(g, g) == ENABLED && FlatKey(g, ENABLED) == g;
    assert IsObject(FlattenAll(nested, groups), g) <==> IsObject(Restrict(FlattenAll(nested, groups), g), g);
    if IsObject(nested, g) {
      assert IsFlat(g, m[g].fields, g) <==> ENABLED in m[g].fields;
    }
  }

  lemma {:induction false} NothingToFlatten(cfg: Fields, groups: seq<string>)
    requires forall g :: g in groups ==> !IsObject(cfg, g)
    ensures FlattenAll(cfg, groups) == cfg
  {
    if groups != [] {
      assert groups[|groups| - 1] in groups;
      NothingToFlatten(cfg, groups[..|groups| - 1]);
    }
  }

  /** A lowered block merges to what it nests, in one way. */
  lemma LoweredMerges(src: Fields, s: string, flat: Fields, nested: Fields)
    requires s == StrategyOf(src) && IsStrategy(s)
    ensures Merged(Top(src, s)[s := Object(flat)], s, nested) ==>
            nested == flat && Top(Top(src, s)[s := Object(flat)], s) == Top(src, s) - {s}
    ensures Merged(Top(src, s), s, nested) ==> nested == map[] && Top(Top(src, s), s) == Top(src, s)
  {
  }

  /** In one run, lowering a lowered block changes nothing exactly if no group that was nested has such a flag. */
  lemma RelowersExactly(x: Json, nested: Fields, y: Json, nested': Fields, y': Json)
    requires LowersTo(x, nested, y) && LowersTo(y, nested', y')
    ensures y' == y <==> x.Object? && IsStrategy(StrategyOf(x.fields)) ==>
                         forall g :: g in GroupsOf(StrategyOf(x.fields)) ==> !ObjectFlag(nested, g)
  {
    if x.Object? && IsStrategy(StrategyOf(x.fields)) {
      var src, s := x.fields, StrategyOf(x.fields);
      var groups := GroupsOf(s);
      var flat := FlattenAll(nested, groups);
      GroupsPlain(s);
      LoweredStrategy(src, s, flat);
      LoweredMerges(src, s, flat, nested');
      forall g | g in groups
        ensures IsObject(flat, g) <==> ObjectFlag(nested, g)
      {
        StillObject(nested, groups, g);
      }
      if flat == map[] {
        FlattenEmpty(groups);
      } else {
        FlattenedChanges(flat, groups);
      }
    }
  }

  /** Spelling out groups changes a block exactly if one of them is an object. */
  lemma FlattenedChanges(cfg: Fields, groups: seq<string>)
    requires Plain(groups)
    ensures FlattenAll(cfg, groups) == cfg <==> forall g :: g in groups ==> !IsObject(cfg, g)
  {
    if g :| g in groups && IsObject(cfg, g) {
      FlattenAllHere(cfg, groups, g);
      var m := Restrict(cfg, g);
      FlatDiffers(m, g);
      assert FlattenAll(cfg, groups) == cfg ==> Restrict(FlattenAll(cfg, groups), g) == m;
    } else {
      NothingToFlatten(cfg, groups);
    }
  }

  lemma FlatDiffers(m: Fields, g: string)
    requires IsObject(m, g)
    ensures FlattenOne(m, g) != m
  {
    if g in FlattenOne(m, g) {
      assert IsFlat(g, m[g].fields, g);
      NotInItself(m[g].fields, ENABLED);
    }
  }

  /** Lowering the block again changes nothing, whatever the order of the maps. */
  ghost predicate Settles(x: Json) {
    forall y, y' :: Lowered(x, y) && Lowered(y, y') ==> y' == y
  }

  /** No group has such a flag, neither as a setting at the top nor in the sub-block. */
  ghost predicate PlainFlags(x: Json) {
    x.Object? && IsStrategy(StrategyOf(x.fields)) ==>
      var src, s := x.fields, StrategyOf(x.fields);
      forall g :: g in GroupsOf(s) ==> !ObjectFlag(src, g) && !ObjectFlag(SubBlock(src, s), g)
  }

  ghost function Settings(src: Fields): Fields {
    map key | key in src && IsSetting(src, key) :: src[key]
  }

  /** A setting that stands in two places can be taken from either. */
  lemma EitherCounts(src: Fields, s: string)
    ensures Merged(src, s, SubBlock(src, s) + Settings(src))
    ensures Merged(src, s, Settings(src) + SubBlock(src, s))
  {
  }

  /** Each choice of what is nested gives a lowered block. */
  lemma Lowers(x: Json, nested: Fields) returns (y: Json)
    requires x.Object? ==> Merged(x.fields, StrategyOf(x.fields), nested)
    ensures LowersTo(x, nested, y)
  {
    if x.Object? && IsStrategy(StrategyOf(x.fields)) {
      var s := StrategyOf(x.fields);
      var top, flat := Top(x.fields, s), FlattenAll(nested, GroupsOf(s));
      y := Object(if flat == map[] then top else top[s := Object(flat)]);
    } else {
      y := x;
    }
  }

  lemma SomeLowering(x: Json) returns (nested: Fields, y: Json)
    ensures LowersTo(x, nested, y)
  {
    nested := map[];
    if x.Object? {
      EitherCounts(x.fields, StrategyOf(x.fields));
      nested := Settings(x.fields) + SubBlock(x.fields, StrategyOf(x.fields));
    }
    y := Lowers(x, nested);
  }

  /** If the flag can be nested, some order of the maps makes the second lowering change the block. */
  lemma FlagUnsettles(x: Json, nested: Fields, g: string)
    requires x.Object? && IsStrategy(StrategyOf(x.fields)) && Merged(x.fields, StrategyOf(x.fields), nested)
    requires g in GroupsOf(StrategyOf(x.fields)) && ObjectFlag(nested, g)
    ensures !Settles(x)
  {
    var y := Lowers(x, nested);
    var nested', y' := SomeLowering(y);
    RelowersExactly(x, nested, y, nested', y');
    assert Lowered(x, y) && Lowered(y, y') && y' != y;
  }

  /** Lowering twice is lowering once exactly if no group has an object under its enabled field. */
  lemma LoweredTwice(x: Json)
    ensures Settles(x) <==> PlainFlags(x)
  {
    if PlainFlags(x) {
      forall y, y' | Lowered(x, y) && Lowered(y, y') ensures y' == y {
        var nested :| LowersTo(x, nested, y);
        var nested' :| LowersTo(y, nested', y');
        RelowersExactly(x, nested, y, nested', y');
      }
    } else {
      var src, s := x.fields, StrategyOf(x.fields);
      var g :| g in GroupsOf(s) && (ObjectFlag(src, g) || ObjectFlag(SubBlock(src, s), g));
      EitherCounts(src, s);
      GroupsPlain(s);
      if ObjectFlag(src, g) {
        assert g in Settings(src);
        FlagUnsettles(x, SubBlock(src, s) + Settings(src), g);
      } else {
        FlagUnsettles(x, Settings(src) + SubBlock(src, s), g);
      }
    }
  }

  /** A block with a flag for its TLS settings, and what lowering and lifting it, or lowering it twice, gives. */
  const PGVECTOR := Str("pgvector")

  ghost function WithTLS(ssl: Json): Json {
    Object(map["strategy" := PGVECTOR, "ssl" := ssl])
  }

  ghost function NestedTLS(ssl: Json): Json {
    Object(map["strategy" := PGVECTOR, "pgvector" := Object(map["ssl" := ssl])])
  }

  lemma TLSNests(x: Json, ssl: Json, nested: Fields)
    requires (x == WithTLS(ssl) || x == NestedTLS(ssl)) && Merged(x.fields, "pgvector", nested)
    ensures nested == map["ssl" := ssl] && Top(x.fields, "pgvector") == map["strategy" := PGVECTOR]
  {
    assert "ssl" != "pgvector" && "ssl" != "strategy" && "pgvector" != "strategy";
    if x == WithTLS(ssl) {
      assert IsSetting(x.fields, "ssl") && SubBlock(x.fields, "pgvector") == map[];
    } else {
      assert SubBlock(x.fields, "pgvector") == map["ssl" := ssl];
    }
    assert nested.Keys == {"ssl"};
  }

  lemma LoweredTLS(x: Json, ssl: Json, y: Json)
    requires (x == WithTLS(ssl) || x == NestedTLS(ssl)) && Lowered(x, y)
    requires ssl.Object? ==> ssl.fields.Keys == {ENABLED}
    ensures y == NestedTLS(if ssl.Object? then ssl.fields[ENABLED] else ssl)
  {
    assert StrategyOf(x.fields) == "pgvector" && GroupsOf("pgvector") == ["ssl"];
    var nested :| LowersTo(x, nested, y);
    TLSNests(x, ssl, nested);
    FlattenTLS(nested, ssl);
  }

  lemma FlattenTLS(nested: Fields, ssl: Json)
    requires nested == map["ssl" := ssl]
    requires ssl.Object? ==> ssl.fields.Keys == {ENABLED}
    ensures FlattenAll(nested, ["ssl"]) == map["ssl" := if ssl.Object? then ssl.fields[ENABLED] else ssl]
  {
    assert ["ssl"][..0] == [] && FlattenAll(nested, []) == nested;
    if ssl.Object? {
      var flat := FlatFields("ssl", ssl.fields);
      forall key ensures key in flat <==> key == "ssl" {
        assert IsFlat("ssl", ssl.fields, key) ==> FieldOf("ssl", key) == ENABLED;
      }
      assert nested - {"ssl"} == map[];
    }
  }

  /** A plain flag comes back as a group with that flag. */
  lemma FlagComesBackGrouped(y: Json, z: Json)
    requires Lowered(WithTLS(Str("on")), y) && Lifted(y, z)
    ensures z == WithTLS(Object(map[ENABLED := Str("on")]))
  {
    LoweredTLS(WithTLS(Str("on")), Str("on"), y);
    var steps :| LiftsTo(y, steps, z);
    var spread := (y.fields - {"pgvector"}) + y.fields["pgvector"].fields;
    assert spread == WithTLS(Str("on")).fields;
    assert GroupedStep(["ssl"], steps, 0);
    GroupTLS(spread, steps[1]);
  }

  lemma GroupTLS(spread: Fields, out: Fields)
    requires spread == WithTLS(Str("on")).fields && GroupedOne(spread, "ssl", out)
    ensures out == WithTLS(Object(map[ENABLED := Str("on")])).fields
  {
    var keys := set key | key in spread && Related("ssl", key);
    assert "strategy"[1] != ("ssl" + "_")[1];
    assert !Related("ssl", "strategy") && keys == {"ssl"};
    var fields := out["ssl"].fields;
    assert FieldOf("ssl", "ssl") in fields;
    forall field | field in fields ensures field == ENABLED && fields[field] == Str("on") {
      assert CollectedFrom(spread, "ssl", keys, field, fields[field]);
    }
    assert fields == map[ENABLED := Str("on")];
  }

  /** A flag in a flag is taken out only by the second lowering. */
  lemma FlagInFlagIsLoweredTwice(y: Json, y': Json)
    requires Lowered(WithTLS(Object(map[ENABLED := Object(map[ENABLED := Str("on")])])), y) && Lowered(y, y')
    ensures y == NestedTLS(Object(map[ENABLED := Str("on")])) && y' == NestedTLS(Str("on"))
  {
    var flag := Object(map[ENABLED := Str("on")]);
    LoweredTLS(WithTLS(Object(map[ENABLED := flag])), Object(map[ENABLED := flag]), y);
    LoweredTLS(NestedTLS(flag), flag, y');
  }
}
