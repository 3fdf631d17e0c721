/**
  Labels as tags (internal/aimap/tags.go, LabelsToTags and TagsToLabels).

  Most Kong entities have no labels, so a label becomes the tag "<prefix><key>:<value>". Reading
  takes any tag of that form for a label, cuts it at the first separator, and drops every other tag.
 */
module Labels {
  import opened Sequences
  import opened Sorting

  const SEPARATOR := ':'

  function Tag(prefix: string, key: string, value: string): string {
    prefix + key + [SEPARATOR] + value
  }

  /** A key that a tag can be cut at again. */
  predicate PlainKey(key: string) {
    key != "" && SEPARATOR !in key
  }

  /** The position of the first separator, or the length of s. */
  function FirstSeparator(s: string): (i: nat)
    ensures i <= |s| && SEPARATOR !in s[..i]
    ensures i < |s| ==> s[i] == SEPARATOR
  {
    if s == "" || s[0] == SEPARATOR then 0
    else
      assert forall i: nat :: i < |s| ==> s[..i + 1] == [s[0]] + s[1..][..i];
      FirstSeparator(s[1..]) + 1
  }

  /** The label that a tag is read as. */
  function Parse(prefix: string, tag: string): Option<(string, string)> {
    if !HasPrefix(tag, prefix) then None
    else
      var body := tag[|prefix|..];
      var i := FirstSeparator(body);
      if i == |body| || i == 0 then None else Some((body[..i], body[i + 1..]))
  }

  lemma CutOnce(a: string, b: string, c: string, d: string)
    requires SEPARATOR !in a && SEPARATOR !in c && a + [SEPARATOR] + b == c + [SEPARATOR] + d
    ensures a == c && b == d
  {
    var s, t := a + [SEPARATOR] + b, c + [SEPARATOR] + d;
    assert forall k :: 0 <= k < |a| ==> s[k] == a[k] && a[k] in a;
    assert forall k :: 0 <= k < |c| ==> t[k] == c[k] && c[k] in c;
    assert s[|a|] == SEPARATOR && t[|c|] == SEPARATOR;
    assert !(|a| < |c|) && !(|c| < |a|);
    assert s[..|a|] == a && t[..|a|] == c && s[|a| + 1..] == b && t[|a| + 1..] == d;
  }

  /** A tag is read as a label exactly if it is the tag of that label and the key is plain. */
  lemma ParseExact(prefix: string, tag: string, key: string, value: string)
    ensures Parse(prefix, tag) == Some((key, value)) <==> PlainKey(key) && tag == Tag(prefix, key, value)
  {
    if HasPrefix(tag, prefix) {
      var body := tag[|prefix|..];
      var i := FirstSeparator(body);
      assert tag == prefix + body;
      if i < |body| {
        assert body == body[..i] + [SEPARATOR] + body[i + 1..];
      }
    }
    if PlainKey(key) && tag == Tag(prefix, key, value) {
      TagParses(prefix, key, value);
    }
  }

  lemma TagParses(prefix: string, key: string, value: string)
    requires PlainKey(key)
    ensures Parse(prefix, Tag(prefix, key, value)) == Some((key, value))
  {
    var tag, rest := Tag(prefix, key, value), key + [SEPARATOR] + value;
    assert tag == prefix + rest;
    assert tag[..|prefix|] == prefix && tag[|prefix|..] == rest;
    var i := FirstSeparator(rest);
    assert rest[|key|] == SEPARATOR;
    assert rest == rest[..i] + [SEPARATOR] + rest[i + 1..];
    CutOnce(key, value, rest[..i], rest[i + 1..]);
  }

  // ---------------------------------------------------------------------------------------------
  // Writing
  // ---------------------------------------------------------------------------------------------

  ghost predicate Lists(keys: set<string>, s: seq<string>) {
    NoDup(s) && Elements(s) == keys && Sorted(s, ByName())
  }

  lemma {:induction false} CanList(keys: set<string>) returns (s: seq<string>)
    ensures Lists(keys, s)
  {
    s := [];
    if keys != {} {
      var k :| k in keys;
      var rest := CanList(keys - {k});
      NamesOrdered();
      var i := |rest|;
      while i > 0 && StringLess(k, rest[i - 1])
        invariant 0 <= i <= |rest| && (i < |rest| ==> StringLess(k, rest[i]))
      {
        i := i - 1;
      }
      InsertedSorted(rest, k, i, ByName());
      s := rest[..i] + [k] + rest[i..];
      Inserted(rest, k, i);
    }
  }

  lemma Inserted(s: seq<string>, x: string, i: nat)
    requires NoDup(s) && x !in Elements(s) && i <= |s|
    ensures NoDup(s[..i] + [x] + s[i..]) && Elements(s[..i] + [x] + s[i..]) == Elements(s) + {x}
  {
    var r := s[..i] + [x] + s[i..];
    assert s == s[..i] + s[i..];
    assert forall y :: y in r <==> y in s[..i] || y == x || y in s[i..];
    assert forall y :: y in s <==> y in s[..i] || y in s[i..];
    forall a, b | 0 <= a < b < |r| ensures r[a] != r[b] {
      assert a != i ==> r[a] == s[if a < i then a else a - 1];
      assert b != i ==> r[b] == s[if b < i then b else b - 1];
    }
  }

  /** The keys in order. */
  ghost function SortedKeys(keys: set<string>): (s: seq<string>)
    ensures Lists(keys, s)
  {
    assert exists s :: Lists(keys, s) by {
      var s := CanList(keys);
    }
    var s :| Lists(keys, s);
    s
  }

  function TagsOfKeys(prefix: string, labels: map<string, string>, keys: seq<string>): (tags: seq<string>)
    requires forall k :: k in keys ==> k in labels
    ensures |tags| == |keys|
  {
    seq(|keys|, i requires 0 <= i < |keys| => assert keys[i] in keys; Tag(prefix, keys[i], labels[keys[i]]))
  }

  /** The tags of labels, in the order of their keys. */
  ghost function LabelTags(prefix: string, labels: map<string, string>): (tags: seq<string>) {
    var keys := SortedKeys(labels.Keys);
    assert forall k :: k in keys ==> k in Elements(keys);
    TagsOfKeys(prefix, labels, keys)
  }

  /** The keys in the arbitrary order in which a map is visited. */
  method CollectKeys(keys: set<string>) returns (s: seq<string>)
    ensures NoDup(s) && forall k :: k in s <==> k in keys
  {
    s := [];
    var left := keys;
    while left != {}
      invariant left <= keys && NoDup(s) && forall k :: k in s <==> k in keys && k !in left
      decreases |left|
    {
      var k :| k in left;
      NoDupConcat(s, [k]);
      s, left := s + [k], left - {k};
    }
  }

  method ListKeys(keys: set<string>) returns (s: seq<string>)
    ensures s == SortedKeys(keys)
  {
    var unsorted := CollectKeys(keys);
    s := SortNames(unsorted);
    PermutationFacts(unsorted, s);
    assert Elements(s) == keys;
    SortedOnce(s, SortedKeys(keys));
  }

  method LabelsToTags(prefix: string, labels: map<string, string>) returns (tags: seq<string>)
    ensures tags == LabelTags(prefix, labels)
  {
    var keys := ListKeys(labels.Keys);
    assert forall k :: k in keys ==> k in Elements(keys);
    tags := [];
    for i := 0 to |keys|
      invariant tags == TagsOfKeys(prefix, labels, keys)[..i]
    {
      tags := tags + [Tag(prefix, keys[i], labels[keys[i]])];
    }
    TakeAll(TagsOfKeys(prefix, labels, keys));
  }

  /** The tags are exactly those of the labels. */
  lemma LabelTagsMean(prefix: string, labels: map<string, string>, tag: string)
    ensures tag in LabelTags(prefix, labels) <==> exists k :: k in labels && tag == Tag(prefix, k, labels[k])
  {
    var keys := SortedKeys(labels.Keys);
    if k :| k in labels && tag == Tag(prefix, k, labels[k]) {
      assert k in Elements(keys);
      var i :| 0 <= i < |keys| && keys[i] == k;
      assert LabelTags(prefix, labels)[i] == tag;
    }
    if tag in LabelTags(prefix, labels) {
      var i :| 0 <= i < |keys| && LabelTags(prefix, labels)[i] == tag;
      assert keys[i] in Elements(keys);
    }
  }

  /** There is one tag for each key, in the order of the keys. */
  lemma TagsListed(prefix: string, labels: map<string, string>) returns (keys: seq<string>)
    ensures NoDup(keys) && Sorted(keys, ByName()) && forall k :: k in keys <==> k in labels
    ensures |LabelTags(prefix, labels)| == |keys|
    ensures forall i :: 0 <= i < |keys| ==>
              keys[i] in keys && LabelTags(prefix, labels)[i] == prefix + keys[i] + ":" + labels[keys[i]]
  {
    keys := SortedKeys(labels.Keys);
    forall k ensures k in keys <==> k in labels {
      assert k in Elements(keys) <==> k in labels.Keys;
    }
  }

  // ---------------------------------------------------------------------------------------------
  // Reading
  // ---------------------------------------------------------------------------------------------

  /** The labels that tags are read as; of several with one key the last counts. */
  function Read(prefix: string, tags: seq<string>): map<string, string> {
    if tags == [] then map[]
    else
      var init, parsed := Read(prefix, tags[..|tags| - 1]), Parse(prefix, tags[|tags| - 1]);
      if parsed.None? then init else init[parsed.value.0 := parsed.value.1]
  }

  /** The tags that are not read as labels. */
  function Rest(prefix: string, tags: seq<string>): seq<string> {
    if tags == [] then []
    else Rest(prefix, tags[..|tags| - 1]) + if Parse(prefix, tags[|tags| - 1]).None? then [tags[|tags| - 1]] else []
  }

  method TagsToLabels(prefix: string, tags: seq<string>) returns (labels: map<string, string>, rest: seq<string>)
    ensures labels == Read(prefix, tags) && rest == Rest(prefix, tags)
  {
    labels, rest := map[], [];
    for i := 0 to |tags|
      invariant labels == Read(prefix, tags[..i]) && rest == Rest(prefix, tags[..i])
    {
      assert tags[..i + 1][..i] == tags[..i];
      var parsed := Parse(prefix, tags[i]);
      match parsed {
        case None => rest := rest + [tags[i]];
        case Some(pair) => labels := labels[pair.0 := pair.1];
      }
    }
    TakeAll(tags);
  }

  /** The tag is the prefix, a key without a separator, a separator, and the value. */
  ghost predicate Spells(prefix: string, tag: string, key: string, value: string) {
    key != "" && ':' !in key && tag == prefix + key + ":" + value
  }

  /** The last of the tags that spell a label of the key spells this value. */
  ghost predicate LastSpells(prefix: string, tags: seq<string>, key: string, value: string) {
    exists i :: 0 <= i < |tags| && Spells(prefix, tags[i], key, value) && SpelledBehind(prefix, tags, key, i)
  }

  ghost predicate SpelledBehind(prefix: string, tags: seq<string>, key: string, i: int) {
    forall j, v :: i < j < |tags| && 0 <= j ==> !Spells(prefix, tags[j], key, v)
  }

  lemma ParseSpells(prefix: string, tag: string)
    ensures forall key, value :: Parse(prefix, tag) == Some((key, value)) <==> Spells(prefix, tag, key, value)
  {
    forall key, value ensures Parse(prefix, tag) == Some((key, value)) <==> Spells(prefix, tag, key, value) {
      ParseExact(prefix, tag, key, value);
    }
  }

  /** A label is read from the last tag that spells its key. */
  lemma {:induction false} ReadsLast(prefix: string, tags: seq<string>, key: string, value: string)
    ensures key in Read(prefix, tags) && Read(prefix, tags)[key] == value <==> LastSpells(prefix, tags, key, value)
  {
    if tags != [] {
      var n := |tags| - 1;
      var init, last := tags[..n], tags[n];
      assert tags == init + [last];
      ReadsLast(prefix, init, key, value);
      ParseSpells(prefix, last);
      var parsed := Parse(prefix, last);
      if parsed.Some? && parsed.value.0 == key {
        assert Spells(prefix, tags[n], key, parsed.value.1);
        assert SpelledBehind(prefix, tags, key, n);
      } else {
        assert forall v :: !Spells(prefix, last, key, v);
        LastSpellsNext(prefix, init, last, key, value);
      }
    }
  }

  lemma LastSpellsNext(prefix: string, init: seq<string>, last: string, key: string, value: string)
    requires forall v :: !Spells(prefix, last, key, v)
    ensures LastSpells(prefix, init + [last], key, value) <==> LastSpells(prefix, init, key, value)
  {
    var tags := init + [last];
    forall i | 0 <= i < |init| ensures SpelledBehind(prefix, tags, key, i) <==> SpelledBehind(prefix, init, key, i) {
      assert forall j :: 0 <= j < |init| ==> tags[j] == init[j];
    }
    if LastSpells(prefix, init, key, value) {
      var i :| 0 <= i < |init| && Spells(prefix, init[i], key, value) && SpelledBehind(prefix, init, key, i);
      assert Spells(prefix, tags[i], key, value) && SpelledBehind(prefix, tags, key, i);
    }
    if LastSpells(prefix, tags, key, value) {
      var i :| 0 <= i < |tags| && Spells(prefix, tags[i], key, value) && SpelledBehind(prefix, tags, key, i);
      assert i < |init| && Spells(prefix, init[i], key, value) && SpelledBehind(prefix, init, key, i);
    }
  }

  /** The other tags are those that spell no label, in order. */
  lemma {:induction false} RestPicks(prefix: string, tags: seq<string>) returns (positions: seq<nat>)
    ensures Picks(tags, positions, Rest(prefix, tags))
    ensures forall i: nat ::
            i in positions <==> i < |tags| && forall key, value :: !Spells(prefix, tags[i], key, value)
  {
    positions := [];
    if tags != [] {
      var init, last := tags[..|tags| - 1], tags[|tags| - 1];
      assert tags == init + [last];
      positions := RestPicks(prefix, init);
      PicksNext(init, last, positions, Rest(prefix, init));
      ParseSpells(prefix, last);
      var parsed := Parse(prefix, last);
      if parsed.None? {
        positions := positions + [|init|];
      } else {
        assert Spells(prefix, last, parsed.value.0, parsed.value.1);
      }
    }
  }

  /** Of two tags with one key, the one behind does not have the smaller value. */
  ghost predicate Ascends(prefix: string, tags: seq<string>) {
    forall i, j :: 0 <= i < j < |tags| ==> InOrder(Parse(prefix, tags[i]), Parse(prefix, tags[j]))
  }

  ghost predicate InOrder(a: Option<(string, string)>, b: Option<(string, string)>) {
    a.Some? && b.Some? && a.value.0 == b.value.0 ==> !StringLess(b.value.1, a.value.1)
  }

  lemma {:induction false} LessBehind(head: string, a: string, b: string)
    ensures StringLess(head + a, head + b) <==> StringLess(a, b)
  {
    if head == "" {
      assert head + a == a && head + b == b;
    } else {
      LessBehind(head[1..], a, b);
      assert (head + a)[1..] == head[1..] + a && (head + b)[1..] == head[1..] + b;
    }
  }

  lemma SortedAscends(prefix: string, tags: seq<string>)
    requires Sorted(tags, ByName())
    ensures Ascends(prefix, tags)
  {
    forall i, j | 0 <= i < j < |tags| ensures InOrder(Parse(prefix, tags[i]), Parse(prefix, tags[j])) {
      var a, b := Parse(prefix, tags[i]), Parse(prefix, tags[j]);
      if a.Some? && b.Some? && a.value.0 == b.value.0 {
        ParseExact(prefix, tags[i], a.value.0, a.value.1);
        ParseExact(prefix, tags[j], b.value.0, b.value.1);
        var head := prefix + a.value.0 + [SEPARATOR];
        LessBehind(head, b.value.1, a.value.1);
        assert !ByName()(tags[j], tags[i]);
      }
    }
  }

  /** Some tag gives this label. */
  ghost predicate Gives(prefix: string, tags: seq<string>, key: string, value: string) {
    exists i :: 0 <= i < |tags| && Parse(prefix, tags[i]) == Some((key, value))
  }

  lemma GivesNext(prefix: string, tags: seq<string>, key: string, value: string)
    requires tags != []
    ensures Gives(prefix, tags, key, value) <==>
            Gives(prefix, tags[..|tags| - 1], key, value) || Parse(prefix, tags[|tags| - 1]) == Some((key, value))
  {
    var init := tags[..|tags| - 1];
    if Gives(prefix, init, key, value) {
      var i :| 0 <= i < |init| && Parse(prefix, init[i]) == Some((key, value));
      assert tags[i] == init[i];
    }
    if Gives(prefix, tags, key, value) {
      var i :| 0 <= i < |tags| && Parse(prefix, tags[i]) == Some((key, value));
      assert i < |init| ==> tags[i] == init[i];
    }
  }

  lemma ReadOnlyGiven(prefix: string, tags: seq<string>, key: string)
    ensures key in Read(prefix, tags) <==> exists v :: Gives(prefix, tags, key, v)
    ensures key in Read(prefix, tags) ==> Gives(prefix, tags, key, Read(prefix, tags)[key])
  {
    if tags != [] {
      ReadOnlyGiven(prefix, tags[..|tags| - 1], key);
      forall v ensures Gives(prefix, tags, key, v) <==>
          Gives(prefix, tags[..|tags| - 1], key, v) || Parse(prefix, tags[|tags| - 1]) == Some((key, v))
      {
        GivesNext(prefix, tags, key, v);
      }
    }
  }

  /** If tags of one key ascend, a key is read with its largest value. */
  lemma {:induction false} ReadLargest(prefix: string, tags: seq<string>, key: string, v: string)
    requires Ascends(prefix, tags) && Gives(prefix, tags, key, v)
    ensures key in Read(prefix, tags) && !StringLess(Read(prefix, tags)[key], v)
  {
    var n := |tags| - 1;
    var init := tags[..n];
    GivesNext(prefix, tags, key, v);
    assert forall i, j :: 0 <= i < j < n ==> init[i] == tags[i] && init[j] == tags[j];
    if Parse(prefix, tags[n]).Some? && Parse(prefix, tags[n]).value.0 == key {
      var i :| 0 <= i < |tags| && Parse(prefix, tags[i]) == Some((key, v));
      if i < n {
        assert InOrder(Parse(prefix, tags[i]), Parse(prefix, tags[n]));
      } else {
        NotLessThanItself(v);
      }
    } else {
      ReadLargest(prefix, init, key, v);
    }
  }

  /** The tags are read as exactly these labels: each is given, and nothing else or larger is. */
  ghost predicate GivesExactly(prefix: string, tags: seq<string>, labels: map<string, string>) {
    (forall k :: k in labels ==> Gives(prefix, tags, k, labels[k])) &&
    forall k, v :: Gives(prefix, tags, k, v) ==> k in labels && !StringLess(labels[k], v)
  }

  lemma ReadExact(prefix: string, tags: seq<string>, labels: map<string, string>)
    requires Ascends(prefix, tags)
    ensures Read(prefix, tags) == labels <==> GivesExactly(prefix, tags, labels)
  {
    var read := Read(prefix, tags);
    forall k ensures k in read <==> exists v :: Gives(prefix, tags, k, v) {
      ReadOnlyGiven(prefix, tags, k);
    }
    forall k | k in read ensures Gives(prefix, tags, k, read[k]) {
      ReadOnlyGiven(prefix, tags, k);
    }
    forall k, v | Gives(prefix, tags, k, v) ensures k in read && !StringLess(read[k], v) {
      ReadLargest(prefix, tags, k, v);
    }
    if GivesExactly(prefix, tags, labels) {
      forall k | k in read ensures k in labels && read[k] == labels[k] {
        LessTotal(read[k], labels[k]);
      }
    }
  }

  /** Labels come back from their tags exactly if their keys are plain. */
  lemma LabelsRoundTrip(prefix: string, labels: map<string, string>)
    ensures Read(prefix, LabelTags(prefix, labels)) == labels <==> forall k :: k in labels ==> PlainKey(k)
  {
    if forall k :: k in labels ==> PlainKey(k) {
      PlainAscends(prefix, labels, LabelTags(prefix, labels));
      ReadExact(prefix, LabelTags(prefix, labels), labels);
      PlainGiven(prefix, labels);
    } else {
      var k :| k in labels && !PlainKey(k);
      NotRead(prefix, LabelTags(prefix, labels), k);
    }
  }

  lemma PlainGiven(prefix: string, labels: map<string, string>)
    requires forall k :: k in labels ==> PlainKey(k)
    ensures GivesExactly(prefix, LabelTags(prefix, labels), labels)
  {
    var tags := LabelTags(prefix, labels);
    forall k | k in labels ensures Gives(prefix, tags, k, labels[k]) {
      LabelTagsMean(prefix, labels, Tag(prefix, k, labels[k]));
      TagParses(prefix, k, labels[k]);
    }
    forall k, v | Gives(prefix, tags, k, v) ensures k in labels && !StringLess(labels[k], v) {
      GivenByLabel(prefix, labels, tags, k, v);
      NotLessThanItself(v);
    }
  }

  /** Only plain keys are read. */
  lemma NotRead(prefix: string, tags: seq<string>, key: string)
    requires !PlainKey(key)
    ensures key !in Read(prefix, tags)
  {
    ReadOnlyGiven(prefix, tags, key);
    if v :| Gives(prefix, tags, key, v) {
      var i :| 0 <= i < |tags| && Parse(prefix, tags[i]) == Some((key, v));
      ParseExact(prefix, tags[i], key, v);
    }
  }

  /** With plain keys, what a tag of a label gives is that label. */
  lemma GivenByLabel(prefix: string, labels: map<string, string>, tags: seq<string>, k: string, v: string)
    requires (forall key :: key in labels ==> PlainKey(key)) && Gives(prefix, tags, k, v)
    requires forall tag :: tag in tags ==> tag in LabelTags(prefix, labels)
    ensures k in labels && v == labels[k]
  {
    var i :| 0 <= i < |tags| && Parse(prefix, tags[i]) == Some((k, v));
    assert tags[i] in tags;
    LabelTagsMean(prefix, labels, tags[i]);
    var key :| key in labels && tags[i] == Tag(prefix, key, labels[key]);
    TagParses(prefix, key, labels[key]);
  }

  /** Tags of labels with plain keys have a key of their own each. */
  lemma PlainAscends(prefix: string, labels: map<string, string>, tags: seq<string>)
    requires forall key :: key in labels ==> PlainKey(key)
    requires forall tag :: tag in tags ==> tag in LabelTags(prefix, labels)
    ensures Ascends(prefix, tags)
  {
    forall i, j | 0 <= i < j < |tags| ensures InOrder(Parse(prefix, tags[i]), Parse(prefix, tags[j])) {
      var a, b := Parse(prefix, tags[i]), Parse(prefix, tags[j]);
      if a.Some? && b.Some? && a.value.0 == b.value.0 {
        GivenByLabel(prefix, labels, tags, a.value.0, a.value.1);
        GivenByLabel(prefix, labels, tags, b.value.0, b.value.1);
        NotLessThanItself(a.value.1);
      }
    }
  }
}
