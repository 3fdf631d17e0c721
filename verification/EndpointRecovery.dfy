/**
  Which endpoint a route was built for (revert/endpoints.go).

  The reverter narrows the endpoints of a section by route type, route name, category and path. A
  filter that would leave nothing does not apply. The routes that the converter builds keep their
  endpoint through every filter, also under a numbered route name, in whatever order the table is
  enumerated.
 */
module EndpointRecovery {
  import opened Sequences
  import opened Sorting
  import opened Endpoints
  import opened UniqueNames

  datatype Candidate = Candidate(capability: string, spec: EndpointSpec, secondary: bool)

  /** The endpoint found, with the other capabilities whose endpoint is equal. */
  datatype EndpointMatch = EndpointMatch(endpoint: Candidate, ties: seq<string>)

  /** What a route and its target tell about their endpoint. */
  datatype Evidence = Evidence(section: string, routeType: string, genaiCategory: string,
                               routeName: string, routePath: string)

  predicate NameFits(e: Evidence, c: Candidate) {
    e.routeName == e.section + "-" + c.spec.routeLabel || HasSuffix(e.routeName, "-" + c.spec.routeLabel)
  }

  predicate PathFits(matchesAll: PatternMatcher, e: Evidence, c: Candidate) {
    BasePathFor(matchesAll, e.routePath, c.spec).Some?
  }

  function OfType(e: Evidence): Candidate -> bool {
    (c: Candidate) => c.spec.routeType == e.routeType
  }

  function OfName(e: Evidence): Candidate -> bool {
    (c: Candidate) => NameFits(e, c)
  }

  function OfCategory(e: Evidence): Candidate -> bool {
    (c: Candidate) => c.spec.genaiCategory == e.genaiCategory
  }

  function OfPath(matchesAll: PatternMatcher, e: Evidence): Candidate -> bool {
    (c: Candidate) => PathFits(matchesAll, e, c)
  }

  function OfNameOrPath(matchesAll: PatternMatcher, e: Evidence): Candidate -> bool {
    (c: Candidate) => NameFits(e, c) || PathFits(matchesAll, e, c)
  }

  function Filter<T(!new)>(s: seq<T>, keep: T -> bool): (r: seq<T>)
    ensures forall x :: x in r <==> x in s && keep(x)
    ensures (forall x :: x in s ==> !keep(x)) ==> r == []
  {
    if s == [] then [] else
      assert s == s[..|s| - 1] + [s[|s| - 1]];
      Filter(s[..|s| - 1], keep) + if keep(s[|s| - 1]) then [s[|s| - 1]] else []
  }

  /** Keeps the elements that pass, unless none does. */
  function Narrow<T(!new)>(s: seq<T>, keep: T -> bool): (r: seq<T>)
    ensures s != [] ==> r != []
    ensures forall x :: x in r ==> x in s
  {
    if |s| <= 1 || Filter(s, keep) == [] then s else Filter(s, keep)
  }

  /** An element survives when it passes, or when nothing else passes either. */
  lemma SurvivesNarrow<T(!new)>(s: seq<T>, keep: T -> bool, x: T)
    requires x in s
    requires keep(x) || forall y :: y in s ==> !keep(y)
    ensures x in Narrow(s, keep)
  {
  }

  /** The endpoints of the section to start from. */
  function Starting(matchesAll: PatternMatcher, table: seq<Candidate>, e: Evidence): seq<Candidate> {
    var typed := Filter(table, OfType(e));
    if typed != [] then typed else Filter(table, OfNameOrPath(matchesAll, e))
  }

  function Narrowed(matchesAll: PatternMatcher, cands: seq<Candidate>, e: Evidence): seq<Candidate> {
    var byName := Narrow(cands, OfName(e));
    var byCategory := if e.genaiCategory != "" then Narrow(byName, OfCategory(e))
                      else byName;
    Narrow(byCategory, OfPath(matchesAll, e))
  }

  // ---------------------------------------------------------------------------------------------
  // The search
  // ---------------------------------------------------------------------------------------------

  function ByCapability(): (Candidate, Candidate) -> bool {
    (a: Candidate, b: Candidate) => StringLess(a.capability, b.capability)
  }

  lemma CapabilitiesOrdered()
    ensures WeakOrder(ByCapability())
  {
    forall a, b | ByCapability()(a, b) ensures !ByCapability()(b, a) {
      LessAsymmetric(a.capability, b.capability);
    }
    forall a, b, c | !ByCapability()(b, a) && !ByCapability()(c, b) ensures !ByCapability()(c, a) {
      LessTransitive(a.capability, b.capability, c.capability);
    }
  }

  /** The first survivor, with the capabilities of the survivors whose endpoint equals its own. */
  function Pick(survivors: seq<Candidate>): Option<EndpointMatch> {
    if survivors == [] then None
    else Some(EndpointMatch(survivors[0], Ties(survivors[0], survivors[1..])))
  }

  function Ties(first: Candidate, rest: seq<Candidate>): (ties: seq<string>)
    ensures forall cap :: cap in ties <==>
              cap != first.capability && exists c :: c in rest && c.capability == cap && c.spec == first.spec
  {
    if rest == [] then [] else
      var ties, c := Ties(first, rest[..|rest| - 1]), rest[|rest| - 1];
      assert rest == rest[..|rest| - 1] + [c];
      if c.capability != first.capability && c.spec == first.spec && c.capability !in ties then ties + [c.capability]
      else ties
  }

  /**
    Resolves the endpoint of a route. table lists the endpoints of the section in any order; the sort
    leaves the order of candidates with one capability open.
   */
  method ResolveEndpoint(matchesAll: PatternMatcher, table: seq<Candidate>, e: Evidence)
    returns (found: Option<EndpointMatch>)
    ensures IsMatch(matchesAll, table, e, found)
  {
    var cands := Filter(table, OfType(e));
    if |cands| == 0 {
      cands := Filter(table, OfNameOrPath(matchesAll, e));
    }
    CapabilitiesOrdered();
    cands := SortBy(cands, ByCapability());
    ghost var sorted := cands;
    cands := Narrow(cands, OfName(e));
    if e.genaiCategory != "" {
      cands := Narrow(cands, OfCategory(e));
    }
    cands := Narrow(cands, OfPath(matchesAll, e));
    assert cands == Narrowed(matchesAll, sorted, e);
    if |cands| == 0 {
      found := None;
    } else {
      var ties := CollectTies(cands);
      found := Some(EndpointMatch(cands[0], ties));
    }
    assert found == Pick(Narrowed(matchesAll, sorted, e));
  }

  /** found is the first survivor, with its ties, for some order in which the candidates can be sorted. */
  ghost predicate IsMatch(matchesAll: PatternMatcher, table: seq<Candidate>, e: Evidence,
      found: Option<EndpointMatch>) {
    exists sorted :: IsPermutation(sorted, Starting(matchesAll, table, e)) && Sorted(sorted, ByCapability()) &&
                     found == Pick(Narrowed(matchesAll, sorted, e))
  }

  method CollectTies(cands: seq<Candidate>) returns (ties: seq<string>)
    requires cands != []
    ensures ties == Ties(cands[0], cands[1..])
  {
    ties := [];
    ghost var rest, seen: seq<Candidate> := cands[1..], [];
    for i := 1 to |cands|
      invariant seen == rest[..i - 1] && ties == Ties(cands[0], seen)
    {
      var c := cands[i];
      assert (seen + [c])[..|seen|] == seen;
      if c.capability != cands[0].capability && c.spec == cands[0].spec && c.capability !in ties {
        ties := ties + [c.capability];
      }
      TakeSnoc(rest, i - 1);
      seen := seen + [c];
    }
    TakeAll(rest);
  }

  // ---------------------------------------------------------------------------------------------
  // Routes that the converter builds
  // ---------------------------------------------------------------------------------------------

  predicate IsDigit(c: char) {
    '0' <= c <= '9'
  }

  /** No label ends in a digit, so no numbered route name ends in a label. */
  predicate LabelsEndInLetters(table: seq<Candidate>) {
    forall c :: c in table ==> c.spec.routeLabel != "" && !IsDigit(c.spec.routeLabel[|c.spec.routeLabel| - 1])
  }

  /** The route labels of the endpoint table. */
  const ROUTE_LABELS: set<string> := {
    "chat", "responses", "realtime", "embeddings", "images", "images-edits", "audio-speech",
    "audio-transcribe", "audio-translate", "videos", "batches", "files", "skills",
    "messages",
    "converse", "invoke", "retrieve", "rerank",
    "beta-responses", "enterprise-responses", "enterprise-beta-responses", "generate",
    "enterprise-generate", "enterprise-embeddings", "predict", "predict-long-running", "ranking",
    "enterprise-batches",
    "decisions"
  }

  lemma RouteLabelsEndInLetters(table: seq<Candidate>)
    requires forall c :: c in table ==> c.spec.routeLabel in ROUTE_LABELS
    ensures LabelsEndInLetters(table)
  {
  }

  /** e is what a route built for c under some base path shows; its name is numbered when the plain name was taken. */
  ghost predicate BuiltFor(c: Candidate, base: string, e: Evidence) {
    e.routeType == c.spec.routeType && e.genaiCategory == c.spec.genaiCategory &&
    e.routePath == RoutePath(base, c.spec) &&
    (e.routeName == e.section + "-" + c.spec.routeLabel ||
     exists n :: n >= 2 && e.routeName == Numbered(e.section + "-" + c.spec.routeLabel, n))
  }

  lemma NumberedNameFitsNone(table: seq<Candidate>, e: Evidence, base: string, n: nat, c: Candidate)
    requires LabelsEndInLetters(table) && c in table && e.routeName == Numbered(base, n)
    ensures !NameFits(e, c)
  {
    var last := e.routeName[|e.routeName| - 1];
    assert last == Decimal(n)[|Decimal(n)| - 1] && IsDigit(last);
    var own := c.spec.routeLabel;
    var plain := e.section + "-" + own;
    assert plain[|plain| - 1] == own[|own| - 1];
    SuffixLast(e.routeName, "-" + own);
  }

  lemma SuffixLast(s: string, t: string)
    requires t != ""
    ensures HasSuffix(s, t) ==> s[|s| - 1] == t[|t| - 1]
  {
    if HasSuffix(s, t) {
      assert s[|s| - |t|..][|t| - 1] == s[|s| - 1];
    }
  }

  /** The endpoint that a route was built for survives every filter. */
  lemma GeneratorSurvives(matchesAll: PatternMatcher, table: seq<Candidate>, sorted: seq<Candidate>,
                          c: Candidate, base: string, e: Evidence)
    requires LabelsEndInLetters(table) && c in table && BuiltFor(c, base, e)
    requires IsPermutation(sorted, Starting(matchesAll, table, e))
    ensures c in Narrowed(matchesAll, sorted, e)
  {
    assert OfType(e)(c);
    PermutationFacts(sorted, Starting(matchesAll, table, e));
    forall y | y in sorted ensures y in table && OfType(e)(y) {
    }
    var byName := Narrow(sorted, OfName(e));
    if e.routeName != e.section + "-" + c.spec.routeLabel {
      var n :| n >= 2 && e.routeName == Numbered(e.section + "-" + c.spec.routeLabel, n);
      forall y | y in sorted ensures !OfName(e)(y) {
        NumberedNameFitsNone(table, e, e.section + "-" + c.spec.routeLabel, n, y);
      }
    }
    SurvivesNarrow(sorted, OfName(e), c);
    if e.genaiCategory != "" {
      SurvivesNarrow(byName, OfCategory(e), c);
    }
    var byCategory := if e.genaiCategory != "" then Narrow(byName, OfCategory(e)) else byName;
    RecoverySucceeds(matchesAll, base, c.spec);
    SurvivesNarrow(byCategory, OfPath(matchesAll, e), c);
  }

  /**
    d fits all that the route built for c tells: its type, its category, its path, and its name unless it is
    numbered.
   */
  ghost predicate Rival(matchesAll: PatternMatcher, c: Candidate, e: Evidence, d: Candidate) {
    d.spec.routeType == c.spec.routeType && PathFits(matchesAll, e, d) &&
    (e.genaiCategory != "" ==> d.spec.genaiCategory == e.genaiCategory) &&
    (e.routeName == e.section + "-" + c.spec.routeLabel ==> NameFits(e, d))
  }

  /**
    The search succeeds on every route that the converter builds, on an endpoint that fits all that
    the route tells. It is equal to the generating endpoint if no other one fits, and then the
    generating capability is the match or one of its ties.
   */
  lemma BuiltRoutesResolve(matchesAll: PatternMatcher, table: seq<Candidate>,
                           c: Candidate, base: string, e: Evidence, found: Option<EndpointMatch>)
    requires LabelsEndInLetters(table) && c in table && BuiltFor(c, base, e)
    requires IsMatch(matchesAll, table, e, found)
    ensures found.Some? && found.value.endpoint in table && found.value.endpoint.spec.routeType == c.spec.routeType
    ensures Rival(matchesAll, c, e, found.value.endpoint)
    ensures (forall d :: d in table && Rival(matchesAll, c, e, d) ==> d.spec == c.spec) ==>
            found.value.endpoint.spec == c.spec
    ensures found.value.endpoint.spec == c.spec ==>
              c.capability == found.value.endpoint.capability || c.capability in found.value.ties
  {
    var sorted :| IsPermutation(sorted, Starting(matchesAll, table, e)) && Sorted(sorted, ByCapability()) &&
                  found == Pick(Narrowed(matchesAll, sorted, e));
    GeneratorSurvives(matchesAll, table, sorted, c, base, e);
    PickFinds(Narrowed(matchesAll, sorted, e), c);
    SurvivorsFit(matchesAll, table, sorted, c, base, e, found.value.endpoint);
  }

  lemma PickFinds(survivors: seq<Candidate>, c: Candidate)
    requires c in survivors
    ensures Pick(survivors).Some? && Pick(survivors).value.endpoint in survivors
    ensures Pick(survivors).value.endpoint.spec == c.spec ==>
              c.capability == Pick(survivors).value.endpoint.capability || c.capability in Pick(survivors).value.ties
  {
    assert survivors == [survivors[0]] + survivors[1..];
    assert survivors[0] in survivors;
  }

  /** Every survivor is an endpoint of the table that fits all that the route tells. */
  lemma SurvivorsFit(matchesAll: PatternMatcher, table: seq<Candidate>, sorted: seq<Candidate>,
                     c: Candidate, base: string, e: Evidence, first: Candidate)
    requires c in table && BuiltFor(c, base, e) && IsPermutation(sorted, Starting(matchesAll, table, e))
    requires c in Narrowed(matchesAll, sorted, e) && first in Narrowed(matchesAll, sorted, e)
    ensures first in table && Rival(matchesAll, c, e, first)
  {
    PermutationFacts(sorted, Starting(matchesAll, table, e));
    assert OfType(e)(c);
    RecoverySucceeds(matchesAll, base, c.spec);
    var byName := Narrow(sorted, OfName(e));
    var byCategory := if e.genaiCategory != "" then Narrow(byName, OfCategory(e)) else byName;
    if e.routeName == e.section + "-" + c.spec.routeLabel {
      SurvivorsPass(sorted, OfName(e), c);
    }
    if e.genaiCategory != "" {
      SurvivorsPass(byName, OfCategory(e), c);
    }
    SurvivorsPass(byCategory, OfPath(matchesAll, e), c);
  }

  /** Once one survivor passes a filter, every survivor does. */
  lemma SurvivorsPass<T(!new)>(s: seq<T>, keep: T -> bool, x: T)
    requires x in Narrow(s, keep) && keep(x)
    ensures forall y :: y in Narrow(s, keep) ==> keep(y)
  {
    if |s| > 1 {
      assert x in Filter(s, keep);
    }
  }
  // ---------------------------------------------------------------------------------------------
  // Entries that no other entry is taken for
  // ---------------------------------------------------------------------------------------------

  /** The plain route name of c ends in the label of d too. */
  predicate LabelFits(section: string, c: EndpointSpec, d: EndpointSpec) {
    var plain := section + "-" + c.routeLabel;
    plain == section + "-" + d.routeLabel || HasSuffix(plain, "-" + d.routeLabel)
  }

  /** No path built for c ends in the suffix of d, which is literal text and the shorter one. */
  predicate SuffixDiffers(c: EndpointSpec, d: EndpointSpec) {
    !d.isRegex && 0 < |d.pathSuffix| <= |Suffix(c)| && !HasSuffix(Suffix(c), d.pathSuffix)
  }

  /** Equal to c, or told from c by its type, its category, the end of its path, or its label under the plain name. */
  predicate ToldFrom(section: string, plain: bool, c: EndpointSpec, d: EndpointSpec) {
    d == c || d.routeType != c.routeType || (c.genaiCategory != "" && d.genaiCategory != c.genaiCategory) ||
    SuffixDiffers(c, d) || (plain && !LabelFits(section, c, d))
  }

  lemma OtherSuffix(matchesAll: PatternMatcher, base: string, c: EndpointSpec, d: EndpointSpec)
    requires SuffixDiffers(c, d)
    ensures BasePathFor(matchesAll, RoutePath(base, c), d).None?
  {
    var path, own, other := RoutePath(base, c), Suffix(c), d.pathSuffix;
    var head := if RegexBase(base) || c.isRegex then "~" + Body(base, c) else Body(base, c);
    assert path == head + own;
    SuffixOfConcat(head, own, other);
  }

  lemma SuffixOfConcat(head: string, own: string, other: string)
    requires |other| <= |own|
    ensures HasSuffix(head + own, other) <==> HasSuffix(own, other)
  {
    assert (head + own)[|head + own| - |other|..] == own[|own| - |other|..];
  }

  /**
    A route gives back the endpoint that it was built for, if every entry of the section is equal to
    that or told from it; the label helps only where the route has its plain name.
   */
  lemma ToldRoutesResolve(matchesAll: PatternMatcher, table: seq<Candidate>, c: Candidate, base: string, e: Evidence,
                          found: Option<EndpointMatch>)
    requires LabelsEndInLetters(table) && c in table && BuiltFor(c, base, e) && IsMatch(matchesAll, table, e, found)
    requires forall d :: d in table ==>
               ToldFrom(e.section, e.routeName == e.section + "-" + c.spec.routeLabel, c.spec, d.spec)
    ensures found.Some? && found.value.endpoint.spec == c.spec
  {
    BuiltRoutesResolve(matchesAll, table, c, base, e, found);
    forall d | d in table && Rival(matchesAll, c, e, d) ensures d.spec == c.spec {
      if SuffixDiffers(c.spec, d.spec) {
        OtherSuffix(matchesAll, base, c.spec, d.spec);
      }
    }
  }

  function Spec(name: string, suffix: string, routeType: string, category: string, other: string): EndpointSpec {
    EndpointSpec(name, suffix, false, routeType, category, other)
  }

  /** The endpoints of the openai section. */
  const OPENAI: seq<EndpointSpec> := [
    Spec("chat", "/chat/completions", "llm/v1/chat", "text/generation", "post body stats"),
    Spec("responses", "/responses", "llm/v1/responses", "text/generation", "post body stats"),
    Spec("realtime", "/realtime", "realtime/v1/realtime", "realtime/generation", "stats"),
    Spec("embeddings", "/embeddings", "llm/v1/embeddings", "text/embeddings", "post body stats"),
    Spec("images", "/images/generations", "image/v1/images/generations", "image/generation", "post body stats"),
    Spec("images-edits", "/images/edits", "image/v1/images/edits", "image/generation", "post body stats"),
    Spec("audio-speech", "/audio/speech", "audio/v1/audio/speech", "audio/speech", "post body"),
    Spec("audio-transcribe", "/audio/transcriptions", "audio/v1/audio/transcriptions", "audio/transcription",
         "post body"),
    Spec("audio-translate", "/audio/translations", "audio/v1/audio/translations", "audio/transcription", "post body"),
    Spec("videos", "/videos", "video/v1/videos/generations", "video/generation", "post body stats"),
    Spec("batches", "/batches", "llm/v1/batches", "text/generation", "get post"),
    Spec("files", "/files", "llm/v1/files", "text/generation", "get post delete stats"),
    Spec("skills", "/skills", "llm/v1/skills", "text/generation", "get post delete")]

  /** Where a route type of the openai section stands: its length and its first letter tell. */
  function Place(routeType: string): int {
    match |routeType|
    case 11 => 0
    case 16 => 1
    case 20 => 2
    case 17 => 3
    case 27 => if routeType[0] == 'i' then 4 else if routeType[0] == 'a' then 8 else 9
    case 21 => if routeType[0] == 'i' then 5 else 6
    case 29 => 7
    case 14 => 10
    case 12 => 11
    case _ => 12
  }

  lemma OpenAIPlaces(i: nat)
    requires i < |OPENAI|
    ensures Place(OPENAI[i].routeType) == i
  {
  }

  lemma OpenAITypesDiffer(c: EndpointSpec, d: EndpointSpec)
    requires c in OPENAI && d in OPENAI && c.routeType == d.routeType
    ensures c == d
  {
    var i :| 0 <= i < |OPENAI| && OPENAI[i] == c;
    var j :| 0 <= j < |OPENAI| && OPENAI[j] == d;
    OpenAIPlaces(i);
    OpenAIPlaces(j);
  }

  lemma OpenAILabels(table: seq<Candidate>)
    requires forall d :: d in table ==> d.spec in OPENAI
    ensures LabelsEndInLetters(table)
  {
  }

  /** In the openai section every route gives back its endpoint, whatever its base path and name. */
  lemma OpenAIResolves(matchesAll: PatternMatcher, table: seq<Candidate>, c: Candidate, base: string, e: Evidence,
                       found: Option<EndpointMatch>)
    requires (forall d :: d in table ==> d.spec in OPENAI) && c in table && BuiltFor(c, base, e)
    requires IsMatch(matchesAll, table, e, found)
    ensures found.Some? && found.value.endpoint.spec == c.spec
  {
    OpenAILabels(table);
    forall d | d in table && d.spec.routeType == c.spec.routeType ensures d.spec == c.spec {
      OpenAITypesDiffer(c.spec, d.spec);
    }
    ToldRoutesResolve(matchesAll, table, c, base, e, found);
  }
}
