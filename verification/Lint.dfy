/**
  The route-conflict lint (convert/lint.go).

  Two output routes conflict when one request can match both. The source decides this on the
  matchers alone; here `Matches` says what a request is and when a route accepts it, and the
  lemmas show that the decision is exact.

  Two kinds of matcher stay opaque, as they do in the source: a path matches the requests filed
  under that very path, and a header regex ("~...") or an address that does not parse stands for
  a class of values of its own. Letter case is folded for ASCII letters.
 */
module Lint {
  import opened Sequences
  import opened Issues

  // ---------------------------------------------------------------------------------------------
  // Routes
  // ---------------------------------------------------------------------------------------------

  datatype CIDRPort = CIDRPort(ip: string, port: Option<int>)

  datatype Route = Route(
    name: string,
    protocols: seq<string>,
    methods: seq<string>,
    paths: seq<string>,
    hosts: seq<string>,
    snis: seq<string>,
    headers: map<string, seq<string>>,
    sources: seq<CIDRPort>,
    destinations: seq<CIDRPort>,
    tags: seq<string>,
    settings: string) // every other field but the plugins and the source

  datatype Family = V4 | V6

  function Width(f: Family): nat {
    if f.V4? then 32 else 128
  }

  datatype RawPrefix = Prefix(family: Family, bits: seq<bool>)

  /** A CIDR range: the leading bits that an address must have (section 3.1 of RFC 4632). */
  type Prefix = p: RawPrefix | |p.bits| <= Width(p.family) witness Prefix(V4, [])

  /** How addresses are read: a range or a single address, or None for text that is neither. */
  type Parser = string -> Option<Prefix>

  // ---------------------------------------------------------------------------------------------
  // The decision of the source
  // ---------------------------------------------------------------------------------------------

  function LowerChar(c: char): char {
    if 'A' <= c <= 'Z' then c + 32 as char else c
  }

  function Lower(s: string): (r: string)
    ensures |r| == |s|
  {
    seq(|s|, i requires 0 <= i < |s| => LowerChar(s[i]))
  }

  predicate EqualFold(a: string, b: string) {
    Lower(a) == Lower(b)
  }

  predicate Leading(p: string) {
    |p| > 0 && p[0] == '*'
  }

  predicate Trailing(p: string) {
    |p| > 0 && p[|p| - 1] == '*'
  }

  /** The pattern without its leading wildcard. */
  function SuffixOf(p: string): string {
    if Leading(p) then p[1..] else p
  }

  /** The pattern without its trailing wildcard. */
  function PrefixOf(p: string): string {
    if Trailing(p) then p[..|p| - 1] else p
  }

  predicate HostsOverlap(x: string, y: string) {
    PatternsOverlap(Lower(x), Lower(y))
  }

  predicate PatternsOverlap(a: string, b: string) {
    if Leading(a) && Leading(b) then
      HasSuffix(SuffixOf(a), SuffixOf(b)) || HasSuffix(SuffixOf(b), SuffixOf(a))
    else if Trailing(a) && Trailing(b) then
      HasPrefix(PrefixOf(a), PrefixOf(b)) || HasPrefix(PrefixOf(b), PrefixOf(a))
    else if (Leading(a) && Trailing(b)) || (Trailing(a) && Leading(b)) then true
    else if Leading(a) then HasSuffix(b, SuffixOf(a))
    else if Trailing(a) then HasPrefix(b, PrefixOf(a))
    else if Leading(b) then HasSuffix(a, SuffixOf(b))
    else if Trailing(b) then HasPrefix(a, PrefixOf(b))
    else a == b
  }

  /** An empty list matches every value. */
  predicate ListsOverlap<T(==)>(a: seq<T>, b: seq<T>, overlap: (T, T) -> bool) {
    a == [] || b == [] || exists x, y :: x in a && y in b && overlap(x, y)
  }

  predicate IsRegex(v: string) {
    |v| > 0 && v[0] == '~'
  }

  predicate HeaderValuesOverlap(a: string, b: string) {
    if IsRegex(a) || IsRegex(b) then a == b else EqualFold(a, b)
  }

  /** A header that only one route sets does not limit the other. */
  predicate HeadersOverlap(a: map<string, seq<string>>, b: map<string, seq<string>>) {
    forall nameA, nameB :: nameA in a && nameB in b && EqualFold(nameA, nameB) ==>
      ListsOverlap(a[nameA], b[nameB], HeaderValuesOverlap)
  }

  predicate PrefixesOverlap(p: Prefix, q: Prefix) {
    var shared := if |p.bits| < |q.bits| then |p.bits| else |q.bits|;
    p.family == q.family && p.bits[..shared] == q.bits[..shared]
  }

  predicate CIDRPortsOverlap(parse: Parser, a: CIDRPort, b: CIDRPort) {
    if a.port.Some? && b.port.Some? && a.port != b.port then false
    else if a.ip == "" || b.ip == "" then true
    else
      var p, q := parse(a.ip), parse(b.ip);
      if p.None? || q.None? then a.ip == b.ip else PrefixesOverlap(p.value, q.value)
  }

  function CIDROverlap(parse: Parser): (CIDRPort, CIDRPort) -> bool {
    (a, b) => CIDRPortsOverlap(parse, a, b)
  }

  predicate Same<T(==)>(x: T, y: T) {
    x == y
  }

  const DEFAULT_PROTOCOLS := ["http", "https"]

  function ProtocolsOrDefault(protocols: seq<string>): seq<string> {
    if protocols == [] then DEFAULT_PROTOCOLS else protocols
  }

  predicate RoutesOverlap(parse: Parser, a: Route, b: Route) {
    ListsOverlap(ProtocolsOrDefault(a.protocols), ProtocolsOrDefault(b.protocols), EqualFold) &&
    ListsOverlap(a.methods, b.methods, EqualFold) &&
    ListsOverlap(a.paths, b.paths, Same) &&
    ListsOverlap(a.hosts, b.hosts, HostsOverlap) &&
    ListsOverlap(a.snis, b.snis, HostsOverlap) &&
    HeadersOverlap(a.headers, b.headers) &&
    ListsOverlap(a.sources, b.sources, CIDROverlap(parse)) &&
    ListsOverlap(a.destinations, b.destinations, CIDROverlap(parse))
  }

  /** Whether each value of a is in b. An empty b matches every value, an empty a only that. */
  predicate ListWithin<T(==)>(a: seq<T>, b: seq<T>, equal: (T, T) -> bool) {
    b == [] || (a != [] && forall x :: x in a ==> exists y :: y in b && equal(x, y))
  }

  predicate HeadersWithin(a: map<string, seq<string>>, b: map<string, seq<string>>) {
    forall nameB :: nameB in b ==>
      exists nameA :: nameA in a && EqualFold(nameA, nameB) && ListWithin(a[nameA], b[nameB], HeaderValuesOverlap)
  }

  predicate AddsMatcher(specific: Route, general: Route) {
    (general.hosts == [] && specific.hosts != []) || |specific.headers| > |general.headers|
  }

  predicate Refines(specific: Route, general: Route) {
    AddsMatcher(specific, general) &&
    ListWithin(ProtocolsOrDefault(specific.protocols), ProtocolsOrDefault(general.protocols), EqualFold) &&
    ListWithin(specific.methods, general.methods, EqualFold) &&
    ListWithin(specific.paths, general.paths, Same) &&
    ListWithin(specific.hosts, general.hosts, EqualFold) &&
    ListWithin(specific.snis, general.snis, EqualFold) &&
    ListWithin(specific.sources, general.sources, Same) &&
    ListWithin(specific.destinations, general.destinations, Same) &&
    HeadersWithin(specific.headers, general.headers)
  }

  // ---------------------------------------------------------------------------------------------
  // Requests
  // ---------------------------------------------------------------------------------------------

  datatype RawAddress = Network(family: Family, bits: seq<bool>) | Unparsed(text: string)

  /** A network address, or an address known only by an unparsed route entry. */
  type Address = a: RawAddress | a.Network? ==> |a.bits| == Width(a.family) witness Unparsed("")

  datatype Peer = Peer(address: Address, port: int)

  /** The value of a request header: plain text without regard to case, or a member of the class of a regex. */
  datatype HeaderValue = Text(lower: string) | OfRegex(regex: string)

  datatype Request = Request(
    protocol: string,
    verb: string,
    path: string,
    host: string,
    sni: string,
    headers: map<string, HeaderValue>, // by lower-case name
    source: Peer,
    destination: Peer)

  /** A list of matchers accepts a value that one of them matches; an empty list accepts everything. */
  ghost predicate Accepts<T, V>(list: seq<T>, v: V, accepts: (T, V) -> bool) {
    list == [] || exists x :: x in list && accepts(x, v)
  }

  /** A wildcard at the start or at the end of a pattern matches any string. */
  predicate Fits(p: string, h: string) {
    if Leading(p) then HasSuffix(h, SuffixOf(p))
    else if Trailing(p) then HasPrefix(h, PrefixOf(p))
    else h == p
  }

  predicate HostMatches(pattern: string, host: string) {
    Fits(Lower(pattern), Lower(host))
  }

  predicate HeaderValueMatches(v: string, got: HeaderValue) {
    if IsRegex(v) then got == OfRegex(v) else got == Text(Lower(v))
  }

  predicate PrefixMatches(p: Prefix, a: Address) {
    a.Network? && a.family == p.family && |p.bits| <= |a.bits| && a.bits[..|p.bits|] == p.bits
  }

  predicate CIDRPortMatches(parse: Parser, m: CIDRPort, peer: Peer) {
    (m.port.Some? ==> m.port.value == peer.port) &&
    (m.ip == "" ||
     var p := parse(m.ip);
     if p.Some? then PrefixMatches(p.value, peer.address) else peer.address == Unparsed(m.ip))
  }

  function CIDRMatch(parse: Parser): (CIDRPort, Peer) -> bool {
    (m, peer) => CIDRPortMatches(parse, m, peer)
  }

  ghost predicate HeadersAccept(headers: map<string, seq<string>>, got: map<string, HeaderValue>) {
    forall name :: name in headers ==>
      Lower(name) in got && Accepts(headers[name], got[Lower(name)], HeaderValueMatches)
  }

  ghost predicate Matches(parse: Parser, r: Route, q: Request) {
    Accepts(ProtocolsOrDefault(r.protocols), q.protocol, EqualFold) &&
    Accepts(r.methods, q.verb, EqualFold) &&
    Accepts(r.paths, q.path, Same) &&
    Accepts(r.hosts, q.host, HostMatches) &&
    Accepts(r.snis, q.sni, HostMatches) &&
    HeadersAccept(r.headers, q.headers) &&
    Accepts(r.sources, q.source, CIDRMatch(parse)) &&
    Accepts(r.destinations, q.destination, CIDRMatch(parse))
  }

  /** At most one of the two ends of a longer pattern is a wildcard. */
  predicate SingleWildcard(p: string) {
    |p| >= 2 ==> !(Leading(p) && Trailing(p))
  }

  ghost predicate DistinctNames(headers: map<string, seq<string>>) {
    forall a, b :: a in headers && b in headers && EqualFold(a, b) ==> a == b
  }

  ghost predicate WellFormed(r: Route) {
    DistinctNames(r.headers) && forall p :: p in r.hosts || p in r.snis ==> SingleWildcard(p)
  }

  // ---------------------------------------------------------------------------------------------
  // Overlap is exact
  // ---------------------------------------------------------------------------------------------

  /** overlap holds of two matchers exactly when one value matches both. */
  ghost predicate Exact<T(!new), V(!new)>(overlap: (T, T) -> bool, accepts: (T, V) -> bool, x: T, y: T) {
    overlap(x, y) <==> exists v :: accepts(x, v) && accepts(y, v)
  }

  lemma OverlappingPair<T(!new)>(a: seq<T>, b: seq<T>, overlap: (T, T) -> bool) returns (x: T, y: T)
    requires ListsOverlap(a, b, overlap) && a + b != []
    requires forall x :: x in a + b ==> overlap(x, x)
    ensures x in a + b && y in a + b && overlap(x, y)
    ensures (a != [] ==> x in a) && (b != [] ==> y in b)
  {
    if a == [] {
      x, y := b[0], b[0];
      assert x in a + b;
    } else if b == [] {
      x, y := a[0], a[0];
      assert x in a + b;
    } else {
      x, y :| x in a && y in b && overlap(x, y);
    }
  }

  lemma ListsOverlapExact<T(!new), V(!new)>(a: seq<T>, b: seq<T>, overlap: (T, T) -> bool, accepts: (T, V) -> bool,
      some: V)
    requires forall x, y :: x in a + b && y in a + b ==> Exact(overlap, accepts, x, y)
    requires forall x :: x in a + b ==> overlap(x, x)
    ensures ListsOverlap(a, b, overlap) <==> exists v :: Accepts(a, v, accepts) && Accepts(b, v, accepts)
  {
    if ListsOverlap(a, b, overlap) {
      if a == [] && b == [] {
        assert Accepts(a, some, accepts) && Accepts(b, some, accepts);
      } else {
        var x, y := OverlappingPair(a, b, overlap);
        assert Exact(overlap, accepts, x, y);
        var v :| accepts(x, v) && accepts(y, v);
        assert Accepts(a, v, accepts) && Accepts(b, v, accepts);
      }
    }
    if v :| Accepts(a, v, accepts) && Accepts(b, v, accepts) && a != [] && b != [] {
      var x :| x in a && accepts(x, v);
      var y :| y in b && accepts(y, v);
      assert Exact(overlap, accepts, x, y);
    }
  }

  predicate IsLower(s: string) {
    forall i :: 0 <= i < |s| ==> LowerChar(s[i]) == s[i]
  }

  lemma LowerFacts(s: string)
    ensures IsLower(Lower(s))
    ensures IsLower(s) ==> Lower(s) == s
  {
  }

  lemma SuffixesMeet(h: string, s: string, t: string)
    requires HasSuffix(h, s) && HasSuffix(h, t)
    ensures HasSuffix(s, t) || HasSuffix(t, s)
  {
    if |s| <= |t| {
      assert t[|t| - |s|..] == h[|h| - |s|..];
    } else {
      assert s[|s| - |t|..] == h[|h| - |t|..];
    }
  }

  lemma PrefixesMeet(h: string, s: string, t: string)
    requires HasPrefix(h, s) && HasPrefix(h, t)
    ensures HasPrefix(s, t) || HasPrefix(t, s)
  {
    if |s| <= |t| {
      assert t[..|s|] == h[..|s|];
    } else {
      assert s[..|t|] == h[..|t|];
    }
  }

  lemma SingleWildcardLower(p: string)
    ensures SingleWildcard(Lower(p)) <==> SingleWildcard(p)
  {
  }

  /** Host patterns overlap exactly when some host name matches both. */
  lemma HostsOverlapExact(x: string, y: string)
    requires SingleWildcard(x) && SingleWildcard(y)
    ensures Exact(HostsOverlap, HostMatches, x, y)
  {
    var a, b := Lower(x), Lower(y);
    LowerFacts(x);
    LowerFacts(y);
    SingleWildcardLower(x);
    SingleWildcardLower(y);
    if HostsOverlap(x, y) {
      var h := CommonHost(a, b);
      LowerFacts(h);
      assert HostMatches(x, h) && HostMatches(y, h);
    }
    if v :| HostMatches(x, v) && HostMatches(y, v) {
      FittingPatternsOverlap(a, b, Lower(v));
    }
  }

  lemma CommonHost(a: string, b: string) returns (h: string)
    requires IsLower(a) && IsLower(b) && PatternsOverlap(a, b)
    requires SingleWildcard(a) && SingleWildcard(b)
    ensures IsLower(h) && Fits(a, h) && Fits(b, h)
  {
    if Leading(a) && Leading(b) {
      h := if |a| >= |b| then SuffixOf(a) else SuffixOf(b);
    } else if Trailing(a) && Trailing(b) {
      h := if |a| >= |b| then PrefixOf(a) else PrefixOf(b);
    } else if Leading(a) && Trailing(b) {
      h := PrefixOf(b) + SuffixOf(a);
    } else if Trailing(a) && Leading(b) {
      h := PrefixOf(a) + SuffixOf(b);
    } else if Leading(a) || Trailing(a) {
      h := b;
    } else {
      h := a;
    }
  }

  lemma FittingPatternsOverlap(a: string, b: string, h: string)
    requires Fits(a, h) && Fits(b, h)
    requires SingleWildcard(a) && SingleWildcard(b)
    ensures PatternsOverlap(a, b)
  {
    if Leading(a) && Leading(b) {
      SuffixesMeet(h, SuffixOf(a), SuffixOf(b));
    } else if Trailing(a) && Trailing(b) && !Leading(a) && !Leading(b) {
      PrefixesMeet(h, PrefixOf(a), PrefixOf(b));
    }
  }

  lemma HeaderValuesExact(a: string, b: string)
    ensures Exact(HeaderValuesOverlap, HeaderValueMatches, a, b)
  {
    if HeaderValuesOverlap(a, b) {
      var v := if IsRegex(a) then OfRegex(a) else Text(Lower(a));
      assert HeaderValueMatches(a, v) && HeaderValueMatches(b, v);
    }
  }

  lemma EqualFoldExact(a: string, b: string)
    ensures Exact(EqualFold, EqualFold, a, b)
  {
    if EqualFold(a, b) {
      assert EqualFold(a, a) && EqualFold(b, a);
    }
  }

  lemma SameExact<T(!new)>(a: T, b: T)
    ensures Exact(Same<T>, Same<T>, a, b)
  {
    if a == b {
      assert Same(a, a) && Same(b, a);
    }
  }

  /** The address whose bits start with p and are zero after that. */
  function FirstAddress(p: Prefix): (a: Address)
    ensures PrefixMatches(p, a)
    ensures a.Network? && a.family == p.family && |a.bits| == Width(p.family)
  {
    Network(p.family, p.bits + seq(Width(p.family) - |p.bits|, _ => false))
  }

  /** Two ranges overlap exactly when some address is in both. */
  lemma PrefixesOverlapExact(p: Prefix, q: Prefix)
    ensures PrefixesOverlap(p, q) <==> exists a: Address :: PrefixMatches(p, a) && PrefixMatches(q, a)
  {
    var longer, shorter := if |p.bits| < |q.bits| then q else p, if |p.bits| < |q.bits| then p else q;
    if PrefixesOverlap(p, q) {
      var a := FirstAddress(longer);
      assert shorter.bits == shorter.bits[..|shorter.bits|] == longer.bits[..|shorter.bits|];
      assert a.bits[..|shorter.bits|] == a.bits[..|longer.bits|][..|shorter.bits|];
      assert PrefixMatches(p, a) && PrefixMatches(q, a);
    }
    if a: Address :| PrefixMatches(p, a) && PrefixMatches(q, a) {
      assert shorter.bits == longer.bits[..|shorter.bits|];
    }
  }

  lemma CIDRPortsOverlapExact(parse: Parser, a: CIDRPort, b: CIDRPort)
    ensures Exact(CIDROverlap(parse), CIDRMatch(parse), a, b)
  {
    if CIDRPortsOverlap(parse, a, b) {
      var port := if a.port.Some? then a.port.value else if b.port.Some? then b.port.value else 0;
      var peer := Peer(CommonAddress(parse, a, b), port);
      assert CIDRMatch(parse)(a, peer) && CIDRMatch(parse)(b, peer);
    }
    if peer :| CIDRMatch(parse)(a, peer) && CIDRMatch(parse)(b, peer) {
      if a.ip != "" && b.ip != "" && parse(a.ip).Some? && parse(b.ip).Some? {
        PrefixesOverlapExact(parse(a.ip).value, parse(b.ip).value);
      }
    }
  }

  /** An address that matches an entry; for two overlapping entries, one that matches both. */
  ghost function CommonAddress(parse: Parser, a: CIDRPort, b: CIDRPort): (r: Address)
    requires CIDRPortsOverlap(parse, a, b)
    ensures a.ip != "" ==> if parse(a.ip).Some? then PrefixMatches(parse(a.ip).value, r) else r == Unparsed(a.ip)
    ensures b.ip != "" ==> if parse(b.ip).Some? then PrefixMatches(parse(b.ip).value, r) else r == Unparsed(b.ip)
  {
    var p, q := parse(a.ip), parse(b.ip);
    if a.ip == "" then if q.Some? then FirstAddress(q.value) else Unparsed(b.ip)
    else if p.None? then Unparsed(a.ip)
    else if b.ip == "" then FirstAddress(p.value)
    else
      PrefixesOverlapExact(p.value, q.value);
      var r: Address :| PrefixMatches(p.value, r) && PrefixMatches(q.value, r); r
  }

  /** The header sets of two routes overlap exactly when some headers satisfy both. */
  lemma HeadersOverlapExact(a: map<string, seq<string>>, b: map<string, seq<string>>)
    requires DistinctNames(a) && DistinctNames(b)
    ensures HeadersOverlap(a, b) <==> exists got :: HeadersAccept(a, got) && HeadersAccept(b, got)
  {
    if HeadersOverlap(a, b) {
      var got := CommonHeaders(a, b);
    }
    if got :| HeadersAccept(a, got) && HeadersAccept(b, got) {
      AcceptedHeadersOverlap(a, b, got);
    }
  }

  lemma CommonHeaders(a: map<string, seq<string>>, b: map<string, seq<string>>) returns (got: map<string, HeaderValue>)
    requires DistinctNames(a) && DistinctNames(b) && HeadersOverlap(a, b)
    ensures HeadersAccept(a, got) && HeadersAccept(b, got)
  {
    var names := set n | n in a.Keys + b.Keys :: Lower(n);
    forall n | n in names ensures exists v :: TakenByBoth(a, b, n, v) {
      CommonHeaderValue(a, b, n);
    }
    got := map n | n in names :: var v :| TakenByBoth(a, b, n, v); v;
    forall n | n in names ensures TakenByBoth(a, b, n, got[n]) {
    }
    assert forall name :: name in a ==> Lower(name) in got && TakenByBoth(a, b, Lower(name), got[Lower(name)]);
    assert forall name :: name in b ==> Lower(name) in got && TakenByBoth(a, b, Lower(name), got[Lower(name)]);
  }

  ghost predicate TakenByBoth(a: map<string, seq<string>>, b: map<string, seq<string>>, lower: string, v: HeaderValue) {
    HeaderTakes(a, lower, v) && HeaderTakes(b, lower, v)
  }

  /** This direction holds without distinct names. */
  lemma AcceptedHeadersOverlap(a: map<string, seq<string>>, b: map<string, seq<string>>, got: map<string, HeaderValue>)
    requires HeadersAccept(a, got) && HeadersAccept(b, got)
    ensures HeadersOverlap(a, b)
  {
    forall nameA, nameB | nameA in a && nameB in b && EqualFold(nameA, nameB)
      ensures ListsOverlap(a[nameA], b[nameB], HeaderValuesOverlap)
    {
      HeaderListsExact(a[nameA], b[nameB]);
    }
  }

  /** Every header of that name takes the value. */
  ghost predicate HeaderTakes(headers: map<string, seq<string>>, lower: string, v: HeaderValue) {
    forall name :: name in headers && Lower(name) == lower ==> Accepts(headers[name], v, HeaderValueMatches)
  }

  lemma HeaderListsExact(a: seq<string>, b: seq<string>)
    ensures ListsOverlap(a, b, HeaderValuesOverlap) <==>
            exists v :: Accepts(a, v, HeaderValueMatches) && Accepts(b, v, HeaderValueMatches)
  {
    forall x, y ensures Exact(HeaderValuesOverlap, HeaderValueMatches, x, y) {
      HeaderValuesExact(x, y);
    }
    ListsOverlapExact(a, b, HeaderValuesOverlap, HeaderValueMatches, Text(""));
  }

  lemma CommonHeaderValue(a: map<string, seq<string>>, b: map<string, seq<string>>, lower: string)
    requires DistinctNames(a) && DistinctNames(b) && HeadersOverlap(a, b)
    ensures exists v :: TakenByBoth(a, b, lower, v)
  {
    var va := HeaderValues(a, lower);
    var vb := HeaderValues(b, lower);
    HeaderListsExact(va, vb);
    var v :| Accepts(va, v, HeaderValueMatches) && Accepts(vb, v, HeaderValueMatches);
    assert TakenByBoth(a, b, lower, v);
  }

  /** The values of the header of that name, or none. */
  ghost function HeaderValues(headers: map<string, seq<string>>, lower: string): (vs: seq<string>)
    requires DistinctNames(headers)
    ensures forall name :: name in headers && Lower(name) == lower ==> vs == headers[name]
    ensures vs == [] || exists name :: name in headers && Lower(name) == lower && vs == headers[name]
  {
    if name :| name in headers && Lower(name) == lower then headers[name] else []
  }

  /** Two well-formed routes overlap exactly when some request matches both. */
  lemma RoutesOverlapExact(parse: Parser, a: Route, b: Route)
    requires WellFormed(a) && WellFormed(b)
    ensures RoutesOverlap(parse, a, b) <==> exists q :: Matches(parse, a, q) && Matches(parse, b, q)
  {
    var pa, pb := ProtocolsOrDefault(a.protocols), ProtocolsOrDefault(b.protocols);
    FoldedListsExact(pa, pb);
    FoldedListsExact(a.methods, b.methods);
    PathListsExact(a.paths, b.paths);
    HostListsExact(a.hosts, b.hosts);
    HostListsExact(a.snis, b.snis);
    HeadersOverlapExact(a.headers, b.headers);
    CIDRListsExact(parse, a.sources, b.sources);
    CIDRListsExact(parse, a.destinations, b.destinations);
    if RoutesOverlap(parse, a, b) {
      var protocol :| Accepts(pa, protocol, EqualFold) && Accepts(pb, protocol, EqualFold);
      var verb :| Accepts(a.methods, verb, EqualFold) && Accepts(b.methods, verb, EqualFold);
      var path :| Accepts(a.paths, path, Same) && Accepts(b.paths, path, Same);
      var host :| Accepts(a.hosts, host, HostMatches) && Accepts(b.hosts, host, HostMatches);
      var sni :| Accepts(a.snis, sni, HostMatches) && Accepts(b.snis, sni, HostMatches);
      var headers :| HeadersAccept(a.headers, headers) && HeadersAccept(b.headers, headers);
      var source :| Accepts(a.sources, source, CIDRMatch(parse)) && Accepts(b.sources, source, CIDRMatch(parse));
      var destination :| Accepts(a.destinations, destination, CIDRMatch(parse)) &&
                         Accepts(b.destinations, destination, CIDRMatch(parse));
      var q := Request(protocol, verb, path, host, sni, headers, source, destination);
      assert Matches(parse, a, q) && Matches(parse, b, q);
    }
  }

  lemma FoldedListsExact(a: seq<string>, b: seq<string>)
    ensures ListsOverlap(a, b, EqualFold) <==> exists v :: Accepts(a, v, EqualFold) && Accepts(b, v, EqualFold)
  {
    forall x, y ensures Exact(EqualFold, EqualFold, x, y) {
      EqualFoldExact(x, y);
    }
    ListsOverlapExact(a, b, EqualFold, EqualFold, "");
  }

  lemma PathListsExact(a: seq<string>, b: seq<string>)
    ensures ListsOverlap(a, b, Same) <==> exists v :: Accepts(a, v, Same) && Accepts(b, v, Same)
  {
    forall x, y ensures Exact(Same<string>, Same<string>, x, y) {
      SameExact(x, y);
    }
    ListsOverlapExact(a, b, Same, Same, "");
  }

  lemma HostListsExact(a: seq<string>, b: seq<string>)
    requires forall p :: p in a || p in b ==> SingleWildcard(p)
    ensures ListsOverlap(a, b, HostsOverlap) <==> exists v :: Accepts(a, v, HostMatches) && Accepts(b, v, HostMatches)
  {
    forall x, y | x in a + b && y in a + b ensures Exact(HostsOverlap, HostMatches, x, y) {
      HostsOverlapExact(x, y);
    }
    ListsOverlapExact(a, b, HostsOverlap, HostMatches, "");
  }

  lemma CIDRListsExact(parse: Parser, a: seq<CIDRPort>, b: seq<CIDRPort>)
    ensures ListsOverlap(a, b, CIDROverlap(parse)) <==>
            exists v :: Accepts(a, v, CIDRMatch(parse)) && Accepts(b, v, CIDRMatch(parse))
  {
    forall x, y ensures Exact(CIDROverlap(parse), CIDRMatch(parse), x, y) {
      CIDRPortsOverlapExact(parse, x, y);
    }
    ListsOverlapExact(a, b, CIDROverlap(parse), CIDRMatch(parse), Peer(Unparsed(""), 0));
  }

  // ---------------------------------------------------------------------------------------------
  // Refinement
  // ---------------------------------------------------------------------------------------------

  /** equal behaves like equality on the matchers, and equal matchers match alike. */
  ghost predicate Congruent<T(!new), V(!new)>(equal: (T, T) -> bool, accepts: (T, V) -> bool) {
    forall x, y, v :: equal(x, y) && accepts(x, v) ==> accepts(y, v)
  }

  ghost predicate Transitive<T(!new)>(equal: (T, T) -> bool) {
    forall x, y, z :: equal(x, y) && equal(y, z) ==> equal(x, z)
  }

  lemma WithinAccepts<T(!new), V(!new)>(a: seq<T>, b: seq<T>, equal: (T, T) -> bool, accepts: (T, V) -> bool, v: V)
    requires ListWithin(a, b, equal) && Congruent(equal, accepts) && Accepts(a, v, accepts)
    ensures Accepts(b, v, accepts)
  {
  }

  lemma WithinTransitive<T(!new)>(a: seq<T>, b: seq<T>, c: seq<T>, equal: (T, T) -> bool)
    requires ListWithin(a, b, equal) && ListWithin(b, c, equal) && Transitive(equal)
    ensures ListWithin(a, c, equal)
  {
    if c != [] {
      forall x | x in a ensures exists z :: z in c && equal(x, z) {
        var y :| y in b && equal(x, y);
        var z :| z in c && equal(y, z);
        assert equal(x, z);
      }
    }
  }

  /** Each request that matches the refining route matches the refined one. */
  lemma RefinesNarrows(parse: Parser, specific: Route, general: Route, q: Request)
    requires Refines(specific, general) && Matches(parse, specific, q)
    ensures Matches(parse, general, q)
  {
    WithinAccepts(ProtocolsOrDefault(specific.protocols), ProtocolsOrDefault(general.protocols), EqualFold,
        EqualFold, q.protocol);
    WithinAccepts(specific.methods, general.methods, EqualFold, EqualFold, q.verb);
    WithinAccepts(specific.paths, general.paths, Same, Same, q.path);
    WithinAccepts(specific.hosts, general.hosts, EqualFold, HostMatches, q.host);
    WithinAccepts(specific.snis, general.snis, EqualFold, HostMatches, q.sni);
    WithinAccepts(specific.sources, general.sources, Same, CIDRMatch(parse), q.source);
    WithinAccepts(specific.destinations, general.destinations, Same, CIDRMatch(parse), q.destination);
    HeadersNarrow(specific.headers, general.headers, q.headers);
  }

  lemma HeadersNarrow(a: map<string, seq<string>>, b: map<string, seq<string>>, got: map<string, HeaderValue>)
    requires HeadersWithin(a, b) && HeadersAccept(a, got)
    ensures HeadersAccept(b, got)
  {
    forall name | name in b ensures Lower(name) in got && Accepts(b[name], got[Lower(name)], HeaderValueMatches) {
      var own :| own in a && EqualFold(own, name) && ListWithin(a[own], b[name], HeaderValuesOverlap);
      WithinAccepts(a[own], b[name], HeaderValuesOverlap, HeaderValueMatches, got[Lower(name)]);
    }
  }

  lemma HeaderValuesTransitive()
    ensures Transitive(HeaderValuesOverlap)
  {
    forall x, y, z | HeaderValuesOverlap(x, y) && HeaderValuesOverlap(y, z) ensures HeaderValuesOverlap(x, z) {
      assert IsRegex(x) <==> Lower(x) != "" && Lower(x)[0] == '~';
      assert IsRegex(y) <==> Lower(y) != "" && Lower(y)[0] == '~';
      assert IsRegex(z) <==> Lower(z) != "" && Lower(z)[0] == '~';
    }
  }

  lemma HeadersWithinTransitive(a: map<string, seq<string>>, b: map<string, seq<string>>, c: map<string, seq<string>>)
    requires HeadersWithin(a, b) && HeadersWithin(b, c)
    ensures HeadersWithin(a, c)
  {
    HeaderValuesTransitive();
    forall name | name in c
      ensures exists n :: n in a && EqualFold(n, name) && ListWithin(a[n], c[name], HeaderValuesOverlap)
    {
      var n1 :| n1 in b && EqualFold(n1, name) && ListWithin(b[n1], c[name], HeaderValuesOverlap);
      var n2 :| n2 in a && EqualFold(n2, n1) && ListWithin(a[n2], b[n1], HeaderValuesOverlap);
      WithinTransitive(a[n2], b[n1], c[name], HeaderValuesOverlap);
    }
  }

  lemma {:induction false} ImageSize(names: set<string>, lower: set<string>, f: string -> string)
    requires forall n :: n in lower <==> exists name :: name in names && f(name) == n
    requires forall a, b :: a in names && b in names && f(a) == f(b) ==> a == b
    ensures |lower| == |names|
  {
    if names == {} {
      assert lower == {};
    } else {
      var n :| n in names;
      var rest := names - {n};
      forall m ensures m in lower - {f(n)} <==> exists name :: name in rest && f(name) == m {
        if m in lower - {f(n)} {
          var name :| name in names && f(name) == m;
          assert name in rest;
        }
      }
      assert f(n) in lower;
      ImageSize(rest, lower - {f(n)}, f);
    }
  }

  ghost function LowerNames(headers: map<string, seq<string>>): set<string> {
    set n | n in headers :: Lower(n)
  }

  lemma DistinctNamesCount(headers: map<string, seq<string>>)
    requires DistinctNames(headers)
    ensures |LowerNames(headers)| == |headers|
  {
    ImageSize(headers.Keys, LowerNames(headers), Lower);
  }

  /** A route whose headers are within those of another sets at least as many headers (pigeonhole). */
  lemma HeadersWithinCount(a: map<string, seq<string>>, b: map<string, seq<string>>)
    requires DistinctNames(a) && DistinctNames(b) && HeadersWithin(a, b)
    ensures |a| >= |b|
  {
    DistinctNamesCount(a);
    DistinctNamesCount(b);
    forall n | n in LowerNames(b) ensures n in LowerNames(a) {
      var name :| name in b && Lower(name) == n;
      var own :| own in a && EqualFold(own, name);
    }
    SubsetSize(LowerNames(b), LowerNames(a));
  }

  /** Refinement is transitive on routes whose header names differ ignoring case. */
  lemma RefinesTransitive(a: Route, b: Route, c: Route)
    requires DistinctNames(a.headers) && DistinctNames(b.headers) && DistinctNames(c.headers)
    requires Refines(a, b) && Refines(b, c)
    ensures Refines(a, c)
  {
    WithinTransitive(ProtocolsOrDefault(a.protocols), ProtocolsOrDefault(b.protocols),
        ProtocolsOrDefault(c.protocols), EqualFold);
    WithinTransitive(a.methods, b.methods, c.methods, EqualFold);
    WithinTransitive(a.paths, b.paths, c.paths, Same);
    WithinTransitive(a.hosts, b.hosts, c.hosts, EqualFold);
    WithinTransitive(a.snis, b.snis, c.snis, EqualFold);
    WithinTransitive(a.sources, b.sources, c.sources, Same);
    WithinTransitive(a.destinations, b.destinations, c.destinations, Same);
    HeadersWithinTransitive(a.headers, b.headers, c.headers);
    HeadersWithinCount(a.headers, b.headers);
    HeadersWithinCount(b.headers, c.headers);
  }

  /** Refinement is a strict order: no route refines itself, and no two refine each other. */
  lemma RefinesAsymmetric(a: Route, b: Route)
    requires DistinctNames(a.headers) && DistinctNames(b.headers)
    requires Refines(a, b)
    ensures !Refines(b, a) && a != b
  {
    if Refines(b, a) {
      RefinesTransitive(a, b, a);
    }
  }

  /** A refining route always conflicts by its matchers, so leaving such pairs out of the warnings is a choice. */
  lemma RefiningRoutesOverlap(parse: Parser, specific: Route, general: Route)
    requires WellFormed(specific) && WellFormed(general) && Refines(specific, general)
    ensures RoutesOverlap(parse, specific, general)
  {
    OverlapsItself(parse, specific);
    RoutesOverlapExact(parse, specific, specific);
    var q :| Matches(parse, specific, q);
    RefinesNarrows(parse, specific, general, q);
    RoutesOverlapExact(parse, specific, general);
  }

  lemma OverlapsItself(parse: Parser, r: Route)
    requires WellFormed(r)
    ensures RoutesOverlap(parse, r, r)
  {
    ListOverlapsItself(ProtocolsOrDefault(r.protocols), EqualFold);
    ListOverlapsItself(r.methods, EqualFold);
    ListOverlapsItself(r.paths, Same);
    ListOverlapsItself(r.hosts, HostsOverlap);
    ListOverlapsItself(r.snis, HostsOverlap);
    ListOverlapsItself(r.sources, CIDROverlap(parse));
    ListOverlapsItself(r.destinations, CIDROverlap(parse));
    forall a, b | a in r.headers && b in r.headers && EqualFold(a, b)
      ensures ListsOverlap(r.headers[a], r.headers[b], HeaderValuesOverlap)
    {
      ListOverlapsItself(r.headers[a], HeaderValuesOverlap);
    }
  }

  lemma ListOverlapsItself<T(!new)>(a: seq<T>, overlap: (T, T) -> bool)
    requires forall x :: x in a ==> overlap(x, x)
    ensures ListsOverlap(a, a, overlap)
  {
    if a != [] {
      assert a[0] in a && overlap(a[0], a[0]);
    }
  }

  // ---------------------------------------------------------------------------------------------
  // The warnings
  // ---------------------------------------------------------------------------------------------

  /** An entity that owns a route, with the fields that an issue names. */
  datatype Owner = Owner(kind: string, name: string, fields: seq<string>)
  {
    predicate SameEntity(other: Owner) {
      kind == other.kind && name == other.name
    }
  }

  datatype Entry = Entry(route: Route, owners: seq<Owner>)

  /** The issue for one owner of the later route of a pair. */
  datatype Conflict = Conflict(owner: Owner, later: string, earlier: string, earlierOwners: seq<Owner>)

  const VIDEO_LIFECYCLE_TAG := "aigw:video-lifecycle"

  /** Video lifecycle routes with equal matchers; another check reports them. */
  predicate SharedLifecycleRoutes(a: Route, b: Route) {
    VIDEO_LIFECYCLE_TAG in a.tags && VIDEO_LIFECYCLE_TAG in b.tags && a.(name := "") == b.(name := "")
  }

  predicate Warns(parse: Parser, earlier: Route, later: Route) {
    RoutesOverlap(parse, earlier, later) && !SharedLifecycleRoutes(earlier, later) &&
    !Refines(earlier, later) && !Refines(later, earlier)
  }

  /** Values that are equal ignoring case. */
  ghost predicate Within(a: seq<string>, b: seq<string>) {
    b == [] || (a != [] && forall x :: x in a ==> exists y :: y in b && Lower(x) == Lower(y))
  }

  ghost predicate WithinExactly<T>(a: seq<T>, b: seq<T>) {
    b == [] || (a != [] && forall x :: x in a ==> x in b)
  }

  /** A header value of a route is one of those of the other: the same regex, or the same text ignoring case. */
  ghost predicate ValuesWithin(a: seq<string>, b: seq<string>) {
    b == [] || (a != [] && forall x :: x in a ==>
      exists y :: y in b && if IsRegex(x) || IsRegex(y) then x == y else Lower(x) == Lower(y))
  }

  /**
    Kong prefers the first route: it has hosts where the other has none, or more headers, and
    restricts everything that the other one restricts at least as much.
   */
  ghost predicate Preferred(specific: Route, general: Route) {
    ((general.hosts == [] && specific.hosts != []) || |specific.headers| > |general.headers|) &&
    Within(if specific.protocols == [] then ["http", "https"] else specific.protocols,
           if general.protocols == [] then ["http", "https"] else general.protocols) &&
    Within(specific.methods, general.methods) && WithinExactly(specific.paths, general.paths) &&
    Within(specific.hosts, general.hosts) && Within(specific.snis, general.snis) &&
    WithinExactly(specific.sources, general.sources) && WithinExactly(specific.destinations, general.destinations) &&
    forall b :: b in general.headers ==>
      exists a :: a in specific.headers && Lower(a) == Lower(b) && ValuesWithin(specific.headers[a], general.headers[b])
  }

  lemma RefinesExactly(specific: Route, general: Route)
    ensures Refines(specific, general) <==> Preferred(specific, general)
  {
    forall a, b ensures ListWithin(a, b, EqualFold) <==> Within(a, b) {
    }
    forall a, b ensures ListWithin(a, b, HeaderValuesOverlap) <==> ValuesWithin(a, b) {
    }
    SameWithin(specific.paths, general.paths);
    SameWithin(specific.sources, general.sources);
    SameWithin(specific.destinations, general.destinations);
  }

  lemma SameWithin<T(!new)>(a: seq<T>, b: seq<T>)
    ensures ListWithin(a, b, Same) <==> WithinExactly(a, b)
  {
  }

  /** Adding hosts to a route without any refines it. */
  lemma AddedHostsRefine(g: Route, hosts: seq<string>)
    requires g.hosts == [] && hosts != []
    ensures Refines(g.(hosts := hosts), g) && !Refines(g, g.(hosts := hosts))
  {
  }

  /** Adding a header refines a route. */
  lemma AddedHeaderRefines(g: Route, name: string, values: seq<string>)
    requires name !in g.headers
    ensures Refines(g.(headers := g.headers[name := values]), g)
  {
    var specific := g.(headers := g.headers[name := values]);
    assert specific.headers.Keys == g.headers.Keys + {name};
    assert |specific.headers| == |specific.headers.Keys| && |g.headers| == |g.headers.Keys|;
  }

  /** The routes are video lifecycle routes that differ at most in their names. */
  ghost predicate SameLifecycle(a: Route, b: Route) {
    "aigw:video-lifecycle" in a.tags && "aigw:video-lifecycle" in b.tags && a == b.(name := a.name)
  }

  /** A request reaches both routes and nothing else decides between them. */
  ghost predicate Conflicting(parse: Parser, earlier: Route, later: Route) {
    (exists q :: Matches(parse, earlier, q) && Matches(parse, later, q)) &&
    !SameLifecycle(earlier, later) && !Preferred(earlier, later) && !Preferred(later, earlier)
  }

  lemma WarnsExactly(parse: Parser, earlier: Route, later: Route)
    requires WellFormed(earlier) && WellFormed(later)
    ensures Warns(parse, earlier, later) <==> Conflicting(parse, earlier, later)
  {
    RoutesOverlapExact(parse, earlier, later);
    RefinesExactly(earlier, later);
    RefinesExactly(later, earlier);
  }

  predicate OwnsSame(owners: seq<Owner>, owner: Owner) {
    exists o :: o in owners && owner.SameEntity(o)
  }

  /** The issue for one owner of the later route. */
  function ConflictOf(earlier: Entry, later: Entry, owner: Owner): Conflict {
    Conflict(owner, later.route.name, earlier.route.name, earlier.owners)
  }

  /** The issues for those of the first n owners of the later route that do not own the earlier one. */
  ghost function Blamed(earlier: Entry, later: Entry, n: nat): set<Conflict>
    requires n <= |later.owners|
  {
    if n == 0 then {} else
      var owner := later.owners[n - 1];
      Blamed(earlier, later, n - 1) +
      if OwnsSame(earlier.owners, owner) then {} else {ConflictOf(earlier, later, owner)}
  }

  /** The issues for one pair of entries. */
  ghost function PairIssues(warns: (Route, Route) -> bool, earlier: Entry, later: Entry): set<Conflict> {
    if warns(earlier.route, later.route) then Blamed(earlier, later, |later.owners|) else {}
  }

  /** The issues for entry i against the first m entries. */
  ghost function LaterIssues(warns: (Route, Route) -> bool, entries: seq<Entry>, i: nat, m: nat): set<Conflict>
    requires m <= i < |entries|
  {
    if m == 0 then {} else
      LaterIssues(warns, entries, i, m - 1) + PairIssues(warns, entries[m - 1], entries[i])
  }

  /** The issues for the first n entries. */
  ghost function LintIssues(warns: (Route, Route) -> bool, entries: seq<Entry>, n: nat): set<Conflict>
    requires n <= |entries|
  {
    if n == 0 then {} else LintIssues(warns, entries, n - 1) + LaterIssues(warns, entries, n - 1, n - 1)
  }

  lemma {:induction false} BlamedMeans(earlier: Entry, later: Entry, n: nat, c: Conflict)
    requires n <= |later.owners|
    ensures c in Blamed(earlier, later, n) <==>
            exists k :: 0 <= k < n && c == ConflictOf(earlier, later, later.owners[k]) &&
                        !OwnsSame(earlier.owners, later.owners[k])
  {
    if n > 0 {
      BlamedMeans(earlier, later, n - 1, c);
    }
  }

  lemma {:induction false} LaterIssuesMean(warns: (Route, Route) -> bool, entries: seq<Entry>, i: nat, m: nat,
      c: Conflict)
    requires m <= i < |entries|
    ensures c in LaterIssues(warns, entries, i, m) <==>
            exists j :: 0 <= j < m && c in PairIssues(warns, entries[j], entries[i])
  {
    if m > 0 {
      LaterIssuesMean(warns, entries, i, m - 1, c);
    }
  }

  /** An issue is found exactly when it blames an owner of the later route of some conflicting pair. */
  lemma {:induction false} LintIssuesMean(warns: (Route, Route) -> bool, entries: seq<Entry>, n: nat, c: Conflict)
    requires n <= |entries|
    ensures c in LintIssues(warns, entries, n) <==>
            exists j, i :: 0 <= j < i < n && c in PairIssues(warns, entries[j], entries[i])
  {
    if n > 0 {
      LintIssuesMean(warns, entries, n - 1, c);
      LaterIssuesMean(warns, entries, n - 1, n - 1, c);
    }
  }

  function Warner(parse: Parser): (Route, Route) -> bool {
    (earlier, later) => Warns(parse, earlier, later)
  }

  /**
    The lint is exact: it blames an owner of the later route of a pair, which does not own the
    earlier route, just for the pairs that some request reaches and nothing decides.
   */
  lemma LintIsExact(parse: Parser, entries: seq<Entry>, c: Conflict)
    requires forall i :: 0 <= i < |entries| ==> WellFormed(entries[i].route)
    ensures c in LintIssues(Warner(parse), entries, |entries|) <==> Found(parse, entries, c)
  {
    LintIssuesMean(Warner(parse), entries, |entries|, c);
    forall j, i | 0 <= j < i < |entries|
      ensures c in PairIssues(Warner(parse), entries[j], entries[i]) <==> ConflictFor(parse, entries[j], entries[i], c)
    {
      WarnsExactly(parse, entries[j].route, entries[i].route);
      if Conflicting(parse, entries[j].route, entries[i].route) {
        BlamedFor(parse, entries[j], entries[i], c);
      }
    }
  }

  lemma BlamedFor(parse: Parser, earlier: Entry, later: Entry, c: Conflict)
    requires Conflicting(parse, earlier.route, later.route)
    ensures c in Blamed(earlier, later, |later.owners|) <==> ConflictFor(parse, earlier, later, c)
  {
    BlamedMeans(earlier, later, |later.owners|, c);
    if ConflictFor(parse, earlier, later, c) {
      var k :| 0 <= k < |later.owners| && later.owners[k] == c.owner;
      assert c == ConflictOf(earlier, later, later.owners[k]) && !OwnsSame(earlier.owners, later.owners[k]);
    }
  }

  /** Some pair of entries conflicts, and c blames an owner of the later one for it. */
  ghost predicate Found(parse: Parser, entries: seq<Entry>, c: Conflict) {
    exists j, i :: 0 <= j < i < |entries| && ConflictFor(parse, entries[j], entries[i], c)
  }

  ghost predicate ConflictFor(parse: Parser, earlier: Entry, later: Entry, c: Conflict) {
    Conflicting(parse, earlier.route, later.route) &&
    c.owner in later.owners && c.later == later.route.name && c.earlier == earlier.route.name &&
    c.earlierOwners == earlier.owners &&
    forall o :: o in earlier.owners ==> o.kind != c.owner.kind || o.name != c.owner.name
  }

  /**
    Reports, for each conflicting pair of entries, every owner of the later route that does not own the
    earlier one.
   */
  method WarnRoutingConflicts(parse: Parser, entries: seq<Entry>, log: seq<Conflict>) returns (log': seq<Conflict>)
    ensures log <= log'
    ensures Elements(log') == Elements(log) + LintIssues(Warner(parse), entries, |entries|)
    ensures (forall i :: 0 <= i < |entries| ==> WellFormed(entries[i].route)) ==>
              forall c :: c in log' <==> c in log || Found(parse, entries, c)
  {
    log' := WarnPairs(Warner(parse), entries, log);
    if forall i :: 0 <= i < |entries| ==> WellFormed(entries[i].route) {
      forall c ensures c in log' <==> c in log || Found(parse, entries, c) {
        LintIsExact(parse, entries, c);
        assert c in log' <==> c in Elements(log');
        assert c in log <==> c in Elements(log);
      }
    }
  }

  method WarnPairs(warns: (Route, Route) -> bool, entries: seq<Entry>, log: seq<Conflict>) returns (log': seq<Conflict>)
    ensures log <= log'
    ensures Elements(log') == Elements(log) + LintIssues(warns, entries, |entries|)
  {
    log' := log;
    for i := 0 to |entries|
      invariant log <= log'
      invariant Elements(log') == Elements(log) + LintIssues(warns, entries, i)
    {
      ghost var before := Elements(log');
      for j := 0 to i
        invariant log <= log'
        invariant Elements(log') == before + LaterIssues(warns, entries, i, j)
      {
        if warns(entries[j].route, entries[i].route) {
          log' := BlameOwners(entries[j], entries[i], log');
        }
      }
    }
  }

  method BlameOwners(earlier: Entry, later: Entry, log: seq<Conflict>) returns (log': seq<Conflict>)
    ensures log <= log'
    ensures Elements(log') == Elements(log) + Blamed(earlier, later, |later.owners|)
  {
    log' := log;
    for k := 0 to |later.owners|
      invariant log <= log'
      invariant Elements(log') == Elements(log) + Blamed(earlier, later, k)
    {
      if !OwnsSame(earlier.owners, later.owners[k]) {
        log' := Report(log', ConflictOf(earlier, later, later.owners[k]));
      }
    }
  }
}
