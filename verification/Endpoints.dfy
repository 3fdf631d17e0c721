/**
  Endpoint specs and the path of a route (internal/aimap/endpoints.go, revert/endpoints.go).

  `RoutePath` prints a base path and an endpoint suffix as one Kong path: a regex path carries one
  leading "~", and the "$" end anchor of a regex base must go because the suffix comes after it.
  `BasePathFor` reads the base back.
 */
module Endpoints {
  import opened Sequences

  /** One endpoint of the table; other stands for its methods, selector defaults and flags. */
  datatype EndpointSpec = EndpointSpec(
    routeLabel: string,
    pathSuffix: string,
    isRegex: bool,
    routeType: string,
    genaiCategory: string,
    other: string)

  // ---------------------------------------------------------------------------------------------
  // Strings
  // ---------------------------------------------------------------------------------------------

  /** The part of s before its suffix t. */
  function CutSuffix(s: string, t: string): (r: Option<string>)
    ensures r.Some? ==> r.value + t == s
    ensures r.None? <==> !HasSuffix(s, t)
  {
    if HasSuffix(s, t) then
      assert s == s[..|s| - |t|] + s[|s| - |t|..];
      Some(s[..|s| - |t|])
    else None
  }

  lemma CutSuffixOfConcat(b: string, t: string)
    ensures CutSuffix(b + t, t) == Some(b)
  {
    assert (b + t)[|b + t| - |t|..] == t;
    assert (b + t)[..|b|] == b;
  }

  function TrimPrefix(s: string, p: string): string {
    if HasPrefix(s, p) then s[|p|..] else s
  }

  /** s without its trailing c's. */
  function TrimRight(s: string, c: char): (r: string)
    ensures r <= s
    ensures r == s <==> s == "" || s[|s| - 1] != c
    ensures r != "" ==> r[|r| - 1] != c
  {
    if s != "" && s[|s| - 1] == c then TrimRight(s[..|s| - 1], c) else s
  }

  /** The position of the first t in s at or after i, or -1. */
  function IndexFrom(s: string, t: string, i: nat): (r: int)
    requires i <= |s|
    ensures r >= 0 ==> i <= r && r + |t| <= |s| && s[r..r + |t|] == t
    decreases |s| - i
  {
    if HasPrefix(s[i..], t) then i
    else if i == |s| then -1
    else IndexFrom(s, t, i + 1)
  }

  /** s up to the first of the regex characters '(', '[' and '\'. */
  function LiteralHead(s: string): (r: string)
    ensures r <= s
  {
    if s == "" || s[0] in {'(', '[', '\\'} then "" else [s[0]] + LiteralHead(s[1..])
  }

  // ---------------------------------------------------------------------------------------------
  // The end anchor of a regex
  // ---------------------------------------------------------------------------------------------

  /** The number of backslashes at the end of s. */
  function TrailingBackslashes(s: string): (n: nat)
    ensures n <= |s|
  {
    if s != "" && s[|s| - 1] == '\\' then 1 + TrailingBackslashes(s[..|s| - 1]) else 0
  }

  /** s ends in a "$" that an even number of backslashes precedes. */
  predicate Anchored(s: string) {
    s != "" && s[|s| - 1] == '$' && TrailingBackslashes(s[..|s| - 1]) % 2 == 0
  }

  function TrimAnchor(s: string): (r: string)
    ensures r <= s && (r == s <==> !Anchored(s))
  {
    if Anchored(s) then s[..|s| - 1] else s
  }

  /** Drops a single "$" end anchor; counts the backslashes before it from the right. */
  method TrimRegexEndAnchor(s: string) returns (r: string)
    ensures r == TrimAnchor(s)
  {
    if !HasSuffix(s, "$") {
      return s;
    }
    var body := s[..|s| - 1];
    var backslashes := 0;
    var i := |body| - 1;
    assert body[..i + 1] == body;
    while i >= 0 && body[i] == '\\'
      invariant -1 <= i < |body|
      invariant TrailingBackslashes(body) == backslashes + TrailingBackslashes(body[..i + 1])
    {
      assert body[..i + 1][..i] == body[..i];
      backslashes := backslashes + 1;
      i := i - 1;
    }
    if backslashes % 2 == 1 {
      return s;
    }
    return body;
  }

  /** How a regex engine reads a body from the left: an escape takes the next character with it. */
  datatype Token = Plain(c: char) | Escaped(c: char)

  function Lex(s: string): seq<Token> {
    if s == "" then []
    else if s[0] == '\\' && |s| >= 2 then [Token.Escaped(s[1])] + Lex(s[2..])
    else [Plain(s[0])] + Lex(s[1..])
  }

  /** Whether position i is the second character of an escape. */
  predicate EscapedAt(s: string, i: nat)
    requires i <= |s|
  {
    i > 0 && s[i - 1] == '\\' && !EscapedAt(s, i - 1)
  }

  lemma {:induction false} EscapedIsOddBackslashes(s: string, i: nat)
    requires i <= |s|
    ensures EscapedAt(s, i) <==> TrailingBackslashes(s[..i]) % 2 == 1
  {
    if i > 0 {
      EscapedIsOddBackslashes(s, i - 1);
      assert s[..i][..i - 1] == s[..i - 1];
    }
  }

  lemma {:induction false} EscapedAfter(s: string, k: nat, i: nat)
    requires k <= i <= |s| && !EscapedAt(s, k)
    ensures EscapedAt(s, i) <==> EscapedAt(s[k..], i - k)
  {
    if i > k {
      EscapedAfter(s, k, i - 1);
    }
  }

  lemma {:induction false} LastToken(s: string)
    requires s != ""
    ensures Lex(s) != []
    ensures Lex(s)[|Lex(s)| - 1] ==
            if EscapedAt(s, |s| - 1) then Token.Escaped(s[|s| - 1]) else Plain(s[|s| - 1])
  {
    if s[0] == '\\' && |s| >= 2 {
      assert !EscapedAt(s, 0) && EscapedAt(s, 1);
      assert !EscapedAt(s, 2);
      if |s| > 2 {
        LastToken(s[2..]);
        EscapedAfter(s, 2, |s| - 1);
      }
    } else if |s| > 1 {
      LastToken(s[1..]);
      EscapedAfter(s, 1, |s| - 1);
    }
  }

  /** Counting backslashes from the right agrees with reading the body from the left. */
  lemma AnchoredIsLastToken(s: string)
    ensures Anchored(s) <==> Lex(s) != [] && Lex(s)[|Lex(s)| - 1] == Plain('$')
  {
    if s != "" {
      LastToken(s);
      EscapedIsOddBackslashes(s, |s| - 1);
    }
  }

  // ---------------------------------------------------------------------------------------------
  // Paths
  // ---------------------------------------------------------------------------------------------

  /** Whether the base is a regex once its trailing slashes are gone. */
  predicate RegexBase(base: string) {
    HasPrefix(TrimRight(base, '/'), "~")
  }

  /** The base without trailing slashes, marker, and, in a regex route, end anchor. */
  function Body(base: string, spec: EndpointSpec): string {
    var b := TrimPrefix(TrimRight(base, '/'), "~");
    if RegexBase(base) || spec.isRegex then TrimAnchor(b) else b
  }

  /** The suffix with its leading slash. */
  function Suffix(spec: EndpointSpec): string {
    if spec.isRegex then "/" + spec.pathSuffix else spec.pathSuffix
  }

  function RoutePath(base: string, spec: EndpointSpec): string {
    var path := Body(base, spec) + Suffix(spec);
    if RegexBase(base) || spec.isRegex then "~" + path
    else if path == "" then "/" else path
  }

  /** Builds the path as the source does, one step at a time. */
  method BuildRoutePath(base0: string, spec: EndpointSpec) returns (path: string)
    ensures path == RoutePath(base0, spec)
  {
    var base := TrimRight(base0, '/');
    var baseIsRegex := HasPrefix(base, "~");
    base := TrimPrefix(base, "~");
    var isRegex := baseIsRegex || spec.isRegex;
    if isRegex {
      base := TrimRegexEndAnchor(base);
    }
    var suffix := spec.pathSuffix;
    if spec.isRegex {
      suffix := "/" + suffix;
    }
    if isRegex {
      path := "~" + base + suffix;
      assert path == "~" + (base + suffix);
    } else if base + suffix == "" {
      path := "/";
    } else {
      path := base + suffix;
    }
  }

  /** Whether a text matches the whole of a suffix pattern; the regex engine is not modelled. */
  type PatternMatcher = (string, string) -> bool

  /** Recovers the base of a path, given the spec that it serves. */
  function BasePathFor(matchesAll: PatternMatcher, path: string, spec: EndpointSpec): Option<string> {
    if HasPrefix(path, "~") then
      if !spec.isRegex then CutSuffix(path, spec.pathSuffix)
      else
        var body := path[1..];
        var base := CutSuffix(body, "/" + spec.pathSuffix);
        if base.Some? then base
        else
          var i := IndexFrom(body, "/" + LiteralHead(spec.pathSuffix), 0);
          if i >= 0 && matchesAll(spec.pathSuffix, body[i + 1..]) then Some(body[..i]) else None
    else if spec.isRegex then None
    else CutSuffix(path, spec.pathSuffix)
  }

  /** What the recovery gives back. */
  function Recovered(base: string, spec: EndpointSpec): string {
    if spec.isRegex then Body(base, spec)
    else if RegexBase(base) then "~" + Body(base, spec)
    else if Body(base, spec) + spec.pathSuffix == "" then "/"
    else Body(base, spec)
  }

  /** A path built for a spec always gives a base back. */
  lemma RecoverySucceeds(matchesAll: PatternMatcher, base: string, spec: EndpointSpec)
    ensures BasePathFor(matchesAll, RoutePath(base, spec), spec) == Some(Recovered(base, spec))
  {
    var b, path := Body(base, spec), RoutePath(base, spec);
    if spec.isRegex {
      assert path[1..] == b + ("/" + spec.pathSuffix);
      CutSuffixOfConcat(b, "/" + spec.pathSuffix);
    } else if RegexBase(base) {
      assert path == ("~" + b) + spec.pathSuffix;
      CutSuffixOfConcat("~" + b, spec.pathSuffix);
    } else if b + spec.pathSuffix == "" {
      CutSuffixOfConcat("/", "");
      assert "/" + "" == "/";
    } else {
      CutSuffixOfConcat(b, spec.pathSuffix);
    }
  }

  /**
    When the recovered base builds the same path again. A regex spec drops the marker of the base,
    so a body that starts with another marker loses it; in any regex route a body that still ends
    in a slash or in an anchor loses that.
   */
  predicate Rebuilds(base: string, spec: EndpointSpec) {
    var b := Body(base, spec);
    (spec.isRegex ==> !HasPrefix(b, "~")) &&
    (spec.isRegex || RegexBase(base) ==> !HasSuffix(b, "/") && !Anchored(b))
  }

  /** Rebuilding from the recovered base gives the same path exactly when `Rebuilds` holds. */
  lemma RebuildExact(base: string, spec: EndpointSpec)
    ensures RoutePath(Recovered(base, spec), spec) == RoutePath(base, spec) <==> Rebuilds(base, spec)
  {
    var b, r := Body(base, spec), Recovered(base, spec);
    if spec.isRegex {
      var b' := Body(b, spec);
      assert b' == b <==> Rebuilds(base, spec) by {
        assert |b'| <= |TrimPrefix(TrimRight(b, '/'), "~")| <= |TrimRight(b, '/')| <= |b|;
      }
      CancelAround("~", b', b, Suffix(spec));
    } else if RegexBase(base) {
      RegexRebuild(b, spec);
    } else {
      PlainRebuild(base, spec);
    }
  }

  lemma CancelAround(left: string, x: string, y: string, right: string)
    ensures left + (x + right) == left + (y + right) <==> x == y
  {
    if left + (x + right) == left + (y + right) {
      assert |x| == |y|;
      assert (left + (x + right))[|left|..|left| + |x|] == x;
      assert (left + (y + right))[|left|..|left| + |y|] == y;
    }
  }

  lemma RegexRebuild(b: string, spec: EndpointSpec)
    requires !spec.isRegex
    ensures RoutePath("~" + b, spec) == "~" + (b + spec.pathSuffix) <==> !HasSuffix(b, "/") && !Anchored(b)
  {
    var r := "~" + b;
    TrimRightAfter("~", b, '/');
    assert TrimRight(r, '/') == "~" + TrimRight(b, '/');
    assert TrimPrefix(TrimRight(r, '/'), "~") == TrimRight(b, '/');
    CancelAround("~", TrimAnchor(TrimRight(b, '/')), b, spec.pathSuffix);
  }

  lemma {:induction false} TrimRightAfter(head: string, s: string, c: char)
    requires head != "" && head[|head| - 1] != c
    ensures TrimRight(head + s, c) == head + TrimRight(s, c)
  {
    if s != "" && s[|s| - 1] == c {
      TrimRightAfter(head, s[..|s| - 1], c);
      assert (head + s)[..|head + s| - 1] == head + s[..|s| - 1];
    }
  }

  lemma PlainRebuild(base: string, spec: EndpointSpec)
    requires !spec.isRegex && !RegexBase(base)
    ensures RoutePath(Recovered(base, spec), spec) == RoutePath(base, spec)
  {
    var b := Body(base, spec);
    assert b == TrimRight(base, '/') && TrimRight(b, '/') == b;
    if b + spec.pathSuffix == "" {
      assert TrimRight("/", '/') == "";
    }
  }

  /** A base that ends in a slash and an anchor: the recovered base still ends in the slash, and building drops it. */
  lemma SlashBeforeAnchorIsLost(matchesAll: PatternMatcher, spec: EndpointSpec)
    requires !spec.isRegex
    ensures RoutePath("~/foo/$", spec) == "~/foo/" + spec.pathSuffix
    ensures BasePathFor(matchesAll, RoutePath("~/foo/$", spec), spec) == Some("~/foo/")
    ensures RoutePath("~/foo/", spec) == "~/foo" + spec.pathSuffix != RoutePath("~/foo/$", spec)
  {
    SlashBodies(spec);
    RecoverySucceeds(matchesAll, "~/foo/$", spec);
    RebuildExact("~/foo/$", spec);
  }

  lemma SlashBodies(spec: EndpointSpec)
    requires !spec.isRegex
    ensures Body("~/foo/$", spec) == "/foo/" && Body("~/foo/", spec) == "/foo"
  {
    assert TrimRight("~/foo/$", '/') == "~/foo/$";
    assert TrimPrefix("~/foo/$", "~") == "/foo/$";
    assert "/foo/$"[..5] == "/foo/";
    assert TrailingBackslashes("/foo/") == 0;
    assert "~/foo/"[..5] == "~/foo" && TrimRight("~/foo", '/') == "~/foo";
    assert TrimPrefix("~/foo", "~") == "/foo";
  }
}
