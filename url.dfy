/** `urllib.parse.urljoin(self.base_url, href)` for the scraper's base URL
    `https://mzalendo.com`: an href with another scheme comes back as it
    is, an href with a network location replaces the host, and any other
    href is resolved against the base path, which is empty; a relative
    path loses its empty inner segments and every path loses its `.` and
    `..` segments; an empty query or fragment is dropped. */
module Url {
  import opened Text

  const BaseUrl: string := "https://mzalendo.com"

  /** The parts of an href after its scheme and network location. */
  datatype Parts = Parts(path: string, query: string, fragment: string)

  predicate IsAsciiLetter(c: char) { 'a' <= c <= 'z' || 'A' <= c <= 'Z' }

  /** `scheme_chars` */
  predicate IsSchemeChar(c: char) { IsAsciiLetter(c) || IsDigit(c) || c == '+' || c == '-' || c == '.' }

  /** The index of the first character of `s` in `cs`, or |s|. */
  function FindFirst(s: string, cs: set<char>): (i: nat)
    ensures i <= |s| && (i < |s| ==> s[i] in cs)
    ensures forall j :: 0 <= j < i ==> s[j] !in cs
    decreases |s|
  {
    if |s| == 0 || s[0] in cs then 0
    else
      var i := FindFirst(s[1..], cs);
      assert forall j :: 1 <= j < 1 + i ==> s[j] == s[1..][j - 1];
      1 + i
  }

  /** The scheme `urlsplit` finds: the text before the first ':', when it
      starts with a letter and holds only scheme characters; lower-cased,
      with the text after the ':'. */
  function SchemeOf(href: string): (r: Option<(string, string)>)
    ensures r.Some? ==> ':' in href
  {
    var i := FindFirst(href, {':'});
    if 0 < i < |href| && IsAsciiLetter(href[0]) && forall j :: 0 <= j < i ==> IsSchemeChar(href[j])
    then Some((Lower(href[..i]), href[i + 1..]))
    else None
  }

  /** The fragment starts at the first '#', the query at the first '?'
      before it. */
  function PartsOf(s: string): (r: Parts)
    ensures '?' !in r.path && '#' !in r.path && '#' !in r.query
  {
    var h := FindFirst(s, {'#'});
    var before := s[..h];
    var q := FindFirst(before, {'?'});
    Parts(before[..q], if q < |before| then before[q + 1..] else "", if h < |s| then s[h + 1..] else "")
  }

  /** `?query` and `#fragment`, each only when not empty. */
  function Tail(p: Parts): string {
    (if p.query != "" then "?" + p.query else "") + (if p.fragment != "" then "#" + p.fragment else "")
  }

  /** `'/'.join(segments)` */
  function Join(parts: seq<string>, c: char): string
    decreases |parts|
  {
    if |parts| == 0 then ""
    else if |parts| == 1 then parts[0]
    else parts[0] + [c] + Join(parts[1..], c)
  }

  function NonEmptyOnly(xs: seq<string>): (r: seq<string>)
    ensures |r| <= |xs| && forall x :: x in r ==> x != "" && x in xs
    decreases |xs|
  {
    if |xs| == 0 then []
    else NonEmptyOnly(xs[..|xs| - 1]) + (if xs[|xs| - 1] != "" then [xs[|xs| - 1]] else [])
  }

  /** `segments[1:-1] = filter(None, segments[1:-1])` */
  function DropInnerEmpty(segs: seq<string>): (r: seq<string>)
    ensures |segs| > 0 ==> |r| > 0 && r[0] == segs[0] && r[|r| - 1] == segs[|segs| - 1]
    ensures forall k :: 0 < k < |r| - 1 ==> r[k] != ""
  {
    if |segs| <= 2 then segs
    else
      var inner := NonEmptyOnly(segs[1..|segs| - 1]);
      var r := [segs[0]] + inner + [segs[|segs| - 1]];
      assert forall k :: 0 < k < |r| - 1 ==> r[k] == inner[k - 1] && inner[k - 1] in inner;
      r
  }

  /** One segment of the resolution loop: `..` pops (nothing when the
      stack is empty), `.` is skipped, anything else is pushed. */
  function ResolveStep(acc: seq<string>, seg: string): seq<string> {
    if seg == ".." then (if |acc| > 0 then acc[..|acc| - 1] else acc)
    else if seg == "." then acc
    else acc + [seg]
  }

  function Resolve(segs: seq<string>): (r: seq<string>)
    ensures |r| <= |segs|
    decreases |segs|
  {
    if |segs| == 0 then [] else ResolveStep(Resolve(segs[..|segs| - 1]), segs[|segs| - 1])
  }

  predicate IsDotSegment(x: string) { x == "." || x == ".." }

  /** The resolved path of a non-empty href path against the empty base
      path, with the leading '/' that `urlunsplit` adds after a host. */
  /** The segments to resolve: a relative path is put after the base
      path's one empty segment and loses its empty inner segments. */
  function PathSegments(path: string): (r: seq<string>)
    requires path != ""
    ensures |r| > 0
  {
    if path[0] == '/' then Split(path, '/') else DropInnerEmpty([""] + Split(path, '/'))
  }

  function ResolvedPath(path: string): (r: string)
    requires path != ""
    ensures |r| > 0 && r[0] == '/'
  {
    var segs := PathSegments(path);
    var resolved := Resolve(segs);
    var full := if IsDotSegment(segs[|segs| - 1]) then resolved + [""] else resolved;
    var joined := Join(full, '/');
    if joined == "" then "/" else if joined[0] != '/' then "/" + joined else joined
  }

  /** An href without a host of its own, joined to the base. */
  function JoinRelative(p: Parts): (r: string)
    ensures StartsWith(r, BaseUrl)
  {
    if p.path == "" then BaseUrl + Tail(p) else BaseUrl + ResolvedPath(p.path) + Tail(p)
  }

  /** An href (after an "https:" scheme, if it had one) joined to the base. */
  function JoinRest(rest: string): (r: string)
    ensures StartsWith(r, "https://")
  {
    if StartsWith(rest, "//") then
      var k := 2 + FindFirst(rest[2..], {'/', '?', '#'});
      var netloc := rest[2..k];
      var p := PartsOf(rest[k..]);
      if netloc != "" then
        PrefixOfConcat("https://", netloc + p.path + Tail(p));
        "https://" + (netloc + p.path + Tail(p))
      else
        BaseUrlHttps(JoinRelative(p));
        JoinRelative(p)
    else
      BaseUrlHttps(JoinRelative(PartsOf(rest)));
      JoinRelative(PartsOf(rest))
  }

  lemma PrefixOfConcat(a: string, b: string)
    ensures StartsWith(a + b, a)
  {
    assert (a + b)[..|a|] == a;
  }

  /** Whatever starts with the base URL starts with its scheme. */
  lemma BaseUrlHttps(r: string)
    requires StartsWith(r, BaseUrl)
    ensures StartsWith(r, "https://")
  {
    assert BaseUrl[..8] == "https://";
    assert r[..8] == r[..|BaseUrl|][..8];
  }

  /** `urljoin(BaseUrl, href)` */
  function UrlJoin(href: string): (r: string)
    ensures r == href || StartsWith(r, "https://")
    ensures SchemeOf(href).Some? && SchemeOf(href).value.0 != "https" ==> r == href
    ensures href == "" ==> r == BaseUrl
  {
    if href == "" then BaseUrl
    else
      match SchemeOf(href)
      case Some((scheme, rest)) => if scheme != "https" then href else JoinRest(rest)
      case None => JoinRest(href)
  }

  // ---------------------------------------------------------------- lemmas

  lemma {:induction false} JoinConsHead(a: char, rest: seq<string>, c: char)
    requires |rest| > 0
    ensures Join([[a] + rest[0]] + rest[1..], c) == [a] + Join(rest, c)
  {
    var xs := [[a] + rest[0]] + rest[1..];
    if |rest| > 1 {
      assert xs[1..] == rest[1..];
    }
  }

  /** Joining the pieces of a split gives back the text. */
  lemma {:induction false} JoinSplit(s: string, c: char)
    ensures Join(Split(s, c), c) == s
    decreases |s|
  {
    if |s| > 0 {
      var rest := Split(s[1..], c);
      JoinSplit(s[1..], c);
      if s[0] == c {
        assert ([""] + rest)[1..] == rest;
        assert s == [c] + s[1..];
      } else {
        JoinConsHead(s[0], rest, c);
        assert s == [s[0]] + s[1..];
      }
    }
  }

  /** No `.` or `..` segment survives the resolution. */
  lemma {:induction false} ResolveNoDots(segs: seq<string>)
    ensures forall x :: x in Resolve(segs) ==> !IsDotSegment(x)
    decreases |segs|
  {
    if |segs| > 0 {
      var acc := Resolve(segs[..|segs| - 1]);
      ResolveNoDots(segs[..|segs| - 1]);
      if segs[|segs| - 1] == ".." && |acc| > 0 {
        assert forall x :: x in acc[..|acc| - 1] ==> x in acc;
      }
    }
  }

  /** A path without dot segments resolves to itself. */
  lemma {:induction false} ResolvePlain(segs: seq<string>)
    requires forall k :: 0 <= k < |segs| ==> !IsDotSegment(segs[k])
    ensures Resolve(segs) == segs
    decreases |segs|
  {
    if |segs| > 0 {
      ResolvePlain(segs[..|segs| - 1]);
      assert segs == segs[..|segs| - 1] + [segs[|segs| - 1]];
    }
  }

  /** Splitting text without a character gives pieces without it. */
  lemma {:induction false} SplitKeepsOut(s: string, c: char, d: char)
    requires d !in s
    ensures forall k :: 0 <= k < |Split(s, c)| ==> d !in Split(s, c)[k]
    decreases |s|
  {
    if |s| > 0 {
      SplitKeepsOut(s[1..], c, d);
    }
  }

  /** No `.` in the path: no piece is a dot segment. */
  lemma NoDotNoDotSegment(s: string)
    requires '.' !in s
    ensures forall k :: 0 <= k < |Split(s, '/')| ==> !IsDotSegment(Split(s, '/')[k])
  {
    SplitKeepsOut(s, '/', '.');
    forall k | 0 <= k < |Split(s, '/')| ensures !IsDotSegment(Split(s, '/')[k]) {
      var x := Split(s, '/')[k];
      assert '.' !in x;
      assert x != "." && x != ".." by {
        assert "."[0] == '.' && ".."[0] == '.';
      }
    }
  }

  /** `find` stops at the first character of `cs`. */
  lemma {:induction false} FindFirstAfter(s: string, t: string, cs: set<char>)
    requires forall j :: 0 <= j < |s| ==> s[j] !in cs
    requires t == [] || t[0] in cs
    ensures FindFirst(s + t, cs) == |s|
    decreases |s|
  {
    if |s| > 0 {
      assert (s + t)[1..] == s[1..] + t;
      FindFirstAfter(s[1..], t, cs);
    } else {
      assert s + t == t;
    }
  }

  /** No scheme unless the href starts with a letter. */
  lemma NoSchemeWithoutLetter(href: string)
    requires |href| > 0 && !IsAsciiLetter(href[0])
    ensures SchemeOf(href).None?
  {
  }

  /** A scheme is the lower-cased text before the first ':'. */
  lemma SchemeOfPrefix(href: string, scheme: string, rest: string)
    requires href == scheme + ":" + rest
    requires |scheme| > 0 && IsAsciiLetter(scheme[0])
    requires forall j :: 0 <= j < |scheme| ==> IsSchemeChar(scheme[j])
    ensures SchemeOf(href) == Some((Lower(scheme), rest))
  {
    assert forall j :: 0 <= j < |scheme| ==> scheme[j] != ':';
    FindFirstAfter(scheme, ":" + rest, {':'});
    assert scheme + ":" + rest == scheme + (":" + rest);
    assert href[..|scheme|] == scheme;
    assert href[|scheme| + 1..] == rest;
  }

  /** Text without '?' or '#' is all path. */
  lemma PartsOfPath(s: string)
    requires '?' !in s && '#' !in s
    ensures PartsOf(s) == Parts(s, "", "")
  {
    FindFirstAfter(s, "", {'#'});
    assert s + "" == s;
    assert s[..|s|] == s;
    FindFirstAfter(s, "", {'?'});
  }

  /** A '/'-rooted path without dot segments resolves to itself. */
  lemma ResolvedPathPlain(p: string)
    requires forall k :: 0 <= k < |Split(p, '/')| ==> !IsDotSegment(Split(p, '/')[k])
    ensures ResolvedPath("/" + p) == "/" + p
  {
    var path := "/" + p;
    var segs := Split(path, '/');
    SplitLeadingSlash(p);
    assert forall k :: 1 <= k < |segs| ==> segs[k] == Split(p, '/')[k - 1];
    ResolvePlain(segs);
    JoinSplit(path, '/');
    ResolvedPathOf(path, segs, segs);
  }

  lemma SplitLeadingSlash(p: string)
    ensures Split("/" + p, '/') == [""] + Split(p, '/')
  {
    assert ("/" + p)[1..] == p;
  }

  /** An href that starts with a '/' not followed by another, has no query,
      fragment or dot segment: the base URL followed by the href. */
  lemma UrlJoinPlainPath(p: string)
    requires p == "" || p[0] != '/'
    requires '?' !in p && '#' !in p
    requires forall k :: 0 <= k < |Split(p, '/')| ==> !IsDotSegment(Split(p, '/')[k])
    ensures UrlJoin("/" + p) == BaseUrl + "/" + p
  {
    var href := "/" + p;
    NoSchemeWithoutLetter(href);
    UrlJoinWithoutScheme(href);
    SingleSlash(p);
    PartsOfPath(href);
    ResolvedPathPlain(p);
    JoinRelativeOfPath(href);
    assert UrlJoin(href) == BaseUrl + href;
    ConcatAssoc(BaseUrl, "/", p);
  }

  /** The same for a path without any '.'. */
  lemma UrlJoinDotFreePath(p: string)
    requires p == "" || p[0] != '/'
    requires '?' !in p && '#' !in p && '.' !in p
    ensures UrlJoin("/" + p) == BaseUrl + "/" + p
  {
    NoDotNoDotSegment(p);
    UrlJoinPlainPath(p);
  }

  lemma ConcatAssoc(a: string, b: string, c: string)
    ensures a + (b + c) == a + b + c
  {
  }

  lemma SingleSlash(p: string)
    requires p == "" || p[0] != '/'
    ensures !StartsWith("/" + p, "//")
  {
    var href := "/" + p;
    if |href| >= 2 {
      assert href[..2][1] == href[1] == p[0];
    }
  }

  lemma UrlJoinWithoutScheme(href: string)
    requires href != "" && SchemeOf(href).None?
    ensures UrlJoin(href) == JoinRest(href)
  {
  }

  lemma JoinRelativeOfPath(path: string)
    requires path != "" && !StartsWith(path, "//") && PartsOf(path) == Parts(path, "", "")
    ensures JoinRest(path) == BaseUrl + ResolvedPath(path)
  {
    assert Tail(Parts(path, "", "")) == "";
  }

  /** A query-only href, the form of the numbered pagination links. */
  lemma UrlJoinQuery(q: string)
    requires q != "" && '#' !in q
    ensures UrlJoin("?" + q) == BaseUrl + ("?" + q)
  {
    var href := "?" + q;
    NoSchemeWithoutLetter(href);
    assert !StartsWith(href, "//");
    FindFirstAfter(href, "", {'#'});
    assert href + "" == href && href[..|href|] == href;
    assert FindFirst(href, {'?'}) == 0;
    assert href[1..] == q;
    assert PartsOf(href) == Parts("", q, "");
  }

  /** The page the scraper puts first is the joined national-assembly path. */
  lemma NationalAssemblyJoined()
    ensures UrlJoin("/parliament/national_assembly/") ==
            "https://mzalendo.com/parliament/national_assembly/"
  {
    NationalAssemblyPath();
    UrlJoinDotFreePath("parliament/national_assembly/");
    NationalAssemblyText();
  }

  lemma NationalAssemblyPath()
    ensures "/parliament/national_assembly/" == "/" + "parliament/national_assembly/"
  {
  }

  lemma NationalAssemblyText()
    ensures BaseUrl + "/" + "parliament/national_assembly/" ==
            "https://mzalendo.com/parliament/national_assembly/"
  {
  }

  /** An href with another scheme is returned unchanged. */
  lemma UrlJoinOtherScheme()
    ensures UrlJoin("javascript:void(0)") == "javascript:void(0)"
    ensures UrlJoin("http://mzalendo.com/x") == "http://mzalendo.com/x"
  {
    SchemeJavascript();
    SchemeHttp();
  }

  lemma SchemeJavascript()
    ensures SchemeOf("javascript:void(0)").Some?
    ensures SchemeOf("javascript:void(0)").value.0 == "javascript"
  {
    JavascriptText();
    SchemeJavascriptOf("javascript" + ":" + "void(0)");
  }

  lemma SchemeJavascriptOf(href: string)
    requires href == "javascript" + ":" + "void(0)"
    ensures SchemeOf(href) == Some(("javascript", "void(0)"))
  {
    SchemeOfPrefix(href, "javascript", "void(0)");
    LowerIdentity("javascript");
  }

  lemma JavascriptText()
    ensures "javascript" + ":" + "void(0)" == "javascript:void(0)"
  {
  }

  lemma SchemeHttp()
    ensures SchemeOf("http://mzalendo.com/x").Some?
    ensures SchemeOf("http://mzalendo.com/x").value.0 == "http"
  {
    HttpText();
    SchemeHttpOf("http" + ":" + "//mzalendo.com/x");
  }

  lemma SchemeHttpOf(href: string)
    requires href == "http" + ":" + "//mzalendo.com/x"
    ensures SchemeOf(href) == Some(("http", "//mzalendo.com/x"))
  {
    SchemeOfPrefix(href, "http", "//mzalendo.com/x");
    LowerIdentity("http");
  }

  lemma HttpText()
    ensures "http" + ":" + "//mzalendo.com/x" == "http://mzalendo.com/x"
  {
  }

  /** A first character that is not the separator starts the first piece. */
  lemma SplitFirstPiece(s: string, c: char, first: string, more: seq<string>)
    requires |s| > 0 && s[0] != c && Split(s[1..], c) == [first] + more
    ensures Split(s, c) == [[s[0]] + first] + more
  {
    assert ([first] + more)[1..] == more;
  }

  /** A segment with no separator, dot, query, fragment or scheme mark. */
  predicate PlainSegment(x: string) {
    x != "" && '/' !in x && '.' !in x && '?' !in x && '#' !in x && ':' !in x
  }

  lemma PlainNotDot(x: string)
    requires '.' !in x
    ensures !IsDotSegment(x)
  {
    assert "."[0] == '.' && ".."[0] == '.';
  }

  /** Without a ':' there is no scheme. */
  lemma NoSchemeWithoutColon(href: string)
    requires ':' !in href
    ensures SchemeOf(href).None?
  {
    FindFirstAfter(href, "", {':'});
    assert href + "" == href;
  }

  /** A relative path loses its empty inner segments. */
  lemma UrlJoinCollapsesEmptySegments(a: string, b: string)
    requires PlainSegment(a) && PlainSegment(b)
    ensures UrlJoin(a + "//" + b) == BaseUrl + "/" + a + "/" + b
  {
    EmptySegmentsHref(a, b);
    UrlJoinRelativePath(a + "//" + b);
    ResolvedEmptySegments(a, b);
    ConcatAssoc(BaseUrl, "/" + a + "/", b);
    ConcatAssoc(BaseUrl, "/" + a, "/");
    ConcatAssoc(BaseUrl, "/", a);
  }

  lemma EmptySegmentsHref(a: string, b: string)
    requires PlainSegment(a) && PlainSegment(b)
    ensures ':' !in a + "//" + b && '?' !in a + "//" + b && '#' !in a + "//" + b
    ensures !StartsWith(a + "//" + b, "//")
  {
    assert (a + "//" + b)[0] == a[0];
  }

  /** An href without scheme, host, query or fragment: the base URL
      followed by its resolved path. */
  lemma UrlJoinRelativePath(href: string)
    requires ':' !in href && '?' !in href && '#' !in href
    requires href != "" && !StartsWith(href, "//")
    ensures UrlJoin(href) == BaseUrl + ResolvedPath(href)
  {
    NoSchemeWithoutColon(href);
    UrlJoinWithoutScheme(href);
    PartsOfPath(href);
    JoinRelativeOfPath(href);
  }

  lemma SplitEmptySegments(a: string, b: string)
    requires '/' !in a && '/' !in b
    ensures Split(a + "//" + b, '/') == [a, "", b]
  {
    assert a + "//" + b == a + ['/'] + ("" + ['/'] + b);
    SplitAfter(a, '/', "" + ['/'] + b);
    SplitAfter("", '/', b);
    SplitWithout(b, '/');
  }

  lemma ResolvedEmptySegments(a: string, b: string)
    requires PlainSegment(a) && PlainSegment(b)
    ensures ResolvedPath(a + "//" + b) == "/" + a + "/" + b
  {
    SplitEmptySegments(a, b);
    var segs := [""] + [a, "", b];
    assert segs[1..|segs| - 1] == [a, ""];
    assert [a, ""][..1] == [a] && [a][..0] == [];
    assert NonEmptyOnly([a, ""]) == [a];
    assert DropInnerEmpty(segs) == ["", a, b];
    PlainNotDot(a);
    PlainNotDot(b);
    ResolvePlain(["", a, b]);
    JoinThree(a, b);
    ResolvedPathOf(a + "//" + b, ["", a, b], ["", a, b]);
  }

  /** The resolved path from the segments and their resolution. */
  lemma ResolvedPathOf(path: string, segs: seq<string>, resolved: seq<string>)
    requires path != ""
    requires segs == PathSegments(path)
    requires Resolve(segs) == resolved && !IsDotSegment(segs[|segs| - 1])
    requires |Join(resolved, '/')| > 0 && Join(resolved, '/')[0] == '/'
    ensures ResolvedPath(path) == Join(resolved, '/')
  {
  }

  lemma JoinThree(a: string, b: string)
    ensures Join(["", a, b], '/') == "/" + a + "/" + b
  {
    assert ["", a, b][1..] == [a, b] && [a, b][1..] == [b];
    assert Join([a, b], '/') == a + ['/'] + b;
    assert "" + ['/'] + (a + ['/'] + b) == "/" + a + "/" + b;
  }

  /** Dot segments are removed: `..` drops the segment before it. */
  lemma UrlJoinRemovesDotSegments(a: string, b: string)
    requires PlainSegment(a) && PlainSegment(b)
    ensures UrlJoin("/" + a + "/../" + b) == BaseUrl + "/" + b
  {
    DotSegmentsHref(a, b);
    UrlJoinRelativePath("/" + a + "/../" + b);
    ResolvedDotSegments(a, b);
    ConcatAssoc(BaseUrl, "/", b);
  }

  lemma DotSegmentsHref(a: string, b: string)
    requires PlainSegment(a) && PlainSegment(b)
    ensures ':' !in "/" + a + "/../" + b && '?' !in "/" + a + "/../" + b && '#' !in "/" + a + "/../" + b
    ensures !StartsWith("/" + a + "/../" + b, "//")
  {
    assert ("/" + a + "/../" + b)[1] == a[0];
  }

  lemma SplitDotSegments(a: string, b: string)
    requires '/' !in a && '/' !in b
    ensures Split("/" + a + "/../" + b, '/') == ["", a, "..", b]
  {
    assert "/" + a + "/../" + b == "" + ['/'] + (a + ['/'] + (".." + ['/'] + b));
    SplitAfter("", '/', a + ['/'] + (".." + ['/'] + b));
    SplitAfter(a, '/', ".." + ['/'] + b);
    SplitAfter("..", '/', b);
    SplitWithout(b, '/');
  }

  lemma ResolvedDotSegments(a: string, b: string)
    requires PlainSegment(a) && PlainSegment(b)
    ensures ResolvedPath("/" + a + "/../" + b) == "/" + b
  {
    SplitDotSegments(a, b);
    PlainNotDot(a);
    PlainNotDot(b);
    var segs := ["", a, "..", b];
    assert segs[..3] == ["", a, ".."] && segs[..2] == ["", a] && segs[..1] == [""];
    assert Resolve(["", a]) == ["", a];
    assert ["", a][..1] == [""] && ["", a, ".."][..2] == ["", a];
    assert Resolve(["", a, ".."]) == ResolveStep(["", a], "..") == [""];
    assert Resolve(segs) == ["", b];
    assert ["", b][1..] == [b];
    assert Join(["", b], '/') == "/" + b;
    ResolvedPathOf("/" + a + "/../" + b, segs, ["", b]);
  }

  lemma JoinRestOfParts(href: string, p: Parts)
    requires !StartsWith(href, "//") && PartsOf(href) == p && p.path != ""
    ensures JoinRest(href) == BaseUrl + ResolvedPath(p.path) + Tail(p)
  {
  }

  /** A `.` segment alone still leaves the root path before the query. */
  lemma UrlJoinDotBeforeQuery(q: string)
    requires q != "" && '#' !in q
    ensures UrlJoin("./?" + q) == BaseUrl + "/?" + q
  {
    DotQueryHref(q);
    PartsOfQuery("./?" + q, "./", q);
    UrlJoinRelativeParts("./?" + q, Parts("./", q, ""));
    ResolvedDotAlone();
    assert Tail(Parts("./", q, "")) == "?" + q;
    ConcatAssoc(BaseUrl, "/", "?" + q);
    assert "/" + ("?" + q) == "/?" + q;
  }

  lemma DotQueryHref(q: string)
    ensures "./?" + q == "./" + ("?" + q)
    ensures ("./?" + q)[0] == '.' && !StartsWith("./?" + q, "//")
  {
  }

  /** An href without scheme or host: the base URL followed by the
      resolved path, the query and the fragment. */
  lemma UrlJoinRelativeParts(href: string, p: Parts)
    requires href != "" && !IsAsciiLetter(href[0]) && !StartsWith(href, "//")
    requires PartsOf(href) == p && p.path != ""
    ensures UrlJoin(href) == BaseUrl + ResolvedPath(p.path) + Tail(p)
  {
    NoSchemeWithoutLetter(href);
    UrlJoinWithoutScheme(href);
    JoinRestOfParts(href, p);
  }

  /** A path followed by a query and no fragment. */
  lemma PartsOfQuery(href: string, path: string, q: string)
    requires href == path + ("?" + q)
    requires '?' !in path && '#' !in path && '#' !in q
    ensures PartsOf(href) == Parts(path, q, "")
  {
    assert forall j :: 0 <= j < |href| ==> href[j] != '#' by {
      forall j | 0 <= j < |href| ensures href[j] != '#' {
        if j < |path| { assert href[j] == path[j]; }
        else if j > |path| { assert href[j] == q[j - |path| - 1]; }
      }
    }
    FindFirstAfter(href, "", {'#'});
    assert href + "" == href && href[..|href|] == href;
    FindFirstAfter(path, "?" + q, {'?'});
    assert href[|path| + 1..] == q;
  }

  lemma ResolvedDotAlone()
    ensures ResolvedPath("./") == "/"
  {
    SplitDotAlone();
    DropInnerDotAlone();
    ResolveDotAlone();
    ResolvedPathOf("./", ["", ".", ""], ["", ""]);
  }

  lemma SplitDotAlone()
    ensures Split("./", '/') == [".", ""]
  {
    assert "./"[1..] == "/" && "/"[1..] == "";
    assert Split("/", '/') == ["", ""];
    SplitFirstPiece("./", '/', "", [""]);
    assert ["./"[0]] + "" == ".";
  }

  lemma DropInnerDotAlone()
    ensures DropInnerEmpty([""] + [".", ""]) == ["", ".", ""]
  {
    var segs := [""] + [".", ""];
    assert segs[1..|segs| - 1] == ["."];
    assert ["."][..0] == [];
    assert NonEmptyOnly(["."]) == ["."];
  }

  lemma ResolveDotAlone()
    ensures Resolve(["", ".", ""]) == ["", ""]
    ensures Join(["", ""], '/') == "/"
  {
    var t := ["", ".", ""];
    assert t[..2] == ["", "."] && t[..1] == [""] && t[..0] == [];
    assert Resolve(["", "."]) == [""];
    assert ["", ""][1..] == [""];
  }
}
