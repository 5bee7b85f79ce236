/** `SimplyPrintClient._join_url`: request URLs built from a base and path segments. */
module Urls {
  import opened Text

  /** `s` begins with a "." or ".." segment. */
  predicate DotSegment(s: string) {
    && |s| > 0 && s[0] == '.'
    && (|s| == 1 || s[1] == '/' || (s[1] == '.' && (|s| == 2 || s[2] == '/')))
  }

  /** No segment of `s` is empty or a dot segment; `atStart` says a segment
      begins at the first character. */
  predicate SegmentsClean(s: string, atStart: bool)
    decreases |s|
  {
    || |s| == 0
    || (&& !(atStart && (s[0] == '/' || DotSegment(s)))
        && SegmentsClean(s[1..], s[0] == '/'))
  }

  /** A path that reference resolution (section 5.2 of RFC 3986, as Python's
      urljoin implements it) leaves alone: no query or fragment, no empty
      segment (urljoin collapses "//"), no dot segment (urljoin removes them). */
  predicate CleanPath(s: string) {
    '?' !in s && '#' !in s && SegmentsClean(s, true)
  }

  /** Text that urlsplit hands on unchanged: it deletes every tab, CR and LF
      (the WHATWG URL standard's "remove all ASCII tab or newline"), and it
      strips leading control characters and spaces. */
  predicate SplitSafe(t: string) {
    && '\t' !in t && '\r' !in t && '\n' !in t
    && (|t| == 0 || t[0] > ' ')
  }

  /** What the model assumes of a path segment: once stripped of '/', it is a
      non-empty clean relative path without ':' (which urljoin would read as
      a scheme), and urlsplit leaves it unchanged. */
  predicate PlainSegment(p: string) {
    PlainPath(Strip(p))
  }

  /** A non-empty clean relative path without ':' that urlsplit leaves alone. */
  predicate PlainPath(t: string) {
    && |t| > 0
    && CleanPath(t)
    && ':' !in t
    && SplitSafe(t)
  }

  /** A host urlsplit accepts: ASCII only (a non-ASCII host is checked against
      its NFKC form, which may raise ValueError) and no '[' or ']' (an unmatched
      bracket is an invalid IPv6 literal, ValueError). The host is everything
      before the first '/'. */
  predicate PlainHost(rest: string)
    decreases |rest|
  {
    || |rest| == 0
    || rest[0] == '/'
    || (rest[0] != '[' && rest[0] != ']' && rest[0] < 128 as char && PlainHost(rest[1..]))
  }

  /** An http or https base URL with a plain host and a clean path, which
      urlsplit accepts and leaves unchanged. */
  predicate WebBase(b: string) {
    var t := RStrip(b);
    var rest := if "https://" <= t then t[8..] else if "http://" <= t then t[7..] else "";
    && ("https://" <= t || "http://" <= t)
    && |rest| > 0 && rest[0] != '/'
    && PlainHost(rest)
    && CleanPath(rest)
    && SplitSafe(t)
  }

  /** The merge step of reference resolution (section 5.2.3 of RFC 3986) for a
      relative-path reference against a base whose path is not empty:
      everything of the base up to and including its last '/', followed by the
      reference. `_join_url` only ever merges against a URL ending in '/'. */
  function Merge(base: string, ref: string): (r: string)
    ensures |base| > 0 && base[|base| - 1] == '/' ==> r == base + ref
    decreases |base|
  {
    if |base| == 0 then ref
    else if base[|base| - 1] == '/' then base + ref
    else Merge(base[..|base| - 1], ref)
  }

  /** The merge keeps exactly the base up to its last '/' (all of it when it
      ends in '/'), or nothing when it has no '/'. */
  lemma {:induction false} MergeLastSlash(base: string, ref: string)
    ensures '/' !in base ==> Merge(base, ref) == ref
    ensures '/' in base ==> exists i :: && 0 <= i < |base| && base[i] == '/' && '/' !in base[i + 1..]
                                        && Merge(base, ref) == base[..i + 1] + ref
    decreases |base|
  {
    if |base| > 0 {
      var init := base[..|base| - 1];
      if base[|base| - 1] == '/' {
        assert base[..|base|] == base;
        assert base[|base|..] == [];
      } else {
        MergeLastSlash(init, ref);
        assert base == init + [base[|base| - 1]];
        SlashSnoc(init, base[|base| - 1]);
        if '/' in init {
          var i :| 0 <= i < |init| && init[i] == '/' && '/' !in init[i + 1..] && Merge(init, ref) == init[..i + 1] + ref;
          LastSlashSnoc(init, base[|base| - 1], i);
        }
      }
    }
  }

  lemma SlashSnoc(init: string, c: char)
    requires c != '/'
    ensures '/' in init + [c] <==> '/' in init
  {
    assert forall x :: x in init + [c] <==> x in init || x == c;
  }

  lemma LastSlashSnoc(init: string, c: char, i: nat)
    requires c != '/' && i < |init| && init[i] == '/' && '/' !in init[i + 1..]
    ensures var base := init + [c]; base[i] == '/' && '/' !in base[i + 1..] && base[..i + 1] == init[..i + 1]
  {
    var base := init + [c];
    assert base[i + 1..] == init[i + 1..] + [c];
    SlashSnoc(init[i + 1..], c);
  }

  /** The segments, each stripped of '/', each preceded by a single '/'. */
  function Joined(parts: seq<string>): string
  {
    if |parts| == 0 then ""
    else Joined(parts[..|parts| - 1]) + "/" + Strip(parts[|parts| - 1])
  }

  lemma JoinedSnoc(parts: seq<string>, i: nat)
    requires i < |parts|
    ensures Joined(parts[..i + 1]) == Joined(parts[..i]) + "/" + Strip(parts[i])
  {
    assert parts[..i + 1][..i] == parts[..i];
  }

  /** Resolving the next stripped segment against the URL built so far appends it. */
  lemma MergeStep(stem: string, parts: seq<string>, i: nat)
    requires i < |parts|
    ensures Merge(stem + Joined(parts[..i]) + "/", Strip(parts[i]) + "/") == stem + Joined(parts[..i + 1]) + "/"
  {
    var u := stem + Joined(parts[..i]) + "/";
    assert u[|u| - 1] == '/';
    JoinedSnoc(parts, i);
    Regroup(stem, Joined(parts[..i]), Strip(parts[i]));
  }

  lemma Regroup2(stem: string, a: string, b: string)
    ensures stem + ("/" + a + "/" + b) + "" == stem + "/" + a + "/" + b
  {
  }

  lemma Regroup(stem: string, joined: string, seg: string)
    ensures (stem + joined + "/") + (seg + "/") == stem + (joined + "/" + seg) + "/"
  {
  }

  /** Neither the stripped base nor a stripped segment ends in '/', so neither does their join. */
  lemma StemEnd(stem: string, parts: seq<string>)
    requires |stem| > 0 && stem[|stem| - 1] != '/'
    requires |parts| > 0 ==> |Strip(parts[|parts| - 1])| > 0
    ensures var s := stem + Joined(parts); |s| > 0 && s[|s| - 1] != '/'
  {
  }

  lemma JoinedPair(a: string, b: string)
    ensures Joined([a, b]) == "/" + Strip(a) + "/" + Strip(b)
  {
    assert [a, b][..1] == [a];
    assert [a][..0] == [];
    assert Joined([a]) == "/" + Strip(a);
    assert Joined([a, b]) == Joined([a]) + "/" + Strip(b);
  }

  /** Stripping the one '/' after a URL that does not end in '/' restores it. */
  lemma TrailingSlash(x: string, keep: bool)
    requires |x| > 0 && x[|x| - 1] != '/'
    ensures var u := if keep then x + "/" else RStrip(x + "/");
            && u == x + (if keep then "/" else "")
            && |u| > 0 && (u[|u| - 1] == '/' <==> keep)
  {
    assert (x + "/")[..|x + "/"| - 1] == x;
  }

  /** Stripping trailing '/' twice strips nothing more: the client strips the
      base once when it is configured and again in every join. */
  lemma RStripIdempotent(s: string)
    ensures RStrip(RStrip(s)) == RStrip(s)
  {
  }

  /** A base stays a web base once its trailing '/' are stripped. */
  lemma StrippedBase(base: string)
    requires WebBase(base)
    ensures WebBase(RStrip(base)) && RStrip(RStrip(base)) == RStrip(base)
  {
    RStripIdempotent(base);
  }

  lemma PairSegments(a: string, b: string)
    requires PlainSegment(a) && PlainSegment(b)
    ensures forall i :: 0 <= i < |[a, b]| ==> PlainSegment([a, b][i])
  {
    forall i | 0 <= i < |[a, b]| ensures PlainSegment([a, b][i]) {
      assert i == 0 || i == 1;
    }
  }

  /** The loop of `_join_url`: resolve each stripped segment plus '/' against
      the URL built so far, which always ends in '/'. */
  method ResolveSegments(stem: string, parts: seq<string>) returns (url: string)
    requires WebBase(stem) && RStrip(stem) == stem
    requires forall i :: 0 <= i < |parts| ==> PlainSegment(parts[i])
    ensures url == stem + Joined(parts) + "/"
  {
    url := stem + "/";
    for i := 0 to |parts|
      invariant url == stem + Joined(parts[..i]) + "/"
    {
      MergeStep(stem, parts, i);
      url := Merge(url, Strip(parts[i]) + "/");
    }
    assert parts[..|parts|] == parts;
  }

  /** What the joining loop needs of a web base and plain segments. */
  lemma JoinReady(base: string, parts: seq<string>)
    requires WebBase(base)
    requires forall i :: 0 <= i < |parts| ==> PlainSegment(parts[i])
    ensures var stem := RStrip(base);
            && |stem| > 0 && stem[|stem| - 1] != '/'
            && WebBase(stem) && RStrip(stem) == stem
    ensures |parts| > 0 ==> |Strip(parts[|parts| - 1])| > 0
  {
    StrippedBase(base);
    if |parts| > 0 {
      assert PlainSegment(parts[|parts| - 1]);
    }
  }

  /** `_join_url(base, parts, trailing_slash)`: the base with its trailing '/'
      replaced by one '/', each segment resolved against it, and the trailing
      '/' dropped unless it is asked for. */
  method JoinUrl(base: string, parts: seq<string>, trailingSlash: bool) returns (url: string)
    requires WebBase(base)
    requires forall i :: 0 <= i < |parts| ==> PlainSegment(parts[i])
    ensures url == RStrip(base) + Joined(parts) + (if trailingSlash then "/" else "")
    ensures |url| > 0 && (url[|url| - 1] == '/' <==> trailingSlash)
  {
    var stem := RStrip(base);
    JoinReady(base, parts);
    StemEnd(stem, parts);
    url := ResolveSegments(stem, parts);
    TrailingSlash(stem + Joined(parts), trailingSlash);
    if !trailingSlash {
      url := RStrip(url);
    }
  }

  /** The endpoint paths the client requests, "/filament/GetFilament" and
      "/filament/type/Get", written segment by segment. */
  const FilamentEndpoint := "/" + ("filament" + "/" + "GetFilament")
  const MaterialEndpoint := "/" + ("filament" + "/" + ("type" + "/" + "Get"))

  /** One plain path segment: not empty, not a dot segment, and free of '/',
      ':', '?', '#', tab, CR, LF and leading control characters. */
  predicate Word(a: string) {
    && |a| > 0 && a[0] != '.' && a[0] > ' '
    && '/' !in a && ':' !in a && '?' !in a && '#' !in a
    && '\t' !in a && '\r' !in a && '\n' !in a
  }

  lemma {:induction false} WordThen(a: string, rest: string, atStart: bool)
    requires '/' !in a && (atStart && |a| > 0 ==> a[0] != '.')
    requires SegmentsClean(rest, if |a| == 0 then atStart else false)
    ensures SegmentsClean(a + rest, atStart)
    decreases |a|
  {
    if |a| > 0 {
      assert (a + rest)[0] == a[0] && a[0] in a;
      assert (a + rest)[1..] == a[1..] + rest;
      WordThen(a[1..], rest, false);
    } else {
      assert a + rest == rest;
    }
  }

  /** A word on its own is a plain path. */
  lemma WordPlain(a: string)
    requires Word(a)
    ensures PlainPath(a) && a[0] != '/' && a[|a| - 1] != '/'
  {
    assert a[|a| - 1] in a;
    WordThen(a, "", true);
    assert a + "" == a;
  }

  /** A word, a '/', then a plain path is a plain path. */
  lemma WordsPlain(a: string, b: string)
    requires Word(a) && PlainPath(b)
    ensures PlainPath(a + "/" + b)
    ensures var t := a + "/" + b; t[0] != '/' && t[|t| - 1] == b[|b| - 1]
  {
    var t := a + "/" + b;
    assert ("/" + b)[1..] == b;
    assert SegmentsClean("/" + b, false);
    assert t == a + ("/" + b);
    WordThen(a, "/" + b, true);
    assert t[0] == a[0];
    forall c | c in t ensures c in a || c == '/' || c in b {
      var i :| 0 <= i < |t| && t[i] == c;
      if i < |a| {
        assert a[i] == c;
      } else if i > |a| {
        assert b[i - |a| - 1] == c;
      }
    }
  }

  /** A leading '/' before text that neither starts nor ends in '/' is what strip removes. */
  lemma StripLeadingSlash(t: string)
    requires |t| > 0 && t[0] != '/' && t[|t| - 1] != '/'
    ensures Strip("/" + t) == t
  {
    var s := "/" + t;
    assert s[|s| - 1] == t[|t| - 1];
    assert RStrip(s) == s;
    assert s[1..] == t;
    assert LStrip(s) == LStrip(t) == t;
  }

  /** Both endpoint paths are plain segments, so `RequestUrl` covers every
      request the client makes for a web base and a plain company id. */
  lemma EndpointsPlain()
    ensures PlainSegment(FilamentEndpoint) && PlainSegment(MaterialEndpoint)
  {
    FilamentEndpointPlain();
    MaterialEndpointPlain();
  }

  /** '/' + a word + '/' + a plain path is a plain segment. */
  lemma SlashWords(a: string, b: string)
    requires Word(a) && PlainPath(b) && b[|b| - 1] != '/'
    ensures PlainSegment("/" + (a + "/" + b))
  {
    WordsPlain(a, b);
    StripLeadingSlash(a + "/" + b);
  }

  lemma FilamentWords()
    ensures Word("filament") && Word("GetFilament")
  {
  }

  lemma FilamentEndpointPlain()
    ensures PlainSegment(FilamentEndpoint)
  {
    FilamentWords();
    WordPlain("GetFilament");
    SlashWords("filament", "GetFilament");
  }

  lemma MaterialWords()
    ensures Word("filament") && Word("type") && Word("Get")
  {
  }

  lemma MaterialEndpointPlain()
    ensures PlainSegment(MaterialEndpoint)
  {
    MaterialWords();
    WordPlain("Get");
    WordsPlain("type", "Get");
    SlashWords("filament", "type" + "/" + "Get");
  }

  /** The URL `_get(endpoint)` requests: the configured base (stripped of
      trailing '/' once when configured, and again by the join), the company
      id, then the endpoint path, with no trailing '/'. */
  method RequestUrl(base: string, companyId: string, endpoint: string) returns (url: string)
    requires WebBase(base) && PlainSegment(companyId) && PlainSegment(endpoint)
    ensures url == RStrip(base) + "/" + Strip(companyId) + "/" + Strip(endpoint)
  {
    StrippedBase(base);
    PairSegments(companyId, endpoint);
    JoinedPair(companyId, endpoint);
    url := JoinUrl(RStrip(base), [companyId, endpoint], false);
    Regroup2(RStrip(base), Strip(companyId), Strip(endpoint));
  }
}
