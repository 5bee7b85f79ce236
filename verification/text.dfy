/** Operations on Python `str` values the client and the page rely on:
    ordering, sorted insertion, stripping of '/', and decimal rendering. */
module Text {

  /** Python's `a < b` on str: lexicographic by code point, a proper prefix first. */
  predicate Below(a: string, b: string)
    decreases |a|
  {
    if |a| == 0 then |b| > 0
    else if |b| == 0 then false
    else if a[0] == b[0] then Below(a[1..], b[1..])
    else a[0] < b[0]
  }

  lemma {:induction false} BelowTransitive(a: string, b: string, c: string)
    requires Below(a, b) && Below(b, c)
    ensures Below(a, c)
    decreases |a|
  {
    if |a| > 0 && a[0] == b[0] && b[0] == c[0] {
      BelowTransitive(a[1..], b[1..], c[1..]);
    }
  }

  lemma {:induction false} BelowTotal(a: string, b: string)
    ensures a == b || Below(a, b) || Below(b, a)
    decreases |a|
  {
    if |a| > 0 && |b| > 0 && a[0] == b[0] {
      BelowTotal(a[1..], b[1..]);
      if a[1..] == b[1..] {
        assert a == [a[0]] + a[1..] && b == [b[0]] + b[1..];
      }
    }
  }

  /** Strictly increasing, hence also free of duplicates. */
  predicate StrictlySorted(xs: seq<string>) {
    forall i, j :: 0 <= i < j < |xs| ==> Below(xs[i], xs[j])
  }

  lemma HeadBelowTail(xs: seq<string>)
    requires StrictlySorted(xs) && |xs| > 0
    ensures forall y :: y in xs[1..] ==> Below(xs[0], y)
  {
    forall y | y in xs[1..]
      ensures Below(xs[0], y)
    {
      var k :| 0 <= k < |xs[1..]| && xs[1..][k] == y;
      assert xs[k + 1] == y;
    }
  }

  lemma ConsSorted(h: string, xs: seq<string>)
    requires StrictlySorted(xs)
    requires forall y :: y in xs ==> Below(h, y)
    ensures StrictlySorted([h] + xs)
  {
    var r := [h] + xs;
    forall i, j | 0 <= i < j < |r|
      ensures Below(r[i], r[j])
    {
      if i == 0 {
        assert r[j] == xs[j - 1];
        assert xs[j - 1] in xs;
      } else {
        assert r[i] == xs[i - 1] && r[j] == xs[j - 1];
      }
    }
  }

  /** Adds `x` to a strictly sorted list, keeping it strictly sorted; a value
      already present is not added twice. */
  function Insert(x: string, xs: seq<string>): (r: seq<string>)
    requires StrictlySorted(xs)
    ensures StrictlySorted(r)
    ensures forall y :: y in r <==> y == x || y in xs
  {
    if |xs| == 0 then [x]
    else if x == xs[0] then xs
    else if Below(x, xs[0]) then
      assert forall y :: y in xs ==> Below(x, y) by {
        HeadBelowTail(xs);
        forall y | y in xs[1..] ensures Below(x, y) {
          BelowTransitive(x, xs[0], y);
        }
        assert xs == [xs[0]] + xs[1..];
      }
      ConsSorted(x, xs);
      [x] + xs
    else
      BelowTotal(x, xs[0]);
      HeadBelowTail(xs);
      assert StrictlySorted(xs[1..]) by {
        forall i, j | 0 <= i < j < |xs[1..]| ensures Below(xs[1..][i], xs[1..][j]) {
          assert xs[1..][i] == xs[i + 1] && xs[1..][j] == xs[j + 1];
        }
      }
      var rest := Insert(x, xs[1..]);
      assert xs == [xs[0]] + xs[1..];
      ConsSorted(xs[0], rest);
      [xs[0]] + rest
  }

  /** `s.rstrip("/")`. */
  function RStrip(s: string): (r: string)
    ensures r <= s
    ensures forall i :: |r| <= i < |s| ==> s[i] == '/'
    ensures |r| == 0 || r[|r| - 1] != '/'
  {
    if |s| == 0 || s[|s| - 1] != '/' then s else RStrip(s[..|s| - 1])
  }

  /** `s.lstrip("/")`. */
  function LStrip(s: string): (r: string)
    ensures |r| <= |s| && r == s[|s| - |r|..]
    ensures forall i :: 0 <= i < |s| - |r| ==> s[i] == '/'
    ensures |r| == 0 || r[0] != '/'
  {
    if |s| == 0 || s[0] != '/' then s else LStrip(s[1..])
  }

  /** `s.strip("/")`: the part of `s` between its leading and trailing runs of '/'. */
  function Strip(s: string): (r: string)
    ensures |r| <= |RStrip(s)|
    ensures var lo := |RStrip(s)| - |r|;
            && r == s[lo..lo + |r|]
            && (forall i :: 0 <= i < lo ==> s[i] == '/')
            && (forall i :: lo + |r| <= i < |s| ==> s[i] == '/')
    ensures |r| == 0 || (r[0] != '/' && r[|r| - 1] != '/')
  {
    var t := RStrip(s);
    var r := LStrip(t);
    StripParts(s, t, r);
    r
  }

  /** Where the two halves of `Strip` leave the result inside `s`. */
  lemma StripParts(s: string, t: string, r: string)
    requires t <= s && forall i :: |t| <= i < |s| ==> s[i] == '/'
    requires |t| == 0 || t[|t| - 1] != '/'
    requires |r| <= |t| && r == t[|t| - |r|..] && forall i :: 0 <= i < |t| - |r| ==> t[i] == '/'
    requires |r| == 0 || r[0] != '/'
    ensures var lo := |t| - |r|;
            && r == s[lo..lo + |r|]
            && (forall i :: 0 <= i < lo ==> s[i] == '/')
            && (forall i :: lo + |r| <= i < |s| ==> s[i] == '/')
    ensures |r| == 0 || (r[0] != '/' && r[|r| - 1] != '/')
  {
    var lo := |t| - |r|;
    assert t == s[..|t|];
    assert forall i :: 0 <= i < lo ==> s[i] == t[i];
  }

  function DigitChar(d: nat): (c: char)
    requires d < 10
    ensures '0' <= c <= '9'
  {
    (48 + d) as char
  }

  predicate AllDigits(s: string) {
    forall i :: 0 <= i < |s| ==> '0' <= s[i] <= '9'
  }

  /** The number a string of decimal digits denotes. */
  function DigitsValue(s: string): nat
    requires AllDigits(s)
  {
    if |s| == 0 then 0 else DigitsValue(s[..|s| - 1]) * 10 + (s[|s| - 1] as int - 48)
  }

  /** Python's `str(n)` for a non-negative int: its decimal digits, without
      leading zeros. */
  function Decimal(n: nat): (s: string)
    ensures |s| > 0 && AllDigits(s)
    ensures (s[0] == '0') <==> n == 0
  {
    if n < 10 then [DigitChar(n)] else Decimal(n / 10) + [DigitChar(n % 10)]
  }

  /** Reading the rendered digits back gives the number. */
  lemma {:induction false} DecimalRoundTrip(n: nat)
    ensures DigitsValue(Decimal(n)) == n
  {
    var s := Decimal(n);
    if n >= 10 {
      DecimalRoundTrip(n / 10);
      assert s[..|s| - 1] == Decimal(n / 10);
    }
  }
}
