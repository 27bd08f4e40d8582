/**
 * Text normalisation applied to the body of a free-text message before it is
 * matched against the alias tables: Python's `str.strip()` followed by
 * `str.lower()` (main.py line 364).
 */
module Strings {

  /** Python's `str.isspace()` for one character: the characters `str.strip()` removes. */
  predicate IsSpace(c: char)
  {
    || ('\t' <= c <= '\r')
    || ('\U{1C}' <= c <= '\U{1F}')
    || c == ' '
    || c == '\U{85}'
    || c == '\U{A0}'
    || c == '\U{1680}'
    || ('\U{2000}' <= c <= '\U{200A}')
    || c == '\U{2028}'
    || c == '\U{2029}'
    || c == '\U{202F}'
    || c == '\U{205F}'
    || c == '\U{3000}'
  }

  predicate AllSpace(s: string)
  {
    forall i :: 0 <= i < |s| ==> IsSpace(s[i])
  }

  /** No whitespace at either end: what `strip()` leaves behind. */
  predicate Trimmed(s: string)
  {
    |s| == 0 || (!IsSpace(s[0]) && !IsSpace(s[|s| - 1]))
  }

  /**
   * `r` is `s` without its leading whitespace: a suffix of `s` that is empty
   * or starts with a non-space, and everything before it is whitespace.
   */
  predicate LeadTrimmed(s: string, r: string)
  {
    && |r| <= |s|
    && r == s[|s| - |r|..]
    && AllSpace(s[..|s| - |r|])
    && (|r| == 0 || !IsSpace(r[0]))
  }

  /**
   * `r` is `s` without its trailing whitespace: a prefix of `s` that is empty
   * or ends with a non-space, and everything after it is whitespace.
   */
  predicate TailTrimmed(s: string, r: string)
  {
    && |r| <= |s|
    && r == s[..|r|]
    && AllSpace(s[|r|..])
    && (|r| == 0 || !IsSpace(r[|r| - 1]))
  }

  /** Drops the leading whitespace of `s`. */
  function TrimStart(s: string): (r: string)
    ensures LeadTrimmed(s, r)
    decreases |s|
  {
    if |s| > 0 && IsSpace(s[0]) then
      var r := TrimStart(s[1..]);
      LeadTrimmedCons(s, r);
      r
    else s
  }

  /** Drops the trailing whitespace of `s`. */
  function TrimEnd(s: string): (r: string)
    ensures TailTrimmed(s, r)
    decreases |s|
  {
    if |s| > 0 && IsSpace(s[|s| - 1]) then
      var r := TrimEnd(s[..|s| - 1]);
      TailTrimmedSnoc(s, r);
      r
    else s
  }

  /** One more leading space in front keeps `r` the lead-trimmed form. */
  lemma LeadTrimmedCons(s: string, r: string)
    requires |s| > 0 && IsSpace(s[0]) && LeadTrimmed(s[1..], r)
    ensures LeadTrimmed(s, r)
  {
    assert s[..|s| - |r|] == [s[0]] + s[1..][..|s| - 1 - |r|];
  }

  /** One more trailing space behind keeps `r` the tail-trimmed form. */
  lemma TailTrimmedSnoc(s: string, r: string)
    requires |s| > 0 && IsSpace(s[|s| - 1]) && TailTrimmed(s[..|s| - 1], r)
    ensures TailTrimmed(s, r)
  {
    assert s[|r|..] == s[..|s| - 1][|r|..] + [s[|s| - 1]];
  }

  /** `s` is `r` with only whitespace around it, `r` starting at offset `i`. */
  predicate PaddedBy(s: string, i: int, r: string)
  {
    0 <= i <= |s| - |r| && s[i..i + |r|] == r && AllSpace(s[..i]) && AllSpace(s[i + |r|..])
  }

  /**
   * Python's `str.strip()` with no argument: the infix of `s` left after
   * removing whitespace from both ends; everything removed is whitespace and
   * what remains has no whitespace at either end.
   */
  function Strip(s: string): (r: string)
    ensures Trimmed(r)
    ensures exists i :: PaddedBy(s, i, r)
  {
    var t := TrimStart(s);
    var r := TrimEnd(t);
    TrimmedInfix(s, t, r);
    r
  }

  /** The shape of `strip()`'s result, from the contracts of its two halves alone. */
  lemma TrimmedInfix(s: string, t: string, r: string)
    requires LeadTrimmed(s, t) && TailTrimmed(t, r)
    ensures Trimmed(r)
    ensures PaddedBy(s, |s| - |t|, r)
  {
    var i := |s| - |t|;
    assert |r| == 0 || r[0] == t[0];
    assert s[i..i + |r|] == r;
    assert s[i + |r|..] == t[|r|..];
  }

  /**
   * Python's `str.lower()` on one character, for the characters whose lower-case
   * form is ASCII: the ASCII capitals and the KELVIN SIGN (U+212A), which
   * lower-cases to `k`.
   */
  function LowerChar(c: char): char
  {
    if 'A' <= c <= 'Z' then (c as int + 32) as char
    else if c == '\U{212A}' then 'k'
    else c
  }

  predicate IsUpper(c: char)
  {
    'A' <= c <= 'Z' || c == '\U{212A}'
  }

  /** Python's `str.lower()`, character by character. */
  function Lower(s: string): (r: string)
    ensures |r| == |s|
    ensures forall i :: 0 <= i < |r| ==> !IsUpper(r[i])
    ensures forall i :: 0 <= i < |r| ==> (IsSpace(r[i]) <==> IsSpace(s[i]))
    ensures forall i :: 0 <= i < |r| && !IsUpper(s[i]) ==> r[i] == s[i]
    ensures forall i :: 0 <= i < |r| && 'A' <= s[i] <= 'Z' ==> r[i] as int == s[i] as int + ('a' as int - 'A' as int)
    ensures forall i :: 0 <= i < |r| && s[i] == '\U{212A}' ==> r[i] == 'k'
  {
    seq(|s|, i requires 0 <= i < |s| => LowerChar(s[i]))
  }

  /** The normalisation of main.py line 364: strip, then lower-case. */
  function Normalize(s: string): (r: string)
    ensures Trimmed(r)
    ensures |r| <= |s|
    ensures forall i :: 0 <= i < |r| ==> !IsUpper(r[i])
    ensures exists i :: PaddedBy(Lower(s), i, r)
  {
    var t := Strip(s);
    LowerKeepsTrimmed(t);
    LowerKeepsPadding(s, t);
    Lower(t)
  }

  /** Lower-casing is applied position by position, so it keeps an infix and the whitespace around it. */
  lemma LowerKeepsPadding(s: string, t: string)
    requires exists i :: PaddedBy(s, i, t)
    ensures exists i :: PaddedBy(Lower(s), i, Lower(t))
  {
    var i :| PaddedBy(s, i, t);
    var j := i + |t|;
    LowerSlice(s, 0, i);
    LowerSlice(s, i, j);
    LowerSlice(s, j, |s|);
    LowerAllSpace(s[..i]);
    LowerAllSpace(s[j..]);
    assert s[0..i] == s[..i] && s[j..|s|] == s[j..];
    assert Lower(s)[0..i] == Lower(s)[..i] && Lower(s)[j..|s|] == Lower(s)[j..];
    assert PaddedBy(Lower(s), i, Lower(t));
  }

  lemma LowerSlice(s: string, a: int, b: int)
    requires 0 <= a <= b <= |s|
    ensures Lower(s)[a..b] == Lower(s[a..b])
  {
  }

  lemma LowerAllSpace(s: string)
    requires AllSpace(s)
    ensures AllSpace(Lower(s))
  {
  }

  lemma LowerKeepsTrimmed(t: string)
    requires Trimmed(t)
    ensures Trimmed(Lower(t))
  {
    if |t| > 0 {
      LowerCharFacts(t[0]);
      LowerCharFacts(t[|t| - 1]);
    }
  }

  /** Lower-casing a character never yields a capital, keeps whitespace and non-whitespace apart, and leaves non-capitals alone. */
  lemma LowerCharFacts(c: char)
    ensures !IsUpper(LowerChar(c))
    ensures IsSpace(LowerChar(c)) <==> IsSpace(c)
    ensures !IsUpper(c) ==> LowerChar(c) == c
  {
  }

  lemma {:induction false} TrimStartOfTrimmed(s: string)
    requires |s| == 0 || !IsSpace(s[0])
    ensures TrimStart(s) == s
  {
  }

  lemma {:induction false} TrimEndOfTrimmed(s: string)
    requires |s| == 0 || !IsSpace(s[|s| - 1])
    ensures TrimEnd(s) == s
  {
  }

  /** Stripping a string that has no whitespace at either end changes nothing. */
  lemma StripTrimmed(s: string)
    requires Trimmed(s)
    ensures Strip(s) == s
  {
    TrimStartOfTrimmed(s);
    TrimEndOfTrimmed(s);
  }

  /** Leading whitespace never reaches the result of `TrimStart`. */
  lemma {:induction false} TrimStartPadding(ws: string, s: string)
    requires AllSpace(ws)
    ensures TrimStart(ws + s) == TrimStart(s)
    decreases |ws|
  {
    if |ws| > 0 {
      assert (ws + s)[1..] == ws[1..] + s;
      TrimStartPadding(ws[1..], s);
    } else {
      assert ws + s == s;
    }
  }

  /** Trailing whitespace never reaches the result of `TrimEnd`. */
  lemma {:induction false} TrimEndPadding(s: string, ws: string)
    requires AllSpace(ws)
    ensures TrimEnd(s + ws) == TrimEnd(s)
    decreases |ws|
  {
    if |ws| > 0 {
      assert (s + ws)[..|s + ws| - 1] == s + ws[..|ws| - 1];
      TrimEndPadding(s, ws[..|ws| - 1]);
    } else {
      assert s + ws == s;
    }
  }

  /** Trailing whitespace after a non-space character survives `TrimStart` untouched. */
  lemma {:induction false} TrimStartAppend(s: string, ws: string)
    requires !AllSpace(s)
    ensures TrimStart(s + ws) == TrimStart(s) + ws
    decreases |s|
  {
    assert (s + ws)[0] == s[0];
    if IsSpace(s[0]) {
      assert !AllSpace(s[1..]) by {
        var k :| 0 <= k < |s| && !IsSpace(s[k]);
        assert s[1..][k - 1] == s[k];
      }
      assert (s + ws)[1..] == s[1..] + ws;
      TrimStartAppend(s[1..], ws);
    }
  }

  /**
   * Whitespace padding on either side does not change the result of `strip()`.
   */
  lemma StripPadding(ws1: string, s: string, ws2: string)
    requires AllSpace(ws1) && AllSpace(ws2)
    ensures Strip(ws1 + s + ws2) == Strip(s)
  {
    var x := ws1 + s + ws2;
    assert TrimStart(x) == TrimStart(s + ws2) by {
      assert x == ws1 + (s + ws2);
      TrimStartPadding(ws1, s + ws2);
    }
    if AllSpace(s) {
      assert TrimStart(s + ws2) == [] by {
        assert AllSpace(s + ws2);
        AllSpaceTrimStart(s + ws2);
      }
      assert TrimStart(s) == [] by {
        AllSpaceTrimStart(s);
      }
    } else {
      assert TrimEnd(TrimStart(s + ws2)) == TrimEnd(TrimStart(s)) by {
        TrimStartAppend(s, ws2);
        TrimEndPadding(TrimStart(s), ws2);
      }
    }
    assert Strip(x) == TrimEnd(TrimStart(x));
    assert Strip(s) == TrimEnd(TrimStart(s));
  }

  lemma {:induction false} AllSpaceTrimStart(s: string)
    requires AllSpace(s)
    ensures TrimStart(s) == []
    decreases |s|
  {
    if |s| > 0 {
      AllSpaceTrimStart(s[1..]);
    }
  }

  /** Lower-casing twice is lower-casing once. */
  lemma LowerIdempotent(s: string)
    ensures Lower(Lower(s)) == Lower(s)
  {
    var l := Lower(s);
    LowerOfLowerCase(l);
  }

  lemma LowerOfLowerCase(s: string)
    requires forall i :: 0 <= i < |s| ==> !IsUpper(s[i])
    ensures Lower(s) == s
  {
  }

  /** Normalising a normalised string changes nothing. */
  lemma NormalizeIdempotent(s: string)
    ensures Normalize(Normalize(s)) == Normalize(s)
  {
    var n := Normalize(s);
    StripTrimmed(n);
    LowerOfLowerCase(n);
    assert Normalize(n) == Lower(Strip(n)) == Lower(n);
  }

  /** Lower-casing and dropping leading whitespace commute. */
  lemma {:induction false} TrimStartLower(s: string)
    ensures TrimStart(Lower(s)) == Lower(TrimStart(s))
    decreases |s|
  {
    if |s| > 0 {
      LowerCharFacts(s[0]);
      if IsSpace(s[0]) {
        assert Lower(s)[1..] == Lower(s[1..]);
        TrimStartLower(s[1..]);
      }
    }
  }

  /** Lower-casing and dropping trailing whitespace commute. */
  lemma {:induction false} TrimEndLower(s: string)
    ensures TrimEnd(Lower(s)) == Lower(TrimEnd(s))
    decreases |s|
  {
    if |s| > 0 {
      LowerCharFacts(s[|s| - 1]);
      if IsSpace(s[|s| - 1]) {
        assert Lower(s)[..|s| - 1] == Lower(s[..|s| - 1]);
        TrimEndLower(s[..|s| - 1]);
      }
    }
  }

  /** Two texts that agree up to letter case normalise alike. */
  lemma NormalizeIgnoresCase(s1: string, s2: string)
    requires Lower(s1) == Lower(s2)
    ensures Normalize(s1) == Normalize(s2)
  {
    StripLower(s1);
    StripLower(s2);
  }

  lemma StripLower(s: string)
    ensures Normalize(s) == Strip(Lower(s))
  {
    TrimStartLower(s);
    TrimEndLower(TrimStart(s));
    assert Strip(Lower(s)) == TrimEnd(TrimStart(Lower(s)));
    assert Normalize(s) == Lower(TrimEnd(TrimStart(s)));
  }

  /**
   * Surrounding whitespace is invisible to the router: a body padded with
   * whitespace normalises like the unpadded body.
   */
  lemma NormalizePadding(ws1: string, s: string, ws2: string)
    requires AllSpace(ws1) && AllSpace(ws2)
    ensures Normalize(ws1 + s + ws2) == Normalize(s)
  {
    StripPadding(ws1, s, ws2);
  }
}
