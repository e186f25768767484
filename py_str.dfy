/**
 * The three Python `str` operations the RFQ validators use:
 * `str.strip()`, `str.lower()` and `str.split(sep)[-1]`.
 */
module PyStr {

  /** `c.isspace()`: the characters Python's `str.strip()` removes by default. */
  predicate IsSpace(c: char) {
    || '\t' <= c <= '\r'               // tab, line feed, vertical tab, form feed, carriage return
    || '\U{1C}' <= c <= ' '            // file, group, record and unit separators, space
    || c == '\U{85}' || c == '\U{A0}' || c == '\U{1680}'
    || '\U{2000}' <= c <= '\U{200A}'
    || c == '\U{2028}' || c == '\U{2029}' || c == '\U{202F}' || c == '\U{205F}' || c == '\U{3000}'
  }

  predicate AllSpace(s: string) {
    forall i | 0 <= i < |s| :: IsSpace(s[i])
  }

  /** Neither the first nor the last character is whitespace. */
  predicate NoSpaceEdges(s: string) {
    s == [] || (!IsSpace(s[0]) && !IsSpace(s[|s| - 1]))
  }

  /** `s.lstrip()`: drops the leading whitespace. */
  function TrimStart(s: string): string {
    if s != [] && IsSpace(s[0]) then TrimStart(s[1..]) else s
  }

  /** What `lstrip` removes is whitespace, and what it keeps is a suffix that does not start with whitespace. */
  lemma {:induction false} TrimStartSpec(s: string)
    ensures |TrimStart(s)| <= |s| && TrimStart(s) == s[|s| - |TrimStart(s)|..]
    ensures AllSpace(s[..|s| - |TrimStart(s)|])
    ensures TrimStart(s) == [] || !IsSpace(TrimStart(s)[0])
  {
    if s != [] && IsSpace(s[0]) {
      var t := s[1..];
      var r := TrimStart(t);
      TrimStartSpec(t);
      var m := |t| - |r|;
      assert t[m..] == s[m + 1..];
      forall k | 0 <= k < m + 1 ensures IsSpace(s[k]) {
        if k > 0 { assert s[k] == t[..m][k - 1]; }
      }
      var cut := s[..m + 1];
      forall k | 0 <= k < |cut| ensures IsSpace(cut[k]) { assert cut[k] == s[k]; }
    }
  }

  /** `s.rstrip()`: drops the trailing whitespace. */
  function TrimEnd(s: string): string {
    if s != [] && IsSpace(s[|s| - 1]) then TrimEnd(s[..|s| - 1]) else s
  }

  /** What `rstrip` removes is whitespace, and what it keeps is a prefix that does not end with whitespace. */
  lemma {:induction false} TrimEndSpec(s: string)
    ensures |TrimEnd(s)| <= |s| && TrimEnd(s) == s[..|TrimEnd(s)|]
    ensures AllSpace(s[|TrimEnd(s)|..])
    ensures TrimEnd(s) == [] || !IsSpace(TrimEnd(s)[|TrimEnd(s)| - 1])
  {
    if s != [] && IsSpace(s[|s| - 1]) {
      var p := s[..|s| - 1];
      var r := TrimEnd(p);
      TrimEndSpec(p);
      assert p[..|r|] == s[..|r|];
      assert s[|r|..] == p[|r|..] + [s[|s| - 1]];
    }
  }

  /** `r` is `s` with `i` characters of whitespace cut from the front and the rest of the cut from the back. */
  predicate TrimmedAt(s: string, i: int, r: string) {
    && 0 <= i <= |s| - |r|
    && r == s[i..i + |r|]
    && AllSpace(s[..i])
    && AllSpace(s[i + |r|..])
  }

  /** Cutting a suffix of `s` at `n` is cutting `s` at `i + n`. */
  lemma SuffixSlices(s: string, i: nat, n: nat)
    requires i + n <= |s|
    ensures s[i..][..n] == s[i..i + n]
    ensures s[i..][n..] == s[i + n..]
  {
  }

  /** `s.strip()`. */
  function Strip(s: string): string {
    TrimEnd(TrimStart(s))
  }

  /**
   * The strip of `s` is a contiguous piece of `s` with no whitespace at
   * either end, and everything cut away on either side is whitespace.
   */
  lemma StripSpec(s: string)
    ensures NoSpaceEdges(Strip(s))
    ensures TrimmedAt(s, |s| - |TrimStart(s)|, Strip(s))
    ensures exists i :: TrimmedAt(s, i, Strip(s))
  {
    var t := TrimStart(s);
    var r := TrimEnd(t);
    var i := |s| - |t|;
    TrimStartSpec(s);
    TrimEndSpec(t);
    SuffixSlices(s, i, |r|);
    assert r == s[i..i + |r|];
    assert AllSpace(s[i + |r|..]) by {
      assert s[i + |r|..] == t[|r|..];
    }
    assert TrimmedAt(s, i, r);
  }

  /** A string with no whitespace at either end is its own strip. */
  lemma StripNoOp(s: string)
    requires NoSpaceEdges(s)
    ensures Strip(s) == s
  {
    assert TrimStart(s) == s;
  }

  /** Stripping twice is stripping once. */
  lemma StripIdempotent(s: string)
    ensures Strip(Strip(s)) == Strip(s)
  {
    StripSpec(s);
    StripNoOp(Strip(s));
  }

  lemma {:induction false} TrimStartAllSpace(s: string)
    requires AllSpace(s)
    ensures TrimStart(s) == []
  {
    if s != [] {
      TrimStartAllSpace(s[1..]);
    }
  }

  /** The strip of `s` is empty exactly when `s` is all whitespace (or empty). */
  lemma StripEmptyIff(s: string)
    ensures Strip(s) == [] <==> AllSpace(s)
  {
    if AllSpace(s) {
      TrimStartAllSpace(s);
    } else if Strip(s) == [] {
      StripSpec(s);
      var i :| TrimmedAt(s, i, []);
      forall k | 0 <= k < |s| ensures IsSpace(s[k]) {
        if k < i { assert s[..i][k] == s[k]; } else { assert s[i..][k - i] == s[k]; }
      }
    }
  }

  lemma {:induction false} TrimStartPadded(a: string, t: string)
    requires AllSpace(a) && (t == [] || !IsSpace(t[0]))
    ensures TrimStart(a + t) == t
  {
    if a != [] {
      assert (a + t)[1..] == a[1..] + t;
      TrimStartPadded(a[1..], t);
    }
  }

  lemma {:induction false} TrimEndPadded(t: string, b: string)
    requires AllSpace(b) && (t == [] || !IsSpace(t[|t| - 1]))
    ensures TrimEnd(t + b) == t
  {
    if b != [] {
      assert (t + b)[..|t + b| - 1] == t + b[..|b| - 1];
      TrimEndPadded(t, b[..|b| - 1]);
    }
  }

  /**
   * Whitespace around a text with no whitespace at its ends is exactly what
   * `strip` removes: the strip of `a + t + b` is `t`.
   */
  lemma StripPadded(a: string, t: string, b: string)
    requires AllSpace(a) && AllSpace(b) && NoSpaceEdges(t)
    ensures Strip(a + t + b) == t
  {
    assert a + t + b == a + (t + b);
    if t == [] {
      assert AllSpace(a + b);
      TrimStartAllSpace(a + t + b);
    } else {
      TrimStartPadded(a, t + b);
      TrimEndPadded(t, b);
    }
  }

  /**
   * `c.lower()` where the result decides a comparison with ASCII text: ASCII
   * capitals map to small letters and KELVIN SIGN (U+212A) to `k`; every
   * other character is left as it is.
   */
  function LowerChar(c: char): char {
    if 'A' <= c <= 'Z' then (c as int + 32) as char
    else if c == '\U{212A}' then 'k'
    else c
  }

  /** `s.lower()`, character by character. */
  function Lower(s: string): (r: string)
    ensures |r| == |s|
    ensures forall i | 0 <= i < |s| :: r[i] == LowerChar(s[i])
  {
    seq(|s|, i requires 0 <= i < |s| => LowerChar(s[i]))
  }

  /**
   * `s.split(sep)[-1]`: the part of `s` after the last `sep`, or all of `s`
   * when `sep` does not occur.
   */
  function LastSplitPart(s: string, sep: char): string {
    if s == [] then []
    else if s[|s| - 1] == sep then []
    else LastSplitPart(s[..|s| - 1], sep) + [s[|s| - 1]]
  }

  /** The last split part is a suffix free of `sep`, preceded by `sep` unless it is all of `s`. */
  lemma {:induction false} LastSplitPartSpec(s: string, sep: char)
    ensures sep !in LastSplitPart(s, sep)
    ensures |LastSplitPart(s, sep)| <= |s| && LastSplitPart(s, sep) == s[|s| - |LastSplitPart(s, sep)|..]
    ensures |LastSplitPart(s, sep)| < |s| ==> s[|s| - |LastSplitPart(s, sep)| - 1] == sep
    ensures |LastSplitPart(s, sep)| == |s| ==> sep !in s
  {
    if s != [] && s[|s| - 1] != sep {
      var p := s[..|s| - 1];
      var q := LastSplitPart(p, sep);
      LastSplitPartSpec(p, sep);
      assert s == p + [s[|s| - 1]];
      assert s[|s| - |q| - 1..] == p[|p| - |q|..] + [s[|s| - 1]];
      if |q| < |p| {
        assert s[|s| - |q| - 2] == p[|p| - |q| - 1];
      }
    }
  }

  /** What follows the last separator is what follows a separator with none after it. */
  lemma {:induction false} LastSplitPartAfter(a: string, sep: char, b: string)
    requires sep !in b
    ensures LastSplitPart(a + [sep] + b, sep) == b
  {
    var s := a + [sep] + b;
    if b != [] {
      assert s[..|s| - 1] == a + [sep] + b[..|b| - 1];
      LastSplitPartAfter(a, sep, b[..|b| - 1]);
      assert b == b[..|b| - 1] + [b[|b| - 1]];
    }
  }
}
