/**
 * `date.fromisoformat` in its strict form: exactly `YYYY-MM-DD`, ten ASCII
 * characters, with the calendar limits of the proleptic Gregorian calendar
 * (year 1 to 9999, month 1 to 12, day within the month, leap years every
 * fourth year except centuries not divisible by 400) — the full-date of
 * section 5.6 of RFC 3339 with the limits of its section 5.7.
 */
module IsoDate {
  import opened Wrappers

  const MinYear := 1
  const MaxYear := 9999

  datatype Date = Date(year: int, month: int, day: int)

  predicate IsLeap(y: int) {
    y % 4 == 0 && (y % 100 != 0 || y % 400 == 0)
  }

  function DaysInMonth(y: int, m: int): (n: int)
    requires 1 <= m <= 12
    ensures 28 <= n <= 31
  {
    if m == 2 then (if IsLeap(y) then 29 else 28)
    else if m == 4 || m == 6 || m == 9 || m == 11 then 30
    else 31
  }

  /** The dates `datetime.date` can hold. */
  predicate ValidDate(d: Date) {
    && MinYear <= d.year <= MaxYear
    && 1 <= d.month <= 12
    && 1 <= d.day <= DaysInMonth(d.year, d.month)
  }

  predicate IsDigit(c: char) {
    '0' <= c <= '9'
  }

  predicate AllDigits(s: string) {
    forall i | 0 <= i < |s| :: IsDigit(s[i])
  }

  function DigitValue(c: char): nat
    requires IsDigit(c)
  {
    c as int - '0' as int
  }

  function DigitChar(n: nat): char
    requires n < 10
  {
    ('0' as int + n) as char
  }

  function Pow10(w: nat): nat {
    if w == 0 then 1 else 10 * Pow10(w - 1)
  }

  /** The number a run of decimal digits denotes, most significant first. */
  function DigitsValue(s: string): nat
    requires AllDigits(s)
  {
    if s == [] then 0 else DigitsValue(s[..|s| - 1]) * 10 + DigitValue(s[|s| - 1])
  }

  /** `n` written with exactly `w` decimal digits, zero-padded on the left (its last `w` digits when it needs more). */
  function PadDigits(n: nat, w: nat): (s: string)
    ensures |s| == w && AllDigits(s)
  {
    if w == 0 then [] else PadDigits(n / 10, w - 1) + [DigitChar(n % 10)]
  }

  lemma {:induction false} PadDigitsValue(n: nat, w: nat)
    requires n < Pow10(w)
    ensures DigitsValue(PadDigits(n, w)) == n
  {
    if w > 0 {
      var s := PadDigits(n, w);
      assert n / 10 < Pow10(w - 1);
      PadDigitsValue(n / 10, w - 1);
      assert s[..|s| - 1] == PadDigits(n / 10, w - 1);
    }
  }

  lemma {:induction false} DigitsPadValue(s: string)
    requires AllDigits(s)
    ensures PadDigits(DigitsValue(s), |s|) == s
  {
    if s != [] {
      var p := s[..|s| - 1];
      var v := DigitsValue(s);
      DigitsPadValue(p);
      assert v / 10 == DigitsValue(p) && v % 10 == DigitValue(s[|s| - 1]);
      assert s == p + [s[|s| - 1]];
    }
  }

  /** `date.isoformat()`: `YYYY-MM-DD`. */
  function FormatIsoDate(d: Date): (s: string)
    requires ValidDate(d)
    ensures |s| == 10
  {
    PadDigits(d.year, 4) + "-" + PadDigits(d.month, 2) + "-" + PadDigits(d.day, 2)
  }

  /**
   * `date.fromisoformat(s)`: `None` where Python raises `ValueError`. A date
   * it returns is a real calendar date and is written exactly as `s`.
   */
  function ParseIsoDate(s: string): (r: Option<Date>)
    ensures r.Some? ==> ValidDate(r.value) && FormatIsoDate(r.value) == s
  {
    if |s| == 10 && AllDigits(s[0..4]) && s[4] == '-' && AllDigits(s[5..7]) && s[7] == '-' && AllDigits(s[8..10]) then
      var d := Date(DigitsValue(s[0..4]), DigitsValue(s[5..7]), DigitsValue(s[8..10]));
      if ValidDate(d) then
        DigitsPadValue(s[0..4]);
        DigitsPadValue(s[5..7]);
        DigitsPadValue(s[8..10]);
        assert s == s[0..4] + "-" + s[5..7] + "-" + s[8..10];
        Some(d)
      else None
    else None
  }

  /** `date.fromisoformat(s)` does not raise. */
  predicate IsIsoDate(s: string) {
    ParseIsoDate(s).Some?
  }

  /** Every calendar date survives `isoformat` followed by `fromisoformat`. */
  lemma FormatParseRoundTrip(d: Date)
    requires ValidDate(d)
    ensures ParseIsoDate(FormatIsoDate(d)) == Some(d)
  {
    var s := FormatIsoDate(d);
    assert s[0..4] == PadDigits(d.year, 4);
    assert s[5..7] == PadDigits(d.month, 2);
    assert s[8..10] == PadDigits(d.day, 2);
    PadDigitsValue(d.year, 4);
    PadDigitsValue(d.month, 2);
    PadDigitsValue(d.day, 2);
  }

  /** Accepted texts are exactly the `YYYY-MM-DD` spellings of calendar dates. */
  lemma IsIsoDateIff(s: string)
    ensures IsIsoDate(s) <==> exists d :: ValidDate(d) && FormatIsoDate(d) == s
  {
    if d :| ValidDate(d) && FormatIsoDate(d) == s {
      FormatParseRoundTrip(d);
    }
  }

  /** An accepted date text begins and ends with a digit. */
  lemma IsoDateEdges(s: string)
    requires IsIsoDate(s)
    ensures |s| == 10 && IsDigit(s[0]) && IsDigit(s[9])
  {
    assert s[9] == s[8..10][1];
  }

  /** 29 February exists exactly in leap years. */
  lemma LeapDayIff(y: int)
    requires MinYear <= y <= MaxYear
    ensures ValidDate(Date(y, 2, 29)) <==> IsLeap(y)
  {
  }

  /** The twelve months make a year of 366 days in leap years and 365 otherwise. */
  lemma YearLength(y: int)
    ensures DaysInMonth(y, 1) + DaysInMonth(y, 2) + DaysInMonth(y, 3) + DaysInMonth(y, 4)
          + DaysInMonth(y, 5) + DaysInMonth(y, 6) + DaysInMonth(y, 7) + DaysInMonth(y, 8)
          + DaysInMonth(y, 9) + DaysInMonth(y, 10) + DaysInMonth(y, 11) + DaysInMonth(y, 12)
          == if IsLeap(y) then 366 else 365
  {
  }

  lemma DigitsValue2(s: string)
    requires |s| == 2 && AllDigits(s)
    ensures DigitsValue(s) == 10 * DigitValue(s[0]) + DigitValue(s[1])
  {
    var p := s[..1];
    assert p[..0] == [] && p[0] == s[0];
    assert DigitsValue(p) == DigitValue(s[0]);
  }

  lemma DigitsValue4(s: string)
    requires |s| == 4 && AllDigits(s)
    ensures DigitsValue(s) == 1000 * DigitValue(s[0]) + 100 * DigitValue(s[1]) + 10 * DigitValue(s[2]) + DigitValue(s[3])
  {
    assert s[..3][..2] == s[..2];
    DigitsValue2(s[..2]);
  }

  /** The date a well-shaped `YYYY-MM-DD` text denotes, digit by digit. */
  lemma ParseIsoDateDigits(s: string)
    requires |s| == 10 && AllDigits(s[0..4]) && s[4] == '-' && AllDigits(s[5..7]) && s[7] == '-' && AllDigits(s[8..10])
    ensures var d := Date(1000 * DigitValue(s[0]) + 100 * DigitValue(s[1]) + 10 * DigitValue(s[2]) + DigitValue(s[3]),
                          10 * DigitValue(s[5]) + DigitValue(s[6]),
                          10 * DigitValue(s[8]) + DigitValue(s[9]));
            ParseIsoDate(s) == if ValidDate(d) then Some(d) else None
  {
    DigitsValue4(s[0..4]);
    DigitsValue2(s[5..7]);
    DigitsValue2(s[8..10]);
  }

  /** 2024 is a leap year, so its 29 February is accepted. */
  lemma LeapDayAccepted()
    ensures IsIsoDate("2024-02-29")
  {
    ParseIsoDateDigits("2024-02-29");
  }

  /** 2023 is not a leap year, so its 29 February is refused. */
  lemma NonLeapDayRefused()
    ensures !IsIsoDate("2023-02-29")
  {
    ParseIsoDateDigits("2023-02-29");
  }

  /** No February has 30 days. */
  lemma February30Refused()
    ensures !IsIsoDate("2024-02-30")
  {
    ParseIsoDateDigits("2024-02-30");
  }

  /** A century is not a leap year unless divisible by 400: 1900 has no 29 February. */
  lemma CenturyDayRefused()
    ensures !IsIsoDate("1900-02-29")
  {
    ParseIsoDateDigits("1900-02-29");
  }

  /** 2000 is divisible by 400, so its 29 February is accepted. */
  lemma QuadricentennialDayAccepted()
    ensures IsIsoDate("2000-02-29")
  {
    ParseIsoDateDigits("2000-02-29");
  }
}
