/**
 * Calendar dates written as ISO `YYYY-MM-DD` strings, the form the code
 * stores and compares (lexicographically) everywhere.
 */
module Dates {
  import opened Text

  predicate IsLeap(y: int) {
    (y % 4 == 0 && y % 100 != 0) || y % 400 == 0
  }

  function DaysInMonth(y: int, m: int): (r: int)
    requires 1 <= m <= 12
    ensures 28 <= r <= 31
  {
    if m == 2 then (if IsLeap(y) then 29 else 28)
    else if m == 4 || m == 6 || m == 9 || m == 11 then 30
    else 31
  }

  /**
   * What `date.fromisoformat` accepts up to Python 3.10: four year digits,
   * a dash, two month digits, a dash, two day digits, naming a real day of
   * year 1 or later. (Python 3.11 also accepts YYYYMMDD and week dates.)
   */
  predicate IsIsoDate(s: string) {
    |s| == 10 && s[4] == '-' && s[7] == '-' &&
    AllDigits(s[..4]) && AllDigits(s[5..7]) && AllDigits(s[8..]) &&
    var y := DigitsValue(s[..4]);
    var m := DigitsValue(s[5..7]);
    var d := DigitsValue(s[8..]);
    1 <= y && 1 <= m <= 12 && 1 <= d <= DaysInMonth(y, m)
  }

  /** A valid ISO date has no surrounding white space, so `strip()` keeps it. */
  lemma IsoDateStripped(s: string)
    requires IsIsoDate(s)
    ensures Strip(s) == s
  {
    assert IsDigit(s[..4][0]) && IsDigit(s[8..][1]);
    StripNoop(s);
  }

  function Digit(c: char): int {
    c as int - '0' as int
  }

  lemma DigitsValue2(s: string)
    requires |s| == 2 && AllDigits(s)
    ensures DigitsValue(s) == 10 * Digit(s[0]) + Digit(s[1])
  {
    assert s[..1][..0] == [];
    assert DigitsValue(s[..1]) == Digit(s[0]);
  }

  lemma DigitsValue4(s: string)
    requires |s| == 4 && AllDigits(s)
    ensures DigitsValue(s) == 1000 * Digit(s[0]) + 100 * Digit(s[1]) + 10 * Digit(s[2]) + Digit(s[3])
  {
    assert s[..3][..2] == s[..2];
    DigitsValue2(s[..2]);
  }

  /** 2024 is a leap year, so its 29 February exists. */
  lemma LeapDay()
    ensures IsIsoDate("2024-02-29")
  {
    DigitsValue4("2024-02-29"[..4]);
    DigitsValue2("2024-02-29"[5..7]);
    DigitsValue2("2024-02-29"[8..]);
  }

  /** 2026 is not a leap year, so its 29 February does not. */
  lemma NotLeapDay()
    ensures !IsIsoDate("2026-02-29")
  {
    DigitsValue4("2026-02-29"[..4]);
    DigitsValue2("2026-02-29"[5..7]);
  }

  /** Leap years: 29 February exists in 2024 and not in 2026; single-digit months are refused. */
  lemma IsoDateExamples()
    ensures IsIsoDate("2024-02-29")
    ensures !IsIsoDate("2026-02-29")
    ensures !IsIsoDate("2026-1-30")
  {
    LeapDay();
    NotLeapDay();
  }
}
