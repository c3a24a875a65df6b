/**
 * The timestamp log_fault writes in front of each record:
 * strftime with "%Y-%m-%d %H:%M:%S" (C11 section 7.27.3.5) over the broken-down
 * time localtime returns. The clock itself is not modelled: the broken-down
 * time is an input.
 */
module Timestamp {
  import opened Wrappers
  import opened Decimal

  /** The fields of `struct tm` (C11 section 7.27.1) the format reads. */
  datatype Tm = Tm(year: int, mon: int, mday: int, hour: int, min: int, sec: int)

  /**
   * The ranges C11 section 7.27.1 gives these fields, as localtime fills them in:
   * `year` counts years since 1900 and is an `int`, `mon` counts months since January.
   */
  predicate ValidTm(t: Tm)
  {
    && -0x8000_0000 <= t.year < 0x8000_0000
    && 0 <= t.mon <= 11
    && 1 <= t.mday <= 31
    && 0 <= t.hour <= 23
    && 0 <= t.min <= 59
    && 0 <= t.sec <= 60
  }

  /** The calendar year %Y prints. */
  function CalendarYear(t: Tm): int { t.year + 1900 }

  /** A year %Y prints with exactly four digits. */
  predicate FourDigitYear(t: Tm) { 1000 <= CalendarYear(t) <= 9999 }

  /** %m, %d, %H, %M and %S: two digits, zero-padded. */
  function TwoDigits(n: nat): (s: string)
    requires n < 100
    ensures |s| == 2 && AllDigits(s) && DigitsValue(s) == n
  {
    var s := [DigitChar(n / 10), DigitChar(n % 10)];
    assert s[..1] == [DigitChar(n / 10)] && s[..1][..0] == [];
    assert DigitsValue(s[..1]) == n / 10;
    s
  }

  /** strftime(buf, 64, "%Y-%m-%d %H:%M:%S", t). */
  function Strftime(t: Tm): (s: string)
    requires ValidTm(t)
    ensures |s| == |IntText(CalendarYear(t))| + 15 && s[..|s| - 15] == IntText(CalendarYear(t))
  {
    IntText(CalendarYear(t)) + "-" + TwoDigits(t.mon + 1) + "-" + TwoDigits(t.mday)
      + " " + TwoDigits(t.hour) + ":" + TwoDigits(t.min) + ":" + TwoDigits(t.sec)
  }

  /** Reading a 19-character "YYYY-MM-DD HH:MM:SS" stamp back into the fields it shows. */
  function ParseTimestamp(s: string): Option<Tm>
  {
    if && |s| == 19
       && AllDigits(s[0..4]) && s[4] == '-' && AllDigits(s[5..7]) && s[7] == '-'
       && AllDigits(s[8..10]) && s[10] == ' ' && AllDigits(s[11..13]) && s[13] == ':'
       && AllDigits(s[14..16]) && s[16] == ':' && AllDigits(s[17..19])
    then
      Some(Tm(DigitsValue(s[0..4]) - 1900, DigitsValue(s[5..7]) - 1, DigitsValue(s[8..10]),
              DigitsValue(s[11..13]), DigitsValue(s[14..16]), DigitsValue(s[17..19])))
    else None
  }

  /**
   * The stamp is the year as "%d" prints it followed by fifteen characters,
   * so it is 19 characters for a four-digit year and at most 26 for any `int` year.
   */
  lemma StrftimeLength(t: Tm)
    requires ValidTm(t)
    ensures |Strftime(t)| == |IntText(CalendarYear(t))| + 15 <= 26
    ensures var s := Strftime(t);
      s[|s| - 15] == '-' && s[|s| - 12] == '-' && s[|s| - 9] == ' ' && s[|s| - 6] == ':' && s[|s| - 3] == ':'
    ensures FourDigitYear(t) ==> |Strftime(t)| == 19
  {
    var y := CalendarYear(t);
    NatTextLength(if y < 0 then -y else y, 10);
    if FourDigitYear(t) {
      NatTextLength(y, 4);
      NatTextLength(y, 3);
    }
  }

  /** For four-digit years the stamp reads back as the broken-down time it was made from. */
  lemma TimestampRoundTrip(t: Tm)
    requires ValidTm(t) && FourDigitYear(t)
    ensures ParseTimestamp(Strftime(t)) == Some(t)
  {
    var s := Strftime(t);
    var y := CalendarYear(t);
    StrftimeLength(t);
    NatTextLength(y, 4);
    NatTextLength(y, 3);
    NatTextValue(y);
    assert s[0..4] == NatText(y);
    assert s[5..7] == TwoDigits(t.mon + 1);
    assert s[8..10] == TwoDigits(t.mday);
    assert s[11..13] == TwoDigits(t.hour);
    assert s[14..16] == TwoDigits(t.min);
    assert s[17..19] == TwoDigits(t.sec);
  }
}
