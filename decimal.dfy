/**
 * Decimal text as the C library handles it in the fault manager:
 * printf's "%d" conversion (the fault number written into each log line)
 * and strtol with base 10 (C11 section 7.22.1.4), which turns the payload
 * of a write into a fault number.
 */
module Decimal {
  import opened Wrappers

  /** A C `int`: 32 bits, two's complement. */
  type Int32 = x: int | -0x8000_0000 <= x < 0x8000_0000

  /** LONG_MIN and LONG_MAX for the 64-bit `long` that strtol returns. */
  const LongMin: int := -0x8000_0000_0000_0000
  const LongMax: int := 0x7FFF_FFFF_FFFF_FFFF

  predicate IsDigit(c: char) { '0' <= c <= '9' }

  /** isspace in the "C" locale: space, and \t \n \v \f \r (codes 9 to 13). */
  predicate IsSpace(c: char) { c == ' ' || '\t' <= c <= '\r' }

  predicate AllDigits(s: string) { forall i :: 0 <= i < |s| ==> IsDigit(s[i]) }

  function DigitValue(c: char): (d: nat)
    requires IsDigit(c)
    ensures d < 10
  {
    c as int - '0' as int
  }

  function DigitChar(d: nat): (c: char)
    requires d < 10
    ensures IsDigit(c) && DigitValue(c) == d
  {
    ('0' as int + d) as char
  }

  function Pow10(k: nat): (p: nat)
    ensures p >= 1 && (k >= 1 ==> p >= 10)
  {
    if k == 0 then 1 else 10 * Pow10(k - 1)
  }

  /** The value of a run of decimal digits, most significant digit first. */
  function DigitsValue(ds: string): nat
    requires AllDigits(ds)
  {
    if ds == [] then 0 else DigitsValue(ds[..|ds| - 1]) * 10 + DigitValue(ds[|ds| - 1])
  }

  /** The digits "%d" prints for a non-negative value: at least one, no leading zero. */
  function NatText(n: nat): (s: string)
    ensures 1 <= |s| && AllDigits(s)
    ensures s[0] == '0' ==> n == 0
  {
    if n < 10 then [DigitChar(n)] else NatText(n / 10) + [DigitChar(n % 10)]
  }

  /** printf's "%d": a minus sign for a negative value, then the digits of its magnitude. */
  function IntText(n: int): (s: string)
    ensures 1 <= |s| && (s[0] == '-' <==> n < 0)
    ensures AllDigits(if n < 0 then s[1..] else s)
  {
    if n < 0 then "-" + NatText(-n) else NatText(n)
  }

  /** Reading back what "%d" printed: an optional minus sign and at least one digit, nothing else. */
  function ParseInt(s: string): Option<int>
  {
    if s != [] && s[0] == '-' then
      if |s| > 1 && AllDigits(s[1..]) then Some(-(DigitsValue(s[1..]) as int)) else None
    else if s != [] && AllDigits(s) then Some(DigitsValue(s))
    else None
  }

  /** Length of the longest prefix of `s` that isspace accepts. */
  function SpaceRun(s: string): (k: nat)
    ensures k <= |s|
    ensures forall i :: 0 <= i < k ==> IsSpace(s[i])
    ensures k < |s| ==> !IsSpace(s[k])
  {
    if s != [] && IsSpace(s[0]) then 1 + SpaceRun(s[1..]) else 0
  }

  /** Length of the longest prefix of `s` made of decimal digits. */
  function DigitRun(s: string): (k: nat)
    ensures k <= |s|
    ensures AllDigits(s[..k])
    ensures k < |s| ==> !IsDigit(s[k])
  {
    if s != [] && IsDigit(s[0]) then
      assert s[..1 + DigitRun(s[1..])] == [s[0]] + s[1..][..DigitRun(s[1..])];
      1 + DigitRun(s[1..])
    else 0
  }

  /**
   * The number strtol(s, NULL, 10) reads before it is brought into the range
   * of `long`: leading white space is skipped, one optional sign is taken,
   * then the longest run of decimal digits; when there is no digit at all the
   * result is 0. Parsing stops at the first character that is not a digit,
   * so a NUL ends it like any other such character.
   */
  function LeadingInt(s: string): (r: int)
    ensures r < 0 ==> SpaceRun(s) < |s| && s[SpaceRun(s)] == '-'
    ensures r > 0 ==> SpaceRun(s) < |s| && s[SpaceRun(s)] != '-'
  {
    var t := s[SpaceRun(s)..];
    var negative := t != [] && t[0] == '-';
    var u := if t != [] && (t[0] == '-' || t[0] == '+') then t[1..] else t;
    var magnitude := DigitsValue(u[..DigitRun(u)]);
    if negative then -(magnitude as int) else magnitude
  }

  /** strtol(s, NULL, 10): the leading integer, saturated at LONG_MIN and LONG_MAX on overflow. */
  function Strtol(s: string): (r: int)
    ensures LongMin <= r <= LongMax
    ensures LongMin <= LeadingInt(s) <= LongMax ==> r == LeadingInt(s)
    ensures LeadingInt(s) < LongMin ==> r == LongMin
    ensures LeadingInt(s) > LongMax ==> r == LongMax
  {
    var v := LeadingInt(s);
    if v < LongMin then LongMin else if v > LongMax then LongMax else v
  }

  /**
   * The implicit conversion of a `long` to `int`: the value modulo 2^32, read
   * as two's complement (what GCC documents for this implementation-defined case).
   */
  function ToInt32(x: int): (r: Int32)
    ensures -0x8000_0000 <= x < 0x8000_0000 ==> r == x
    ensures (x - r) % 0x1_0000_0000 == 0
  {
    var m := x % 0x1_0000_0000;
    if m >= 0x8000_0000 then m - 0x1_0000_0000 else m
  }

  // ----- "%d" and its readers -----

  /** Reading the digits of "%d" gives back the number printed. */
  lemma {:induction false} NatTextValue(n: nat)
    ensures DigitsValue(NatText(n)) == n
  {
    if n >= 10 {
      var s := NatText(n);
      assert s[..|s| - 1] == NatText(n / 10);
      NatTextValue(n / 10);
    }
  }

  /** "%d" prints at most k digits exactly when the value is below 10^k. */
  lemma {:induction false} NatTextLength(n: nat, k: nat)
    requires k >= 1
    ensures |NatText(n)| <= k <==> n < Pow10(k)
  {
    if n >= 10 && k > 1 {
      NatTextLength(n / 10, k - 1);
    }
  }

  /** A C `int` prints as at most 11 characters: a sign and ten digits. */
  lemma IntTextOfInt32(n: Int32)
    ensures 1 <= |IntText(n)| <= 11
  {
    NatTextLength(if n < 0 then -(n as int) else n, 10);
  }

  /** The strict reader of "%d" output inverts it. */
  lemma ParseIntRoundTrip(n: int)
    ensures ParseInt(IntText(n)) == Some(n)
  {
    if n < 0 {
      assert IntText(n)[1..] == NatText(-n);
      NatTextValue(-n);
    } else {
      NatTextValue(n);
    }
  }

  // ----- strtol -----

  lemma {:induction false} SpaceRunAppend(p: string, t: string)
    ensures SpaceRun(p + t) == if SpaceRun(p) < |p| then SpaceRun(p) else |p| + SpaceRun(t)
  {
    if p != [] {
      assert (p + t)[1..] == p[1..] + t;
      if IsSpace(p[0]) {
        SpaceRunAppend(p[1..], t);
      }
    } else {
      assert p + t == t;
    }
  }

  lemma {:induction false} DigitRunAppend(p: string, t: string)
    ensures DigitRun(p + t) == if DigitRun(p) < |p| then DigitRun(p) else |p| + DigitRun(t)
  {
    if p != [] {
      assert (p + t)[1..] == p[1..] + t;
      if IsDigit(p[0]) {
        DigitRunAppend(p[1..], t);
      }
    } else {
      assert p + t == t;
    }
  }

  /** Whatever strtol skips as leading white space does not change the number. */
  lemma LeadingIntSkipsSpace(ws: string, s: string)
    requires forall i :: 0 <= i < |ws| ==> IsSpace(ws[i])
    ensures LeadingInt(ws + s) == LeadingInt(s)
  {
    SpaceRunAppend(ws, s);
    assert (ws + s)[|ws| + SpaceRun(s)..] == s[SpaceRun(s)..];
  }

  /**
   * Text "%d" printed, followed by anything that does not continue the digits,
   * reads back as the number printed: the trailing bytes are ignored.
   */
  lemma LeadingIntOfText(n: int, rest: string)
    requires rest == [] || !IsDigit(rest[0])
    ensures LeadingInt(IntText(n) + rest) == n
  {
    var m: nat := if n < 0 then -n else n;
    var digits := NatText(m);
    assert DigitRun(digits) == |digits|;
    DigitRunAppend(digits, rest);
    assert rest != [] ==> DigitRun(rest) == 0;
    assert (digits + rest)[..|digits|] == digits;
    NatTextValue(m);
    var s := IntText(n) + rest;
    assert SpaceRun(s) == 0;
    if n < 0 {
      assert s[1..] == digits + rest;
    } else {
      assert s == digits + rest;
    }
  }

  /**
   * A character that is neither white space, a sign nor a digit ends the
   * parse wherever it appears, so text after it is never read. This is why
   * the NUL io_write appends after the payload does not change the number.
   */
  lemma LeadingIntStopsAt(p: string, t: string)
    requires t != [] && !IsSpace(t[0]) && !IsDigit(t[0]) && t[0] != '-' && t[0] != '+'
    ensures LeadingInt(p + t) == LeadingInt(p)
  {
    SpaceRunAppend(p, t);
    assert SpaceRun(t) == 0;
    var i := SpaceRun(p);
    var tp := p[i..];
    assert (p + t)[i..] == tp + t;
    var st := if tp != [] && (tp[0] == '-' || tp[0] == '+') then 1 else 0;
    var u := tp[st..];
    assert (tp + t)[st..] == u + t;
    DigitRunAppend(u, t);
    assert DigitRun(t) == 0;
    assert (u + t)[..DigitRun(u + t)] == u[..DigitRun(u)];
  }

  /** A payload whose first character cannot start a number reads as 0. */
  lemma NonNumericReadsZero(s: string)
    requires s != [] && !IsSpace(s[0]) && !IsDigit(s[0]) && s[0] != '-' && s[0] != '+'
    ensures LeadingInt(s) == 0
  {
    assert SpaceRun(s) == 0 && DigitRun(s) == 0;
  }

  /**
   * The general shape strtol accepts: white space, then no sign, "+" or "-",
   * then at least one digit (leading zeros included), then anything that does
   * not continue the digits. The result is the value of the digits, negated
   * after "-".
   */
  lemma LeadingIntOfDigits(ws: string, sign: string, digits: string, rest: string)
    requires forall i :: 0 <= i < |ws| ==> IsSpace(ws[i])
    requires sign == "" || sign == "+" || sign == "-"
    requires digits != [] && AllDigits(digits)
    requires rest == [] || !IsDigit(rest[0])
    ensures LeadingInt(ws + sign + digits + rest) == if sign == "-" then -(DigitsValue(digits) as int) else DigitsValue(digits)
  {
    var u := digits + rest;
    var t := sign + u;
    assert ws + sign + digits + rest == ws + t;
    LeadingIntSkipsSpace(ws, t);
    assert DigitRun(digits) == |digits|;
    DigitRunAppend(digits, rest);
    assert DigitRun(u) == |digits| by {
      if rest != [] { assert DigitRun(rest) == 0; }
    }
    assert u[..|digits|] == digits;
    if sign == "" {
      assert t == u && !IsSpace(t[0]) && SpaceRun(t) == 0;
    } else {
      assert t[1..] == u && SpaceRun(t) == 0;
    }
  }

  /**
   * White space and an optional sign followed by no digit read as 0: strtol
   * finds no number there. Without a sign, what follows must not be white
   * space or a sign either, since those would still be skipped or taken.
   */
  lemma LeadingIntNoDigits(ws: string, sign: string, rest: string)
    requires forall i :: 0 <= i < |ws| ==> IsSpace(ws[i])
    requires sign == "" || sign == "+" || sign == "-"
    requires rest == [] || !IsDigit(rest[0])
    requires sign == "" && rest != [] ==> !IsSpace(rest[0]) && rest[0] != '+' && rest[0] != '-'
    ensures LeadingInt(ws + sign + rest) == 0
  {
    var t := sign + rest;
    assert ws + sign + rest == ws + t;
    LeadingIntSkipsSpace(ws, t);
    assert DigitRun(rest) == 0 by {
      if rest != [] { assert !IsDigit(rest[0]); }
    }
    if sign == "" {
      assert t == rest && SpaceRun(t) == 0;
      assert t == [] || (t[0] != '-' && t[0] != '+');
    } else {
      assert t[0] == sign[0] && t[1..] == rest && SpaceRun(t) == 0;
    }
  }
}
