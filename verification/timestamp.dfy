/**
  The `%Y-%m-%d %H:%M:%S` rendering of a date-time that the logger uses both
  for the `timestamp` field of the upload payload and for the capture-second
  key of the recent-log index, together with its inverse.
 */
module Timestamp {
  import opened Common

  /** A calendar date and wall-clock time, without sub-second part (the format drops it). */
  datatype DateTime = DateTime(year: int, month: int, day: int, hour: int, minute: int, second: int)

  predicate IsLeapYear(y: int) {
    y % 4 == 0 && (y % 100 != 0 || y % 400 == 0)
  }

  function DaysInMonth(y: int, m: int): int
    requires 1 <= m <= 12
  {
    if m == 2 then (if IsLeapYear(y) then 29 else 28)
    else if m == 4 || m == 6 || m == 9 || m == 11 then 30
    else 31
  }

  /** The values a datetime object can hold: years 1 to 9999 and a real calendar day. */
  predicate Valid(t: DateTime) {
    && 1 <= t.year <= 9999
    && 1 <= t.month <= 12
    && 1 <= t.day <= DaysInMonth(t.year, t.month)
    && 0 <= t.hour < 24
    && 0 <= t.minute < 60
    && 0 <= t.second < 60
  }

  type Instant = t: DateTime | Valid(t) witness DateTime(1, 1, 1, 0, 0, 0)

  function Pow10(n: nat): (p: nat)
    ensures p >= 1
  {
    if n == 0 then 1 else 10 * Pow10(n - 1)
  }

  predicate IsDigit(c: char) {
    '0' <= c <= '9'
  }

  predicate AllDigits(s: string) {
    forall i :: 0 <= i < |s| ==> IsDigit(s[i])
  }

  function DigitChar(d: int): (c: char)
    requires 0 <= d < 10
    ensures IsDigit(c)
  {
    ('0' as int + d) as char
  }

  function DigitValue(c: char): (d: int)
    requires IsDigit(c)
    ensures 0 <= d < 10 && DigitChar(d) == c
  {
    c as int - '0' as int
  }

  /** The decimal digits of `n` in exactly `w` places, zero-padded on the left. */
  function FixedDigits(n: nat, w: nat): (s: string)
    ensures |s| == w
    ensures AllDigits(s)
  {
    if w == 0 then [] else FixedDigits(n / 10, w - 1) + [DigitChar(n % 10)]
  }

  /** The number a string of decimal digits denotes. */
  function DigitsValue(s: string): nat
    requires AllDigits(s)
  {
    if |s| == 0 then 0 else 10 * DigitsValue(s[..|s| - 1]) + DigitValue(s[|s| - 1])
  }

  lemma {:induction false} DigitsValueOfFixed(n: nat, w: nat)
    requires n < Pow10(w)
    ensures DigitsValue(FixedDigits(n, w)) == n
  {
    if w > 0 {
      var s := FixedDigits(n, w);
      assert s[..|s| - 1] == FixedDigits(n / 10, w - 1);
      DigitsValueOfFixed(n / 10, w - 1);
    }
  }

  lemma {:induction false} FixedOfDigitsValue(s: string)
    requires AllDigits(s)
    ensures DigitsValue(s) < Pow10(|s|)
    ensures FixedDigits(DigitsValue(s), |s|) == s
  {
    if |s| > 0 {
      var p := s[..|s| - 1];
      FixedOfDigitsValue(p);
      var v := DigitsValue(s);
      assert v / 10 == DigitsValue(p) && v % 10 == DigitValue(s[|s| - 1]);
      assert s == p + [s[|s| - 1]];
    }
  }

  /** Positions of the separators in a rendered timestamp. */
  predicate IsSeparatorPosition(i: int) {
    i == 4 || i == 7 || i == 10 || i == 13 || i == 16
  }

  /** The layout `DDDD-DD-DD DD:DD:DD`: nineteen characters, separators fixed, digits elsewhere. */
  predicate Shaped(s: string) {
    && |s| == 19
    && s[4] == '-' && s[7] == '-' && s[10] == ' ' && s[13] == ':' && s[16] == ':'
    && forall i :: 0 <= i < 19 && !IsSeparatorPosition(i) ==> IsDigit(s[i])
  }

  /** `t.strftime("%Y-%m-%d %H:%M:%S")`. */
  function Format(t: Instant): (s: string)
    ensures Shaped(s)
  {
    var s := FixedDigits(t.year, 4) + "-" + FixedDigits(t.month, 2) + "-" + FixedDigits(t.day, 2) + " "
           + FixedDigits(t.hour, 2) + ":" + FixedDigits(t.minute, 2) + ":" + FixedDigits(t.second, 2);
    assert forall i :: 0 <= i < 19 && !IsSeparatorPosition(i) ==> IsDigit(s[i]) by {
      forall i | 0 <= i < 19 && !IsSeparatorPosition(i)
        ensures IsDigit(s[i])
      {
        if i < 4 { assert s[i] == FixedDigits(t.year, 4)[i]; }
        else if i < 7 { assert s[i] == FixedDigits(t.month, 2)[i - 5]; }
        else if i < 10 { assert s[i] == FixedDigits(t.day, 2)[i - 8]; }
        else if i < 13 { assert s[i] == FixedDigits(t.hour, 2)[i - 11]; }
        else if i < 16 { assert s[i] == FixedDigits(t.minute, 2)[i - 14]; }
        else { assert s[i] == FixedDigits(t.second, 2)[i - 17]; }
      }
    }
    s
  }

  /** Reads a rendered timestamp back; `None` for anything that is not one. */
  function Parse(s: string): (r: Option<Instant>)
    ensures r.Some? ==> Format(r.value) == s
  {
    if !Shaped(s) then None
    else
      assert AllDigits(s[0..4]) && AllDigits(s[5..7]) && AllDigits(s[8..10]);
      assert AllDigits(s[11..13]) && AllDigits(s[14..16]) && AllDigits(s[17..19]);
      var t := DateTime(DigitsValue(s[0..4]), DigitsValue(s[5..7]), DigitsValue(s[8..10]),
                        DigitsValue(s[11..13]), DigitsValue(s[14..16]), DigitsValue(s[17..19]));
      if Valid(t) then
        FormatOfParsed(s, t);
        Some(t)
      else None
  }

  lemma FormatOfParsed(s: string, t: Instant)
    requires Shaped(s)
    requires AllDigits(s[0..4]) && AllDigits(s[5..7]) && AllDigits(s[8..10])
    requires AllDigits(s[11..13]) && AllDigits(s[14..16]) && AllDigits(s[17..19])
    requires t == DateTime(DigitsValue(s[0..4]), DigitsValue(s[5..7]), DigitsValue(s[8..10]),
                           DigitsValue(s[11..13]), DigitsValue(s[14..16]), DigitsValue(s[17..19]))
    ensures Format(t) == s
  {
    FixedOfDigitsValue(s[0..4]);
    FixedOfDigitsValue(s[5..7]);
    FixedOfDigitsValue(s[8..10]);
    FixedOfDigitsValue(s[11..13]);
    FixedOfDigitsValue(s[14..16]);
    FixedOfDigitsValue(s[17..19]);
    assert "-" == s[4..5] && "-" == s[7..8] && " " == s[10..11];
    assert ":" == s[13..14] && ":" == s[16..17];
    assert s[0..4] + s[4..5] == s[0..5];
    assert s[0..5] + s[5..7] == s[0..7];
    assert s[0..7] + s[7..8] == s[0..8];
    assert s[0..8] + s[8..10] == s[0..10];
    assert s[0..10] + s[10..11] == s[0..11];
    assert s[0..11] + s[11..13] == s[0..13];
    assert s[0..13] + s[13..14] == s[0..14];
    assert s[0..14] + s[14..16] == s[0..16];
    assert s[0..16] + s[16..17] == s[0..17];
    assert s[0..17] + s[17..19] == s;
  }

  /** Rendering loses nothing: the timestamp string of an instant reads back as that instant. */
  lemma ParseFormat(t: Instant)
    ensures Parse(Format(t)) == Some(t)
  {
    var s := Format(t);
    assert s[0..4] == FixedDigits(t.year, 4);
    assert s[5..7] == FixedDigits(t.month, 2);
    assert s[8..10] == FixedDigits(t.day, 2);
    assert s[11..13] == FixedDigits(t.hour, 2);
    assert s[14..16] == FixedDigits(t.minute, 2);
    assert s[17..19] == FixedDigits(t.second, 2);
    DigitsValueOfFixed(t.year, 4);
    DigitsValueOfFixed(t.month, 2);
    DigitsValueOfFixed(t.day, 2);
    DigitsValueOfFixed(t.hour, 2);
    DigitsValueOfFixed(t.minute, 2);
    DigitsValueOfFixed(t.second, 2);
  }

  /** Two instants render to the same key exactly when they agree to the second. */
  lemma FormatInjective(t1: Instant, t2: Instant)
    ensures Format(t1) == Format(t2) <==> t1 == t2
  {
    if Format(t1) == Format(t2) {
      ParseFormat(t1);
      ParseFormat(t2);
    }
  }
}
