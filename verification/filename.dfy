/**
 * The download file name built by `downloadBlob` in main.js:
 * `POP_A3縦_` + year + MM + DD + `_` + HH + mm + SS + `.jpg`, where every
 * field but the year goes through `String(..).padStart(2, "0")`.
 *
 * The wall clock (`new Date()`) is replaced by the values its getters
 * return, passed in as a `Clock`. As in the source, the month field is
 * `getMonth() + 1` and the minute field is `getMinutes() + 1`: minutes
 * 0..59 are written as 01..60.
 */
module FileName {

  predicate IsDigit(c: char) {
    '0' <= c <= '9'
  }

  predicate AllDigits(s: string) {
    forall i :: 0 <= i < |s| ==> IsDigit(s[i])
  }

  /** The character of a decimal digit. */
  function DigitChar(d: nat): (c: char)
    requires d < 10
    ensures IsDigit(c) && DigitValue(c) == d
  {
    (48 + d) as char
  }

  /** The value of a digit character: its distance from '0'. */
  function DigitValue(c: char): int {
    (c as int) - 48
  }

  /** The number a string of decimal digits denotes, most significant first. */
  function DigitsValue(s: string): int {
    if s == [] then 0 else DigitsValue(s[..|s| - 1]) * 10 + DigitValue(s[|s| - 1])
  }

  /**
   * `String(n)` for a non-negative integer: one or more decimal digits.
   * JavaScript switches to exponent notation from 1e21 on; the model covers
   * only the plain decimal range, far above any `Date` getter's value.
   */
  function DecimalString(n: nat): (s: string)
    ensures |s| >= 1
    ensures n < 10 <==> |s| == 1
  {
    if n < 10 then [DigitChar(n)] else DecimalString(n / 10) + [DigitChar(n % 10)]
  }

  /**
   * `String(n)` is made of digits, has a leading zero only for 0 itself,
   * and reads back as `n`.
   */
  lemma {:induction false} DecimalStringDigits(n: nat)
    ensures var s := DecimalString(n);
            AllDigits(s) && (s[0] == '0' <==> n == 0) && DigitsValue(s) == n
  {
    if n >= 10 {
      var s := DecimalString(n);
      assert s[..|s| - 1] == DecimalString(n / 10);
      DecimalStringDigits(n / 10);
    }
  }

  /**
   * `String(n)` for any integer (the year): a minus sign before the digits
   * of the magnitude when the number is negative.
   */
  function IntString(n: int): (s: string)
    ensures |s| >= 1
  {
    if n < 0 then "-" + DecimalString(-n) else DecimalString(n)
  }

  /**
   * The year field starts with a minus sign exactly for a negative year,
   * and its digits read back as the year's magnitude.
   */
  lemma IntStringDigits(n: int)
    ensures var s := IntString(n);
            (s[0] == '-' <==> n < 0) &&
            (n < 0 ==> AllDigits(s[1..]) && DigitsValue(s[1..]) == -n) &&
            (n >= 0 ==> AllDigits(s) && DigitsValue(s) == n)
  {
    if n < 0 {
      DecimalStringDigits(-n);
      assert IntString(n)[1..] == DecimalString(-n);
    } else {
      DecimalStringDigits(n);
    }
  }

  /**
   * `s.padStart(target, pad)` for a one-character pad string: copies of
   * `pad` go in front of `s` until it is `target` long; a string already
   * that long is returned unchanged (never truncated).
   */
  function PadStart(s: string, target: nat, pad: char): (r: string)
    ensures |r| == if |s| >= target then |s| else target
    decreases target - |s|
  {
    if |s| >= target then s else PadStart([pad] + s, target, pad)
  }

  /** `padStart` keeps `s` as the suffix and fills the front with `pad` only. */
  lemma {:induction false} PadStartShape(s: string, target: nat, pad: char)
    ensures var r := PadStart(s, target, pad);
            r[|r| - |s|..] == s && forall i :: 0 <= i < |r| - |s| ==> r[i] == pad
    decreases target - |s|
  {
    if |s| < target {
      PadStartShape([pad] + s, target, pad);
    }
  }

  /** `String(n).padStart(2, "0")`. */
  function Pad2(n: nat): (r: string)
    ensures |r| >= 2
    ensures n <= 99 ==> |r| == 2
  {
    PadStart(DecimalString(n), 2, '0')
  }

  /** A leading zero does not change the number a digit string denotes. */
  lemma {:induction false} LeadingZero(s: string)
    ensures DigitsValue("0" + s) == DigitsValue(s)
  {
    if s != [] {
      var t := "0" + s;
      assert t[..|t| - 1] == "0" + s[..|s| - 1];
      LeadingZero(s[..|s| - 1]);
    }
  }

  /**
   * The padded field: digits only, reading back as `n`, exactly two of them
   * up to 99, and from 10 on just `String(n)` (nothing is cut off).
   */
  lemma Pad2Value(n: nat)
    ensures AllDigits(Pad2(n)) && DigitsValue(Pad2(n)) == n
    ensures n <= 99 ==> |Pad2(n)| == 2
    ensures n >= 10 ==> Pad2(n) == DecimalString(n)
  {
    var digits := DecimalString(n);
    DecimalStringDigits(n);
    if n < 10 {
      assert PadStart(digits, 2, '0') == PadStart("0" + digits, 2, '0') == "0" + digits;
      LeadingZero(digits);
    }
  }

  /** Up to 99 the padded field is the tens digit followed by the units digit. */
  lemma Pad2Digits(n: nat)
    requires n <= 99
    ensures Pad2(n) == [DigitChar(n / 10), DigitChar(n % 10)]
  {
    var digits := DecimalString(n);
    if n >= 10 {
      assert DecimalString(n / 10) == [DigitChar(n / 10)];
      assert |digits| == 2;
    } else {
      assert PadStart(digits, 2, '0') == PadStart("0" + digits, 2, '0') == "0" + digits;
    }
  }

  /** What the `Date` getters return at the moment of the download. */
  datatype Clock = Clock(year: int, monthIndex: nat, day: nat, hours: nat, minutes: nat, seconds: nat)

  /** The ranges of `getMonth`, `getDate`, `getHours`, `getMinutes`, `getSeconds`. */
  ghost predicate ValidClock(c: Clock) {
    c.monthIndex <= 11 && 1 <= c.day <= 31 && c.hours <= 23 && c.minutes <= 59 && c.seconds <= 59
  }

  const Prefix: string := "POP_A3縦_"
  const Extension: string := ".jpg"

  /** The template literal `POP_A3縦_${y}${m}${d}_${hh}${mm}${ss}.jpg`. */
  function Template(y: string, m: string, d: string, hh: string, mm: string, ss: string): (s: string)
    ensures |s| == |Prefix| + |y| + |m| + |d| + 1 + |hh| + |mm| + |ss| + |Extension|
    ensures s[..|Prefix|] == Prefix && s[|s| - |Extension|..] == Extension
  {
    Prefix + y + m + d + "_" + hh + mm + ss + Extension
  }

  /**
   * `a.download` as `downloadBlob` sets it: the year as `String` gives it,
   * the other fields padded to two digits, the month counted from 1 and the
   * minute shifted by one.
   */
  function DownloadName(c: Clock): (name: string)
    ensures |name| >= 24
    ensures name[..8] == Prefix && name[|name| - 4..] == Extension
  {
    Template(IntString(c.year), Pad2(c.monthIndex + 1), Pad2(c.day),
             Pad2(c.hours), Pad2(c.minutes + 1), Pad2(c.seconds))
  }

  /** A four-digit year is written as its four digits. */
  lemma FourDigitYear(n: int)
    requires 1000 <= n <= 9999
    ensures IntString(n) == [DigitChar(n / 1000), DigitChar(n / 100 % 10), DigitChar(n / 10 % 10), DigitChar(n % 10)]
  {
    assert DecimalString(n / 1000) == [DigitChar(n / 1000)];
    assert DecimalString(n / 100) == [DigitChar(n / 1000), DigitChar(n / 100 % 10)];
    assert DecimalString(n / 10) == [DigitChar(n / 1000), DigitChar(n / 100 % 10), DigitChar(n / 10 % 10)];
  }

  /** The value of four explicit digits. */
  lemma FourDigitsValue(n: nat)
    requires 1000 <= n <= 9999
    ensures var s := [DigitChar(n / 1000), DigitChar(n / 100 % 10), DigitChar(n / 10 % 10), DigitChar(n % 10)];
            AllDigits(s) && DigitsValue(s) == n
  {
    var s := [DigitChar(n / 1000), DigitChar(n / 100 % 10), DigitChar(n / 10 % 10), DigitChar(n % 10)];
    var s1, s2, s3 := s[..1], s[..2], s[..3];
    assert s1[..0] == [];
    assert DigitsValue(s1) == n / 1000;
    assert s2[..1] == s1;
    assert DigitsValue(s2) == n / 100;
    assert s3[..2] == s2;
    assert DigitsValue(s3) == n / 10;
    assert s[..3] == s3;
  }

  /**
   * Where each part of the template lies when the year has four characters
   * and every other field two: the fixed text at offsets 0, 16 and 23, the
   * fields in between, all of them digits.
   */
  lemma NameLayout(y: string, m: string, d: string, hh: string, mm: string, ss: string)
    requires |y| == 4 && |m| == 2 && |d| == 2 && |hh| == 2 && |mm| == 2 && |ss| == 2
    requires AllDigits(y) && AllDigits(m) && AllDigits(d) && AllDigits(hh) && AllDigits(mm) && AllDigits(ss)
    ensures var s := Template(y, m, d, hh, mm, ss);
            |s| == 27 && s[..8] == Prefix && s[16] == '_' && s[23..] == Extension &&
            AllDigits(s[8..16]) && AllDigits(s[17..23]) &&
            s[8..12] == y && s[12..14] == m && s[14..16] == d &&
            s[17..19] == hh && s[19..21] == mm && s[21..23] == ss
  {
    var s := Template(y, m, d, hh, mm, ss);
    assert s[8..16] == y + m + d;
    assert s[17..23] == hh + mm + ss;
  }

  /**
   * For a four-digit year and a clock in range the name is 27 characters
   * and each field sits at a fixed offset.
   */
  lemma DownloadNameSplit(c: Clock)
    requires ValidClock(c) && 1000 <= c.year <= 9999
    ensures var name := DownloadName(c);
            |name| == 27 && name[..8] == Prefix && name[16] == '_' && name[23..] == Extension &&
            AllDigits(name[8..16]) && AllDigits(name[17..23]) &&
            name[8..12] == IntString(c.year) &&
            name[12..14] == Pad2(c.monthIndex + 1) && name[14..16] == Pad2(c.day) &&
            name[17..19] == Pad2(c.hours) && name[19..21] == Pad2(c.minutes + 1) &&
            name[21..23] == Pad2(c.seconds)
  {
    FieldWidths(c);
    NameLayout(IntString(c.year), Pad2(c.monthIndex + 1), Pad2(c.day),
               Pad2(c.hours), Pad2(c.minutes + 1), Pad2(c.seconds));
  }

  /** The fields of an in-range clock with a four-digit year have fixed widths. */
  lemma FieldWidths(c: Clock)
    requires ValidClock(c) && 1000 <= c.year <= 9999
    ensures AllDigits(IntString(c.year)) && |IntString(c.year)| == 4
    ensures AllDigits(Pad2(c.monthIndex + 1)) && |Pad2(c.monthIndex + 1)| == 2
    ensures AllDigits(Pad2(c.day)) && |Pad2(c.day)| == 2
    ensures AllDigits(Pad2(c.hours)) && |Pad2(c.hours)| == 2
    ensures AllDigits(Pad2(c.minutes + 1)) && |Pad2(c.minutes + 1)| == 2
    ensures AllDigits(Pad2(c.seconds)) && |Pad2(c.seconds)| == 2
  {
    FourDigitYear(c.year);
    Pad2Value(c.monthIndex + 1);
    Pad2Value(c.day);
    Pad2Value(c.hours);
    Pad2Value(c.minutes + 1);
    Pad2Value(c.seconds);
  }

  /**
   * Reading the name back: for a four-digit year and a clock in range, the
   * digits at each offset denote the year, the month counted from 1, the
   * day, the hour, the minute PLUS ONE, and the second.
   */
  lemma DownloadNameFields(c: Clock)
    requires ValidClock(c) && 1000 <= c.year <= 9999
    ensures var name := DownloadName(c);
            |name| == 27 && name[..8] == Prefix && name[16] == '_' && name[23..] == Extension &&
            AllDigits(name[8..16]) && AllDigits(name[17..23]) &&
            DigitsValue(name[8..12]) == c.year &&
            DigitsValue(name[12..14]) == c.monthIndex + 1 &&
            DigitsValue(name[14..16]) == c.day &&
            DigitsValue(name[17..19]) == c.hours &&
            DigitsValue(name[19..21]) == c.minutes + 1 &&
            DigitsValue(name[21..23]) == c.seconds
  {
    DownloadNameSplit(c);
    FourDigitYear(c.year);
    FourDigitsValue(c.year);
    Pad2Value(c.monthIndex + 1);
    Pad2Value(c.day);
    Pad2Value(c.hours);
    Pad2Value(c.minutes + 1);
    Pad2Value(c.seconds);
  }

  /**
   * Two in-range clocks with four-digit years that give the same name are
   * the same clock: the name loses nothing, despite the shifted minute.
   */
  lemma DownloadNameInjective(c1: Clock, c2: Clock)
    requires ValidClock(c1) && 1000 <= c1.year <= 9999
    requires ValidClock(c2) && 1000 <= c2.year <= 9999
    requires DownloadName(c1) == DownloadName(c2)
    ensures c1 == c2
  {
    DownloadNameFields(c1);
    DownloadNameFields(c2);
  }

  /**
   * The minute field is `getMinutes() + 1`: over minutes 0..59 it reads
   * 1..60, so it is never "00", and minute 59 is written "60".
   */
  lemma MinuteFieldShifted(c: Clock)
    requires ValidClock(c) && 1000 <= c.year <= 9999
    ensures var field := DownloadName(c)[19..21];
            AllDigits(field) && 1 <= DigitsValue(field) <= 60 && field != "00" &&
            (c.minutes == 0 ==> field == "01") &&
            (c.minutes == 59 ==> field == "60")
  {
    DownloadNameSplit(c);
    Pad2Value(c.minutes + 1);
    Pad2Digits(c.minutes + 1);
  }

  /** The fields of the example below, as `String` and `padStart` give them. */
  lemma ExampleFields()
    ensures IntString(2024) == "2024"
    ensures Pad2(1) == "01" && Pad2(5) == "05" && Pad2(9) == "09" && Pad2(60) == "60" && Pad2(7) == "07"
  {
  }

  /** 5 January 2024 at 09:59:07 is downloaded as POP_A3縦_20240105_096007.jpg. */
  lemma ExampleName()
    ensures DownloadName(Clock(2024, 0, 5, 9, 59, 7)) == "POP_A3縦_20240105_096007.jpg"
  {
    ExampleFields();
  }
}
