/**
 The text that gets hashed or used as a map key: decimal integers, separator joins and RFC 3339
 timestamps, each with the reason why it can be read back.
 */
module Text {

  predicate Free(s: string, c: char) {
    c !in s
  }

  // ---------------------------------------------------------------------------------------
  // Decimal integers
  // ---------------------------------------------------------------------------------------

  predicate IsDigit(c: char) {
    '0' <= c <= '9'
  }

  function Digit(d: int): (c: char)
    requires 0 <= d < 10
    ensures IsDigit(c) && c as int - '0' as int == d
  {
    '0' + d as char
  }

  /** Decimal digits without leading zeros. */
  function Digits(n: nat): (s: string)
    ensures s != "" && forall i :: 0 <= i < |s| ==> IsDigit(s[i])
  {
    if n < 10 then [Digit(n)] else Digits(n / 10) + [Digit(n % 10)]
  }

  /** strconv.FormatInt(x, 10). */
  function FormatInt(x: int): (s: string)
    ensures forall i :: 0 <= i < |s| ==> IsDigit(s[i]) || s[i] == '-'
  {
    if x < 0 then "-" + Digits(-x) else Digits(x)
  }

  function Value(s: string): (n: int)
  {
    if s == "" then 0 else 10 * Value(s[..|s| - 1]) + (s[|s| - 1] as int - '0' as int)
  }

  lemma {:induction false} DigitsReadBack(n: nat)
    ensures Value(Digits(n)) == n
  {
    if n < 10 {
      assert [Digit(n)][..0] == "";
    } else {
      DigitsReadBack(n / 10);
      assert Digits(n)[..|Digits(n)| - 1] == Digits(n / 10);
    }
  }

  lemma {:induction false} NoLeadingZero(n: nat)
    ensures n > 0 ==> Digits(n)[0] != '0'
    ensures n == 0 ==> Digits(n) == "0"
  {
    if n >= 10 {
      NoLeadingZero(n / 10);
      assert Digits(n)[0] == Digits(n / 10)[0];
    }
  }

  /** A sign exactly for negative numbers, then the digits of the absolute value without leading zeros. */
  lemma FormatIntReads(x: int)
    ensures var s := FormatInt(x);
            && s != "" && (s[0] == '-' <==> x < 0)
            && var digits := if x < 0 then s[1..] else s;
               && digits != "" && (forall i :: 0 <= i < |digits| ==> IsDigit(digits[i]))
               && Value(digits) == (if x < 0 then -x else x) && (digits[0] == '0' ==> x == 0 && digits == "0")
  {
    var n := if x < 0 then -x else x;
    DigitsReadBack(n);
    NoLeadingZero(n);
    assert x < 0 ==> FormatInt(x)[1..] == Digits(n);
  }

  lemma FormatIntInjective(x: int, y: int)
    requires FormatInt(x) == FormatInt(y)
    ensures x == y
  {
    DigitsReadBack(if x < 0 then -x else x);
    DigitsReadBack(if y < 0 then -y else y);
    if x < 0 {
      assert FormatInt(x)[0] == '-' && FormatInt(x)[1..] == Digits(-x);
    }
    if y < 0 {
      assert FormatInt(y)[0] == '-' && FormatInt(y)[1..] == Digits(-y);
    }
  }

  // ---------------------------------------------------------------------------------------
  // Joins
  // ---------------------------------------------------------------------------------------

  /** strings.Join(parts, sep) for a one-character separator. */
  function Join(parts: seq<string>, sep: char): (s: string)
  {
    if parts == [] then "" else
    if |parts| == 1 then parts[0] else parts[0] + [sep] + Join(parts[1..], sep)
  }

  lemma FirstSep(a: string, sep: char, x: string)
    requires Free(a, sep)
    ensures var s := a + [sep] + x;
            && s[|a|] == sep && s[..|a|] == a && s[|a| + 1..] == x
            && forall i :: 0 <= i < |a| ==> s[i] != sep
  {
  }

  /** Two texts that start with a separator-free part and the separator agree on both halves. */
  lemma SplitAtSep(a: string, b: string, sep: char, x: string, y: string)
    requires Free(a, sep) && Free(b, sep) && a + [sep] + x == b + [sep] + y
    ensures a == b && x == y
  {
    FirstSep(a, sep, x);
    FirstSep(b, sep, y);
  }

  /** Joins of equally many parts are injective when all parts but the last avoid the separator. */
  lemma {:induction false} JoinInjective(a: seq<string>, b: seq<string>, sep: char)
    requires |a| == |b| && Join(a, sep) == Join(b, sep)
    requires forall i :: 0 <= i < |a| - 1 ==> Free(a[i], sep) && Free(b[i], sep)
    ensures a == b
  {
    if |a| > 1 {
      SplitAtSep(a[0], b[0], sep, Join(a[1..], sep), Join(b[1..], sep));
      JoinInjective(a[1..], b[1..], sep);
      assert a == [a[0]] + a[1..] && b == [b[0]] + b[1..];
    } else if |a| == 1 {
      assert a == [a[0]] && b == [b[0]];
    }
  }

  // ---------------------------------------------------------------------------------------
  // Timestamps: the date-time of section 5.6 of RFC 3339, in UTC
  // ---------------------------------------------------------------------------------------

  datatype Civil = Civil(year: int, month: int, day: int, hour: int, minute: int, second: int, nano: int) {
    predicate Valid() {
      && 0 <= year < 10000 && 1 <= month <= 12 && 1 <= day <= 31
      && 0 <= hour < 24 && 0 <= minute < 60 && 0 <= second < 60 && 0 <= nano < 1_000_000_000
    }
  }

  /** A UTC instant as its calendar fields. */
  type Timestamp = t: Civil | t.Valid() witness Civil(1970, 1, 1, 0, 0, 0, 0)

  function Pow10(w: nat): (p: nat)
    ensures p > 0
  {
    if w == 0 then 1 else 10 * Pow10(w - 1)
  }

  /** n in exactly w digits, zero-padded. */
  function Pad(n: nat, w: nat): (s: string)
    ensures |s| == w
  {
    if w == 0 then "" else Pad(n / 10, w - 1) + [Digit(n % 10)]
  }

  lemma {:induction false} PadReadBack(n: nat, w: nat)
    requires n < Pow10(w)
    ensures Value(Pad(n, w)) == n
  {
    if w > 0 {
      PadReadBack(n / 10, w - 1);
      assert Pad(n, w)[..w - 1] == Pad(n / 10, w - 1);
    }
  }

  function TrimZeros(s: string): (r: string)
    ensures |r| <= |s|
  {
    if s != "" && s[|s| - 1] == '0' then TrimZeros(s[..|s| - 1]) else s
  }

  lemma {:induction false} TrimZerosInjective(a: string, b: string)
    requires |a| == |b| && TrimZeros(a) == TrimZeros(b)
    ensures a == b
  {
    if a != "" {
      assert a == a[..|a| - 1] + [a[|a| - 1]] && b == b[..|b| - 1] + [b[|b| - 1]];
      if a[|a| - 1] == '0' && b[|b| - 1] == '0' {
        TrimZerosInjective(a[..|a| - 1], b[..|b| - 1]);
      }
    }
  }

  /** The fraction RFC3339Nano prints: nothing for whole seconds, else no trailing zeros. */
  function Fraction(nano: nat): string {
    if nano == 0 then "" else "." + TrimZeros(Pad(nano, 9))
  }

  function ClockText(t: Timestamp): string {
    Pad(t.minute, 2) + (":" + (Pad(t.second, 2) + (Fraction(t.nano) + "Z")))
  }

  function DayText(t: Timestamp): string {
    Pad(t.day, 2) + ("T" + (Pad(t.hour, 2) + (":" + ClockText(t))))
  }

  /** Time.Format(time.RFC3339Nano) of a UTC instant. */
  function FormatTime(t: Timestamp): string {
    Pad(t.year, 4) + ("-" + (Pad(t.month, 2) + ("-" + DayText(t))))
  }

  lemma PadPrefix(n: nat, m: nat, w: nat, x: string, y: string)
    requires n < Pow10(w) && m < Pow10(w) && Pad(n, w) + x == Pad(m, w) + y
    ensures n == m && x == y
  {
    var s := Pad(n, w) + x;
    assert s[..w] == Pad(n, w) && s[..w] == Pad(m, w) && s[w..] == x && s[w..] == y;
    PadReadBack(n, w);
    PadReadBack(m, w);
  }

  lemma FractionInjective(n: nat, m: nat)
    requires n < 1_000_000_000 && m < 1_000_000_000 && Fraction(n) + "Z" == Fraction(m) + "Z"
    ensures n == m
  {
    assert Fraction(n) == (Fraction(n) + "Z")[..|Fraction(n)|];
    assert Fraction(m) == (Fraction(m) + "Z")[..|Fraction(m)|];
    if n != 0 && m != 0 {
      assert TrimZeros(Pad(n, 9)) == Fraction(n)[1..] && TrimZeros(Pad(m, 9)) == Fraction(m)[1..];
      TrimZerosInjective(Pad(n, 9), Pad(m, 9));
      PowNine();
      PadReadBack(n, 9);
      PadReadBack(m, 9);
    }
  }

  lemma PowNine()
    ensures Pow10(2) == 100 && Pow10(4) == 10000 && Pow10(9) == 1_000_000_000
  {
    assert Pow10(1) == 10 * Pow10(0);
    assert Pow10(3) == 10 * Pow10(2);
    assert Pow10(5) == 10 * Pow10(4);
    assert Pow10(7) == 10 * Pow10(6);
  }

  /** Two padded numbers, each followed by one fixed character. */
  lemma PadPairs(n: nat, m: nat, w: nat, c: string, x: string, y: string)
    requires n < Pow10(w) && m < Pow10(w) && |c| == 1 && Pad(n, w) + (c + x) == Pad(m, w) + (c + y)
    ensures n == m && x == y
  {
    PadPrefix(n, m, w, c + x, c + y);
    assert x == (c + x)[1..] && y == (c + y)[1..];
  }

  lemma ClockInjective(a: Timestamp, b: Timestamp)
    requires ClockText(a) == ClockText(b)
    ensures a.minute == b.minute && a.second == b.second && a.nano == b.nano
  {
    PowNine();
    PadPairs(a.minute, b.minute, 2, ":",
             Pad(a.second, 2) + (Fraction(a.nano) + "Z"), Pad(b.second, 2) + (Fraction(b.nano) + "Z"));
    PadPrefix(a.second, b.second, 2, Fraction(a.nano) + "Z", Fraction(b.nano) + "Z");
    FractionInjective(a.nano, b.nano);
  }

  lemma DayInjective(a: Timestamp, b: Timestamp)
    requires DayText(a) == DayText(b)
    ensures a.day == b.day && a.hour == b.hour && ClockText(a) == ClockText(b)
  {
    PowNine();
    PadPairs(a.day, b.day, 2, "T", Pad(a.hour, 2) + (":" + ClockText(a)), Pad(b.hour, 2) + (":" + ClockText(b)));
    PadPairs(a.hour, b.hour, 2, ":", ClockText(a), ClockText(b));
  }

  /** The timestamp text determines the instant. */
  lemma FormatTimeInjective(a: Timestamp, b: Timestamp)
    requires FormatTime(a) == FormatTime(b)
    ensures a == b
  {
    PowNine();
    PadPairs(a.year, b.year, 4, "-", Pad(a.month, 2) + ("-" + DayText(a)), Pad(b.month, 2) + ("-" + DayText(b)));
    PadPairs(a.month, b.month, 2, "-", DayText(a), DayText(b));
    DayInjective(a, b);
    ClockInjective(a, b);
  }

  lemma {:induction false} TrimZerosValue(s: string)
    ensures var r := TrimZeros(s);
            && Value(s) == Value(r) * Pow10(|s| - |r|) && (r != "" ==> r[|r| - 1] != '0')
            && (Value(s) != 0 ==> r != "")
  {
    if s != "" && s[|s| - 1] == '0' {
      var init := s[..|s| - 1];
      TrimZerosValue(init);
      assert Value(s) == 10 * Value(init);
      assert Pow10(|s| - |TrimZeros(s)|) == 10 * Pow10(|init| - |TrimZeros(init)|);
    } else {
      assert Pow10(0) == 1;
    }
  }

  /** The fraction, scaled to nine digits, is the nanoseconds. */
  lemma FractionReads(nano: nat)
    requires 0 < nano < 1_000_000_000
    ensures var f := Fraction(nano);
            && 2 <= |f| <= 10 && f[0] == '.' && f[|f| - 1] != '0' && Value(f[1..]) * Pow10(10 - |f|) == nano
  {
    PowNine();
    PadReadBack(nano, 9);
    TrimZerosValue(Pad(nano, 9));
    assert Fraction(nano)[1..] == TrimZeros(Pad(nano, 9));
  }

  /** The front of a text is a padded number followed by one fixed character. */
  lemma PadAt(n: nat, w: nat, c: string, rest: string, s: string)
    requires |c| == 1 && s == Pad(n, w) + (c + rest)
    ensures |s| == w + 1 + |rest| && s[..w] == Pad(n, w) && s[w] == c[0] && s[w + 1..] == rest
  {
  }

  lemma ClockParts(t: Timestamp)
    ensures var s, f := ClockText(t), Fraction(t.nano);
            && |s| == 6 + |f| && s[..2] == Pad(t.minute, 2) && s[2] == ':' && s[3..5] == Pad(t.second, 2)
            && s[5..5 + |f|] == f && s[5 + |f|] == 'Z'
  {
    var s, f := ClockText(t), Fraction(t.nano);
    PadAt(t.minute, 2, ":", Pad(t.second, 2) + (f + "Z"), s);
    assert s[3..][..2] == Pad(t.second, 2) && s[3..][2..] == f + "Z";
    assert s[3..5] == s[3..][..2] && s[5..] == f + "Z";
  }

  lemma DayParts(t: Timestamp)
    ensures var s := DayText(t);
            && |s| == 6 + |ClockText(t)| && s[..2] == Pad(t.day, 2) && s[2] == 'T' && s[3..5] == Pad(t.hour, 2)
            && s[5] == ':' && s[6..] == ClockText(t)
  {
    var s := DayText(t);
    PadAt(t.day, 2, "T", Pad(t.hour, 2) + (":" + ClockText(t)), s);
    PadAt(t.hour, 2, ":", ClockText(t), s[3..]);
    assert s[3..5] == s[3..][..2] && s[3..][3..] == s[6..];
  }

  /** Where the parts of the date-time stand. */
  lemma FormatTimeParts(t: Timestamp)
    ensures var s := FormatTime(t);
            && |s| == 8 + |DayText(t)| && s[..4] == Pad(t.year, 4) && s[4] == '-' && s[5..7] == Pad(t.month, 2)
            && s[7] == '-' && s[8..] == DayText(t)
  {
    var s := FormatTime(t);
    PadAt(t.year, 4, "-", Pad(t.month, 2) + ("-" + DayText(t)), s);
    PadAt(t.month, 2, "-", DayText(t), s[5..]);
    assert s[5..7] == s[5..][..2] && s[5..][3..] == s[8..];
  }

  /** All parts, as slices of the whole text. */
  lemma FormatTimeSlices(t: Timestamp)
    ensures var s, f := FormatTime(t), Fraction(t.nano);
            && |s| == 20 + |f| && s[8..10] == Pad(t.day, 2) && s[10] == 'T' && s[11..13] == Pad(t.hour, 2)
            && s[13] == ':' && s[14..16] == Pad(t.minute, 2) && s[16] == ':' && s[17..19] == Pad(t.second, 2)
            && s[19..19 + |f|] == f && s[19 + |f|] == 'Z'
  {
    FormatTimeParts(t);
    DayParts(t);
    ClockParts(t);
    var s, d, c, f := FormatTime(t), DayText(t), ClockText(t), Fraction(t.nano);
    assert s[8..10] == d[..2] && s[11..13] == d[3..5];
    assert s[14..] == d[6..];
    assert s[14..16] == c[..2] && s[17..19] == c[3..5] && s[19..19 + |f|] == c[5..5 + |f|];
  }

  lemma FractionInPlace(t: Timestamp)
    requires t.nano != 0
    ensures var s := FormatTime(t);
            && 22 <= |s| <= 30 && s[19] == '.' && s[|s| - 2] != '0' && Value(s[20..|s| - 1]) * Pow10(30 - |s|) == t.nano
  {
    FormatTimeSlices(t);
    FractionReads(t.nano);
    var s, f := FormatTime(t), Fraction(t.nano);
    assert s[19..19 + |f|][0] == s[19] && s[19..19 + |f|][|f| - 1] == s[18 + |f|];
    assert s[20..|s| - 1] == s[19..19 + |f|][1..];
  }

  /**
   The date-time of section 5.6 of RFC 3339: every field stands in its place and reads back, and the
   fraction is there exactly for part of a second, without trailing zeros.
   */
  lemma FormatTimeReads(t: Timestamp)
    ensures var s := FormatTime(t);
            && 20 <= |s| <= 30 && s[4] == '-' && s[7] == '-' && s[10] == 'T' && s[13] == ':' && s[16] == ':'
            && s[|s| - 1] == 'Z' && Value(s[..4]) == t.year && Value(s[5..7]) == t.month && Value(s[8..10]) == t.day
            && Value(s[11..13]) == t.hour && Value(s[14..16]) == t.minute && Value(s[17..19]) == t.second
            && (t.nano == 0 <==> |s| == 20)
            && (t.nano != 0 ==>
                  s[19] == '.' && s[|s| - 2] != '0' && Value(s[20..|s| - 1]) * Pow10(30 - |s|) == t.nano)
  {
    PowNine();
    FormatTimeParts(t);
    FormatTimeSlices(t);
    PadReadBack(t.year, 4);
    PadReadBack(t.month, 2);
    PadReadBack(t.day, 2);
    PadReadBack(t.hour, 2);
    PadReadBack(t.minute, 2);
    PadReadBack(t.second, 2);
    if t.nano != 0 {
      FractionInPlace(t);
    }
  }
}
