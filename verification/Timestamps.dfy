/** Timestamps as stored: RFC 3339 text in UTC with as many fraction digits as needed, compared as text by SQL. */
module Timestamps {
  import opened Text

  /** Nanoseconds since the start of year 0 of the proleptic Gregorian calendar. */
  type Instant = nat

  const SECOND: nat := 1_000_000_000

  // ------------------------------------------------------------------ the calendar

  predicate IsLeap(y: nat) {
    y % 4 == 0 && (y % 100 != 0 || y % 400 == 0)
  }

  function MonthLen(y: nat, m: nat): nat {
    if m == 2 then (if IsLeap(y) then 29 else 28) else if m in {4, 6, 9, 11} then 30 else 31
  }

  /** Days from the start of month `m` to the end of the year. */
  function DaysLeft(y: nat, m: nat): nat
    decreases 13 - m
  {
    if m > 12 then 0 else MonthLen(y, m) + DaysLeft(y, m + 1)
  }

  datatype Date = Date(y: nat, m: nat, d: nat)

  /** The date `day` days after the start of month `m`. */
  function MonthFrom(day: nat, y: nat, m: nat): (r: Date)
    requires 1 <= m <= 12 && day < DaysLeft(y, m)
    ensures r.y == y && m <= r.m <= 12 && 1 <= r.d <= 31
    decreases 13 - m
  {
    if day < MonthLen(y, m) then Date(y, m, day + 1) else MonthFrom(day - MonthLen(y, m), y, m + 1)
  }

  /** The date `day` days after the start of year `y`. */
  function DateFrom(day: nat, y: nat): (r: Date)
    ensures y <= r.y && 1 <= r.m <= 12 && 1 <= r.d <= 31
    decreases day
  {
    if day < DaysLeft(y, 1) then MonthFrom(day, y, 1)
    else
      assert DaysLeft(y, 1) > 0;
      DateFrom(day - DaysLeft(y, 1), y + 1)
  }

  predicate DateLess(a: Date, b: Date) {
    a.y < b.y || (a.y == b.y && (a.m < b.m || (a.m == b.m && a.d < b.d)))
  }

  lemma {:induction false} MonthFromOrder(a: nat, b: nat, y: nat, m: nat)
    requires 1 <= m <= 12 && a < b < DaysLeft(y, m)
    ensures DateLess(MonthFrom(a, y, m), MonthFrom(b, y, m))
    decreases 13 - m
  {
    hide MonthLen;
    if a >= MonthLen(y, m) {
      MonthFromOrder(a - MonthLen(y, m), b - MonthLen(y, m), y, m + 1);
    }
  }

  lemma {:induction false} DateFromOrder(a: nat, b: nat, y: nat)
    requires a < b
    ensures DateLess(DateFrom(a, y), DateFrom(b, y))
    decreases a
  {
    if b < DaysLeft(y, 1) {
      MonthFromOrder(a, b, y, 1);
    } else if a >= DaysLeft(y, 1) {
      assert DaysLeft(y, 1) > 0;
      DateFromOrder(a - DaysLeft(y, 1), b - DaysLeft(y, 1), y + 1);
    }
  }

  // ------------------------------------------------------------------ rendering

  function Digit(n: nat): (c: char)
    requires n < 10
    ensures '0' <= c <= '9'
  {
    '0' + n as char
  }

  /** The last `w` decimal digits of `n`. */
  function Digits(n: nat, w: nat): (s: string)
    ensures |s| == w && forall i :: 0 <= i < w ==> '0' <= s[i] <= '9'
  {
    if w == 0 then "" else Digits(n / 10, w - 1) + [Digit(n % 10)]
  }

  function DateText(d: Date): (s: string)
    ensures |s| == 10
  {
    Digits(d.y, 4) + ("-" + (Digits(d.m, 2) + ("-" + Digits(d.d, 2))))
  }

  /** The time of day in seconds, as `hh:mm:ss`. */
  function TimeText(sec: nat): (s: string)
    requires sec < 86400
    ensures |s| == 8
  {
    Digits(sec / 3600, 2) + (":" + (Digits(sec / 60 % 60, 2) + (":" + Digits(sec % 60, 2))))
  }

  /** No fraction, or three, six or nine digits: the fewest that lose nothing. */
  function Fraction(nanos: nat): string {
    if nanos == 0 then ""
    else if nanos % 1_000_000 == 0 then "." + Digits(nanos / 1_000_000, 3)
    else if nanos % 1000 == 0 then "." + Digits(nanos / 1000, 6)
    else "." + Digits(nanos, 9)
  }

  const UTC: string := "+00:00"

  function DateOf(t: Instant): Date {
    DateFrom(t / SECOND / 86400, 0)
  }

  /** `to_rfc3339`. */
  function Render(t: Instant): string {
    DateText(DateOf(t)) + ("T" + (TimeText(t / SECOND % 86400) + (Fraction(t % SECOND) + UTC)))
  }

  /** Years are rendered with four digits up to 9999. */
  predicate FourDigitYear(t: Instant) {
    DateOf(t).y < 10000
  }

  // ------------------------------------------------------------------ text order of the parts

  /** Text with heads of equal length is ordered by the heads, then by the rest. */
  lemma {:induction false} LessConcat(a: string, b: string, x: string, y: string)
    requires |a| == |b|
    ensures Less(a + x, b + y) <==> Less(a, b) || (a == b && Less(x, y))
  {
    if a == [] {
      assert a + x == x && b + y == y;
    } else {
      assert (a + x)[0] == a[0] && (a + x)[1..] == a[1..] + x;
      assert (b + y)[0] == b[0] && (b + y)[1..] == b[1..] + y;
      LessConcat(a[1..], b[1..], x, y);
      assert a == [a[0]] + a[1..] && b == [b[0]] + b[1..];
    }
  }

  lemma LessAfter(a: string, x: string, y: string)
    ensures Less(a + x, a + y) <==> Less(x, y)
  {
    LessConcat(a, a, x, y);
    LessIrreflexive(a);
  }

  function Pow10(w: nat): nat {
    if w == 0 then 1 else 10 * Pow10(w - 1)
  }

  /** Numbers rendered with the same width sort as text by value. */
  lemma {:induction false} DigitsOrder(n: nat, m: nat, w: nat)
    requires n < m < Pow10(w)
    ensures Less(Digits(n, w), Digits(m, w))
  {
    if w > 0 {
      var a, b := Digits(n / 10, w - 1), Digits(m / 10, w - 1);
      LessConcat(a, b, [Digit(n % 10)], [Digit(m % 10)]);
      if n / 10 < m / 10 {
        DigitsOrder(n / 10, m / 10, w - 1);
      }
    }
  }

  lemma Pow10Values()
    ensures Pow10(2) == 100 && Pow10(3) == 1000 && Pow10(4) == 10000 && Pow10(9) == SECOND
  {
    assert Pow10(6) == 1_000_000 by { assert Pow10(3) == 1000; }
  }

  /** Three parts with separators: the first two of fixed length. */
  lemma LessThree(a: string, b: string, c: string, x: string, y: string, z: string, sep: string)
    requires |a| == |x| && |b| == |y|
    requires Less(a, x) || (a == x && (Less(b, y) || (b == y && Less(c, z))))
    ensures Less(a + (sep + (b + (sep + c))), x + (sep + (y + (sep + z))))
  {
    hide Less;
    LessAfter(sep, c, z);
    LessConcat(b, y, sep + c, sep + z);
    LessAfter(sep, b + (sep + c), y + (sep + z));
    LessConcat(a, x, sep + (b + (sep + c)), sep + (y + (sep + z)));
  }

  lemma FieldsOrder(h: nat, m: nat, s: nat, h': nat, m': nat, s': nat, w: nat)
    requires h < h' < Pow10(w) || (h == h' && (m < m' < 100 || (m == m' && s < s' < 100)))
    ensures var a, b := Digits(h, w), Digits(h', w);
            Less(a, b) || (a == b && (Less(Digits(m, 2), Digits(m', 2)) || (m == m' && Less(Digits(s, 2), Digits(s', 2)))))
  {
    hide Less, Digits;
    Pow10Values();
    if h < h' {
      DigitsOrder(h, h', w);
    } else if m < m' {
      DigitsOrder(m, m', 2);
    } else {
      DigitsOrder(s, s', 2);
    }
  }

  lemma DateTextOrder(a: Date, b: Date)
    requires DateLess(a, b) && b.y < 10000 && b.m < 100 && b.d < 100
    ensures Less(DateText(a), DateText(b))
  {
    hide Less, Digits;
    Pow10Values();
    FieldsOrder(a.y, a.m, a.d, b.y, b.m, b.d, 4);
    LessThree(Digits(a.y, 4), Digits(a.m, 2), Digits(a.d, 2), Digits(b.y, 4), Digits(b.m, 2), Digits(b.d, 2), "-");
  }

  lemma TimeFieldsOrder(a: nat, b: nat)
    requires a < b < 86400
    ensures a / 3600 < b / 3600 || (a / 3600 == b / 3600 &&
              (a / 60 % 60 < b / 60 % 60 || (a / 60 % 60 == b / 60 % 60 && a % 60 < b % 60)))
    ensures b / 3600 < 100
  {
    assert a / 3600 == a / 60 / 60 && b / 3600 == b / 60 / 60;
  }

  lemma TimeTextOrder(a: nat, b: nat)
    requires a < b < 86400
    ensures Less(TimeText(a), TimeText(b))
  {
    hide Less, Digits;
    Pow10Values();
    TimeFieldsOrder(a, b);
    var h, m, s, h', m', s' := a / 3600, a / 60 % 60, a % 60, b / 3600, b / 60 % 60, b % 60;
    FieldsOrder(h, m, s, h', m', s', 2);
    LessThree(Digits(h, 2), Digits(m, 2), Digits(s, 2), Digits(h', 2), Digits(m', 2), Digits(s', 2), ":");
  }

  // ------------------------------------------------------------------ fractions of different lengths

  predicate AllDigits(s: string) {
    forall i :: 0 <= i < |s| ==> '0' <= s[i] <= '9'
  }

  predicate AllZeros(s: string) {
    forall i :: 0 <= i < |s| ==> s[i] == '0'
  }

  lemma {:induction false} NothingBelowZeros(a: string, b: string)
    requires |a| == |b| && AllDigits(a) && AllZeros(b)
    ensures !Less(a, b)
  {
    if a != [] {
      NothingBelowZeros(a[1..], b[1..]);
    }
  }

  /** Trailing zeros may be cut: what follows sorts before every digit. */
  lemma {:induction false} CutOrder(a: string, b: string, ka: nat, kb: nat)
    requires |a| == |b| && ka <= |a| && kb <= |b|
    requires AllDigits(a) && AllDigits(b) && AllZeros(a[ka..]) && AllZeros(b[kb..])
    requires Less(a, b)
    ensures Less(a[..ka] + UTC, b[..kb] + UTC)
  {
    if kb == 0 {
      NothingBelowZeros(a, b);
    } else if ka == 0 {
      assert a[..0] + UTC == UTC && (b[..kb] + UTC)[0] == b[0];
    } else {
      var x, y := a[..ka] + UTC, b[..kb] + UTC;
      assert x[0] == a[0] && x[1..] == a[1..][..ka - 1] + UTC;
      assert y[0] == b[0] && y[1..] == b[1..][..kb - 1] + UTC;
      if a[0] == b[0] {
        assert a[1..][ka - 1..] == a[ka..] && b[1..][kb - 1..] == b[kb..];
        CutOrder(a[1..], b[1..], ka - 1, kb - 1);
      }
    }
  }

  lemma DigitsStep(n: nat, w: nat)
    ensures Digits(n, w + 1) == Digits(n / 10, w) + [Digit(n % 10)]
  {
  }

  lemma LastThree(n: nat, w: nat)
    ensures Digits(n, w + 3) == Digits(n / 1000, w) + [Digit(n / 100 % 10), Digit(n / 10 % 10), Digit(n % 10)]
  {
    hide Digits;
    DigitsStep(n, w + 2);
    DigitsStep(n / 10, w + 1);
    DigitsStep(n / 10 / 10, w);
    assert n / 10 / 10 == n / 100 && n / 100 / 10 == n / 1000;
    var d := Digits(n / 1000, w);
    var x, y, z := Digit(n / 100 % 10), Digit(n / 10 % 10), Digit(n % 10);
    assert d + [x] + [y] + [z] == d + [x, y, z];
  }

  lemma SameDigits(n: nat)
    ensures var r := n % 1000;
            r / 1000 == 0 && r / 100 % 10 == n / 100 % 10 && r / 10 % 10 == n / 10 % 10 && r % 10 == n % 10
  {
    var q, r := n / 1000, n % 1000;
    assert n / 100 == 10 * q + r / 100;
    LastDigit(q, r / 100);
    assert n / 10 == 10 * (10 * q) + r / 10;
    LastDigit(10 * q, r / 10);
    assert n == 10 * (100 * q) + r;
    LastDigit(100 * q, r);
  }

  lemma LastDigit(q: nat, t: nat)
    ensures (10 * q + t) % 10 == t % 10
  {
  }

  lemma DigitsSplit(n: nat, w: nat)
    ensures Digits(n, w + 3) == Digits(n / 1000, w) + Digits(n % 1000, 3)
  {
    hide Digits;
    LastThree(n, w);
    LastThree(n % 1000, 0);
    SameDigits(n);
    assert Digits(0, 0) == "";
  }

  /** How many digits a fraction is rendered with. */
  function Width(nanos: nat): nat {
    if nanos == 0 then 0 else if nanos % 1_000_000 == 0 then 3 else if nanos % 1000 == 0 then 6 else 9
  }

  /** A rendered fraction is the nine-digit one with its trailing zeros cut. */
  lemma FractionIsCut(nanos: nat)
    requires nanos < SECOND
    ensures var all := Digits(nanos, 9);
            && AllZeros(all[Width(nanos)..])
            && Fraction(nanos) == if nanos == 0 then "" else "." + all[..Width(nanos)]
  {
    hide Digits;
    var all := Digits(nanos, 9);
    DigitsSplit(nanos, 6);
    DigitsSplit(nanos / 1000, 3);
    ZeroDigits();
    assert nanos / 1000 / 1000 == nanos / 1_000_000;
    var high, middle, low := Digits(nanos / 1_000_000, 3), Digits(nanos / 1000 % 1000, 3), Digits(nanos % 1000, 3);
    assert all == high + middle + low;
    if nanos % 1_000_000 == 0 {
      assert nanos % 1000 == 0 && nanos / 1000 % 1000 == 0;
      assert all[..3] == high;
    } else if nanos % 1000 == 0 {
      assert all[..6] == Digits(nanos / 1000, 6);
    } else {
      assert all[..9] == all;
    }
  }

  lemma ZeroDigits()
    ensures Digits(0, 3) == "000"
  {
    assert Digits(0, 1) == "0";
    assert Digits(0, 2) == "00";
  }

  /** Fractions sort by value although their lengths differ: the zone's `+` sorts before `.` and before every digit. */
  lemma FractionOrder(a: nat, b: nat)
    requires a < b < SECOND
    ensures Less(Fraction(a) + UTC, Fraction(b) + UTC)
  {
    hide Digits, Pow10;
    Pow10Values();
    FractionIsCut(a);
    FractionIsCut(b);
    var x, y := Digits(a, 9), Digits(b, 9);
    if a == 0 {
      assert Fraction(a) + UTC == UTC;
      assert (Fraction(b) + UTC)[0] == '.';
    } else {
      DigitsOrder(a, b, 9);
      CutOrder(x, y, Width(a), Width(b));
      LessAfter(".", x[..Width(a)] + UTC, y[..Width(b)] + UTC);
      assert Fraction(a) + UTC == "." + (x[..Width(a)] + UTC);
      assert Fraction(b) + UTC == "." + (y[..Width(b)] + UTC);
    }
  }

  // ------------------------------------------------------------------ the main result

  lemma EarlierIsLess(a: Instant, b: Instant)
    requires a < b && FourDigitYear(b)
    ensures Less(Render(a), Render(b))
  {
    hide Less, DateText, TimeText, Fraction, DateFrom;
    var sa, sb := a / SECOND, b / SECOND;
    var da, db := DateOf(a), DateOf(b);
    var ta, tb := TimeText(sa % 86400), TimeText(sb % 86400);
    var fa, fb := Fraction(a % SECOND) + UTC, Fraction(b % SECOND) + UTC;
    LessConcat(DateText(da), DateText(db), "T" + (ta + fa), "T" + (tb + fb));
    if sa / 86400 < sb / 86400 {
      DateFromOrder(sa / 86400, sb / 86400, 0);
      DateTextOrder(da, db);
    } else {
      assert sa / 86400 == sb / 86400;
      LessAfter("T", ta + fa, tb + fb);
      LessConcat(ta, tb, fa, fb);
      if sa < sb {
        TimeTextOrder(sa % 86400, sb % 86400);
      } else {
        assert sa == sb;
        FractionOrder(a % SECOND, b % SECOND);
      }
    }
  }

  lemma LessAsymmetric(a: string, b: string)
    requires Less(a, b)
    ensures !Less(b, a)
  {
  }

  /** Comparing stored timestamps as text is comparing the instants, whatever fractions they were rendered with. */
  lemma TextOrderIsTimeOrder(a: Instant, b: Instant)
    requires FourDigitYear(a) && FourDigitYear(b)
    ensures Less(Render(a), Render(b)) <==> a < b
    ensures Render(a) == Render(b) <==> a == b
  {
    hide Less, Render, FourDigitYear;
    LessIrreflexive(Render(a));
    if a < b {
      EarlierIsLess(a, b);
    } else if b < a {
      EarlierIsLess(b, a);
      LessAsymmetric(Render(b), Render(a));
    }
  }

  // ------------------------------------------------------------------ reading a timestamp back

  /** The leap years before year `y`. */
  function LeapsBefore(y: nat): int {
    (y + 3) / 4 - (y + 99) / 100 + (y + 399) / 400
  }

  /** The days of a year before month `m`, as a table. */
  function DaysBeforeMonth(y: nat, m: nat): nat
    requires 1 <= m <= 12
  {
    [0, 31, 59, 90, 120, 151, 181, 212, 243, 273, 304, 334][m - 1] + if m > 2 && IsLeap(y) then 1 else 0
  }

  /** The days from the start of year 0 to a date, in closed form. */
  function DayNumber(d: Date): int
    requires 1 <= d.m <= 12
  {
    365 * d.y + LeapsBefore(d.y) + DaysBeforeMonth(d.y, d.m) + d.d - 1
  }

  lemma NextMonth(y: nat, m: nat)
    requires 1 <= m < 12
    ensures DaysBeforeMonth(y, m + 1) == DaysBeforeMonth(y, m) + MonthLen(y, m)
  {
  }

  lemma LeapHundreds(y: nat)
    ensures LeapsBefore(y + 1) == LeapsBefore(y) + if IsLeap(y) then 1 else 0
  {
    assert (y + 4) / 4 == (y + 3) / 4 + if y % 4 == 0 then 1 else 0;
    assert (y + 100) / 100 == (y + 99) / 100 + if y % 100 == 0 then 1 else 0;
    assert (y + 400) / 400 == (y + 399) / 400 + if y % 400 == 0 then 1 else 0;
  }

  lemma YearLength(y: nat)
    ensures DaysLeft(y, 1) == if IsLeap(y) then 366 else 365
  {
    hide IsLeap;
    assert DaysLeft(y, 11) == 61;
    assert DaysLeft(y, 9) == 122;
    assert DaysLeft(y, 7) == 184;
    assert DaysLeft(y, 5) == 245;
    assert DaysLeft(y, 3) == 306;
  }

  lemma {:induction false} MonthIsRight(day: nat, y: nat, m: nat)
    requires 1 <= m <= 12 && day < DaysLeft(y, m)
    ensures var d := MonthFrom(day, y, m);
            d.d <= MonthLen(y, d.m) && DaysBeforeMonth(y, d.m) + d.d - 1 == DaysBeforeMonth(y, m) + day
    decreases 13 - m
  {
    hide MonthLen, DaysBeforeMonth;
    if day >= MonthLen(y, m) {
      if m < 12 {
        NextMonth(y, m);
        MonthIsRight(day - MonthLen(y, m), y, m + 1);
      }
    }
  }

  /** The calendar is right: the date of a day is a real one, and as many days after the start of year 0 as the day says. */
  lemma {:induction false} DateIsRight(day: nat, y: nat)
    ensures var d := DateFrom(day, y);
            1 <= d.d <= MonthLen(d.y, d.m) && DayNumber(d) == 365 * y + LeapsBefore(y) + day
    decreases day
  {
    hide LeapsBefore, IsLeap, MonthLen;
    YearLength(y);
    if day < DaysLeft(y, 1) {
      MonthIsRight(day, y, 1);
    } else {
      LeapHundreds(y);
      DateIsRight(day - DaysLeft(y, 1), y + 1);
    }
  }

  lemma {:induction false} DigitsRead(n: nat, w: nat)
    requires n < Pow10(w)
    ensures ValueOf(Digits(n, w)) == n
  {
    if w > 0 {
      DigitsRead(n / 10, w - 1);
      var s := Digits(n, w);
      assert s[..|s| - 1] == Digits(n / 10, w - 1);
    }
  }

  /** The date in the first ten characters of a timestamp. */
  function DateIn(s: string): Date
    requires |s| >= 10
  {
    Date(ValueOf(s[..4]), ValueOf(s[5..7]), ValueOf(s[8..10]))
  }

  /** The seconds of the day in the eight characters after the `T`. */
  function SecondsIn(s: string): nat
    requires |s| >= 19
  {
    3600 * ValueOf(s[11..13]) + 60 * ValueOf(s[14..16]) + ValueOf(s[17..19])
  }

  /** The punctuation of RFC 3339, in UTC. */
  predicate Punctuated(s: string) {
    |s| >= 25 && s[4] == '-' && s[7] == '-' && s[10] == 'T' && s[13] == ':' && s[16] == ':' && s[|s| - 6..] == "+00:00"
  }

  /** The nanoseconds that a fraction of three, six or nine digits stands for. */
  ghost predicate Fractional(f: string, nanos: nat) {
    if nanos == 0 then f == ""
    else
      && |f| == (if nanos % 1_000_000 == 0 then 4 else if nanos % 1000 == 0 then 7 else 10)
      && f[0] == '.' && ValueOf(f[1..]) * (if |f| == 4 then 1_000_000 else if |f| == 7 then 1000 else 1) == nanos
  }

  lemma FractionReads(nanos: nat)
    requires nanos < SECOND
    ensures Fractional(Fraction(nanos), nanos)
  {
    hide Digits, Pow10;
    Pow10Values();
    MorePow10Values();
    if nanos == 0 {
    } else if nanos % 1_000_000 == 0 {
      DigitsRead(nanos / 1_000_000, 3);
      assert Fraction(nanos)[1..] == Digits(nanos / 1_000_000, 3);
    } else if nanos % 1000 == 0 {
      DigitsRead(nanos / 1000, 6);
      assert Fraction(nanos)[1..] == Digits(nanos / 1000, 6);
    } else {
      DigitsRead(nanos, 9);
      assert Fraction(nanos)[1..] == Digits(nanos, 9);
    }
  }

  lemma MorePow10Values()
    ensures Pow10(6) == 1_000_000
  {
    assert Pow10(3) == 1000;
  }

  lemma DateTextReads(d: Date, rest: string)
    requires d.y < 10000 && d.m < 100 && d.d < 100
    ensures var s := DateText(d) + rest;
            s[4] == '-' && s[7] == '-' && DateIn(s) == d && s[10..] == rest
  {
    hide Digits, Pow10;
    Pow10Values();
    DigitsRead(d.y, 4);
    DigitsRead(d.m, 2);
    DigitsRead(d.d, 2);
    var s := DateText(d) + rest;
    assert s[..4] == Digits(d.y, 4) && s[5..7] == Digits(d.m, 2) && s[8..10] == Digits(d.d, 2);
  }

  lemma Sixties(sec: nat)
    ensures 3600 * (sec / 3600) + 60 * (sec / 60 % 60) + sec % 60 == sec
    ensures sec / 60 % 60 < 60 && sec % 60 < 60
  {
    assert sec / 3600 == sec / 60 / 60;
  }

  lemma Colons(h: string, m: string, s: string)
    requires |h| == |m| == |s| == 2
    ensures var text := h + (":" + (m + (":" + s)));
            text[2] == ':' && text[5] == ':' && text[..2] == h && text[3..5] == m && text[6..8] == s
  {
  }

  lemma TimeTextReads(sec: nat)
    requires sec < 86400
    ensures var s := TimeText(sec);
            s[2] == ':' && s[5] == ':' && 3600 * ValueOf(s[..2]) + 60 * ValueOf(s[3..5]) + ValueOf(s[6..8]) == sec
  {
    hide Digits, Pow10, ValueOf;
    Pow10Values();
    Sixties(sec);
    DigitsRead(sec / 3600, 2);
    DigitsRead(sec / 60 % 60, 2);
    DigitsRead(sec % 60, 2);
    Colons(Digits(sec / 3600, 2), Digits(sec / 60 % 60, 2), Digits(sec % 60, 2));
  }

  lemma AfterDate(head: string, time: string, tail: string)
    requires |head| == 10 && |time| == 8 && |tail| >= 6
    ensures var s := head + ("T" + (time + tail));
            && |s| == 19 + |tail| && s[10] == 'T' && s[11..13] == time[..2] && s[14..16] == time[3..5] && s[17..19] == time[6..8]
            && s[13] == time[2] && s[16] == time[5] && s[19..|s| - 6] == tail[..|tail| - 6] && s[|s| - 6..] == tail[|tail| - 6..]
  {
  }

  /** A rendered timestamp reads, in the format of RFC 3339, as its instant: a real date of the right day, the time of that
      day, and the fraction of the second in as few digits as lose nothing. */
  lemma RenderReads(t: Instant)
    requires FourDigitYear(t)
    ensures var s := Render(t);
            && Punctuated(s)
            && var d := DateIn(s);
            && 1 <= d.m <= 12 && 1 <= d.d <= MonthLen(d.y, d.m)
            && DayNumber(d) * 86400 + SecondsIn(s) == t / SECOND
            && Fractional(s[19..|s| - 6], t % SECOND)
  {
    hide Digits, DateFrom, MonthLen, DayNumber, LeapsBefore, DateText, TimeText, Fraction, Fractional;
    var seconds := t / SECOND;
    DateIsRight(seconds / 86400, 0);
    StartOfCalendar();
    var d, time, fraction := DateOf(t), TimeText(seconds % 86400), Fraction(t % SECOND);
    DateTextReads(d, "T" + (time + (fraction + UTC)));
    TimeTextReads(seconds % 86400);
    FractionReads(t % SECOND);
    AfterDate(DateText(d), time, fraction + UTC);
    assert (fraction + UTC)[..|fraction + UTC| - 6] == fraction;
    assert (fraction + UTC)[|fraction + UTC| - 6..] == "+00:00";
  }

  lemma StartOfCalendar()
    ensures LeapsBefore(0) == 0
  {
  }
}
