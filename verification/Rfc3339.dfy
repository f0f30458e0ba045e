/**
 UTC date-times and the RFC 3339 text the event store keeps them as.  SQLite
 compares that text byte by byte, so this module relates the order of the texts
 to the order of the instants.
 */
module Rfc3339 {

  const NANOS_PER_SECOND: nat := 1_000_000_000

  datatype UtcDateTime = UtcDateTime(
    year: nat, month: nat, day: nat, hour: nat, minute: nat, second: nat, nanosecond: nat)
  {
    predicate Valid() {
      && year <= 9999 && 1 <= month <= 12 && 1 <= day <= DaysInMonth(year, month)
      && hour < 24 && minute < 60 && second < 60 && nanosecond < NANOS_PER_SECOND
    }

    /** Whole seconds since the start of year 0. */
    function Seconds(): int
      requires month <= 12
    {
      86400 * (DaysBeforeYear(year) + DaysBeforeMonth(year, month) + day)
      + 3600 * hour + 60 * minute + second
    }

    function Instant(): int
      requires month <= 12
    {
      NANOS_PER_SECOND * Seconds() + nanosecond
    }
  }

  type DateTime = d: UtcDateTime | d.Valid() witness UtcDateTime(1970, 1, 1, 0, 0, 0, 0)

  predicate IsLeapYear(year: nat) {
    year % 4 == 0 && (year % 100 != 0 || year % 400 == 0)
  }

  function DaysInMonth(year: nat, month: nat): nat {
    if month == 2 then (if IsLeapYear(year) then 29 else 28)
    else if month in {4, 6, 9, 11} then 30
    else 31
  }

  function DaysBeforeMonth(year: nat, month: nat): nat {
    if month <= 1 then 0 else DaysBeforeMonth(year, month - 1) + DaysInMonth(year, month - 1)
  }

  function DaysBeforeYear(year: nat): nat {
    if year == 0 then 0
    else DaysBeforeYear(year - 1) + (if IsLeapYear(year - 1) then 366 else 365)
  }

  // --- the text ---

  function DigitChar(n: nat): char
    requires n < 10
  {
    '0' + n as char
  }

  /** `n` in exactly `width` decimal digits. */
  function Digits(n: nat, width: nat): (r: string)
    ensures |r| == width
    ensures forall i :: 0 <= i < |r| ==> '0' <= r[i] <= '9'
  {
    if width == 0 then [] else Digits(n / 10, width - 1) + [DigitChar(n % 10)]
  }

  function TrimZeros(s: string): string {
    if s != [] && s[|s| - 1] == '0' then TrimZeros(s[..|s| - 1]) else s
  }

  /** The digits after the decimal point; none for a whole second. */
  function FractionDigits(d: DateTime): string {
    TrimZeros(Digits(d.nanosecond, 9))
  }

  function FractionAndZone(fraction: string): string {
    (if fraction == [] then [] else "." + fraction) + "Z"
  }

  function ToRfc3339(d: DateTime): string {
    Digits(d.year, 4) + ("-" + (Digits(d.month, 2) + ("-" + (Digits(d.day, 2) + ("T" +
    (Digits(d.hour, 2) + (":" + (Digits(d.minute, 2) + (":" + (Digits(d.second, 2) +
    FractionAndZone(FractionDigits(d))))))))))))
  }

  /** Byte-wise order of ASCII texts, a proper prefix coming first. */
  predicate TextLess(a: string, b: string) {
    b != [] && (a == [] || a[0] < b[0] || (a[0] == b[0] && TextLess(a[1..], b[1..])))
  }

  // --- comparing concatenations ---

  lemma {:induction false} CommonPrefix(p: string, a: string, b: string)
    ensures TextLess(p + a, p + b) <==> TextLess(a, b)
  {
    if p == [] {
      assert p + a == a && p + b == b;
    } else {
      assert (p + a)[1..] == p[1..] + a && (p + b)[1..] == p[1..] + b;
      CommonPrefix(p[1..], a, b);
    }
  }

  lemma {:induction false} DifferentPrefix(p: string, q: string, a: string, b: string)
    requires |p| == |q| && p != q
    ensures TextLess(p + a, q + b) <==> TextLess(p, q)
  {
    assert p == [p[0]] + p[1..] && q == [q[0]] + q[1..];
    assert (p + a)[1..] == p[1..] + a && (q + b)[1..] == q[1..] + b;
    if p[0] == q[0] {
      DifferentPrefix(p[1..], q[1..], a, b);
    }
  }

  lemma {:induction false} TextLessIsTotal(a: string, b: string)
    ensures TextLess(a, b) || TextLess(b, a) || a == b
    ensures !(TextLess(a, b) && TextLess(b, a))
    ensures TextLess(a, b) ==> a != b
  {
    if a != [] && b != [] && a[0] == b[0] {
      TextLessIsTotal(a[1..], b[1..]);
      assert a == [a[0]] + a[1..] && b == [b[0]] + b[1..];
    }
  }

  lemma {:induction false} TextLessIsTransitive(a: string, b: string, c: string)
    requires TextLess(a, b) && TextLess(b, c)
    ensures TextLess(a, c)
  {
    if a != [] && a[0] == b[0] && b[0] == c[0] {
      TextLessIsTransitive(a[1..], b[1..], c[1..]);
    }
  }

  function Pow10(w: nat): nat {
    if w == 0 then 1 else 10 * Pow10(w - 1)
  }

  lemma {:induction false} DigitsOrder(n: nat, m: nat, w: nat)
    requires n < Pow10(w) && m < Pow10(w)
    ensures TextLess(Digits(n, w), Digits(m, w)) <==> n < m
    ensures Digits(n, w) == Digits(m, w) <==> n == m
  {
    if w > 0 {
      var p, q := Digits(n / 10, w - 1), Digits(m / 10, w - 1);
      var a, b := [DigitChar(n % 10)], [DigitChar(m % 10)];
      DigitsOrder(n / 10, m / 10, w - 1);
      assert (p + a)[..w - 1] == p && (q + b)[..w - 1] == q && (p + a)[w - 1] == a[0] && (q + b)[w - 1] == b[0];
      if p == q {
        CommonPrefix(p, a, b);
      } else {
        DifferentPrefix(p, q, a, b);
      }
    }
  }

  /** A fixed-width number, then the rest. */
  lemma FieldOrder(n: nat, m: nat, w: nat, a: string, b: string)
    requires n < Pow10(w) && m < Pow10(w)
    ensures TextLess(Digits(n, w) + a, Digits(m, w) + b) <==> n < m || (n == m && TextLess(a, b))
  {
    DigitsOrder(n, m, w);
    if n == m {
      CommonPrefix(Digits(n, w), a, b);
    } else {
      DifferentPrefix(Digits(n, w), Digits(m, w), a, b);
    }
  }

  /** A separator, then a two-digit number, then the rest. */
  lemma SeparatedFieldOrder(sep: string, n: nat, m: nat, a: string, b: string)
    requires |sep| == 1 && n < 100 && m < 100
    ensures TextLess(sep + (Digits(n, 2) + a), sep + (Digits(m, 2) + b))
       <==> n < m || (n == m && TextLess(a, b))
  {
    CommonPrefix(sep, Digits(n, 2) + a, Digits(m, 2) + b);
    assert Pow10(2) == 100;
    FieldOrder(n, m, 2, a, b);
  }

  /** Calendar fields compared from the largest unit down. */
  predicate FieldsLess(a: DateTime, b: DateTime) {
    a.year < b.year || (a.year == b.year && (
    a.month < b.month || (a.month == b.month && (
    a.day < b.day || (a.day == b.day && (
    a.hour < b.hour || (a.hour == b.hour && (
    a.minute < b.minute || (a.minute == b.minute &&
    a.second < b.second)))))))))
  }

  predicate SameFields(a: DateTime, b: DateTime) {
    a.(nanosecond := 0) == b.(nanosecond := 0)
  }

  lemma TextOrderIsFieldOrder(a: DateTime, b: DateTime)
    ensures TextLess(ToRfc3339(a), ToRfc3339(b))
       <==> FieldsLess(a, b)
            || (SameFields(a, b)
                && TextLess(FractionAndZone(FractionDigits(a)), FractionAndZone(FractionDigits(b))))
  {
    var za, zb := FractionAndZone(FractionDigits(a)), FractionAndZone(FractionDigits(b));
    var sa, sb := ":" + (Digits(a.second, 2) + za), ":" + (Digits(b.second, 2) + zb);
    SeparatedFieldOrder(":", a.second, b.second, za, zb);
    var ma, mb := ":" + (Digits(a.minute, 2) + sa), ":" + (Digits(b.minute, 2) + sb);
    SeparatedFieldOrder(":", a.minute, b.minute, sa, sb);
    var ha, hb := "T" + (Digits(a.hour, 2) + ma), "T" + (Digits(b.hour, 2) + mb);
    SeparatedFieldOrder("T", a.hour, b.hour, ma, mb);
    var da, db := "-" + (Digits(a.day, 2) + ha), "-" + (Digits(b.day, 2) + hb);
    SeparatedFieldOrder("-", a.day, b.day, ha, hb);
    var oa, ob := "-" + (Digits(a.month, 2) + da), "-" + (Digits(b.month, 2) + db);
    SeparatedFieldOrder("-", a.month, b.month, da, db);
    assert Pow10(4) == 10000;
    FieldOrder(a.year, b.year, 4, oa, ob);
  }

  // --- the calendar is monotone ---

  lemma {:induction false} MonthFits(year: nat, m1: nat, m2: nat)
    requires 1 <= m1 < m2
    ensures DaysBeforeMonth(year, m1) + DaysInMonth(year, m1) <= DaysBeforeMonth(year, m2)
  {
    if m1 + 1 < m2 {
      MonthFits(year, m1, m2 - 1);
    }
  }

  lemma {:induction false} YearFits(y1: nat, y2: nat)
    requires y1 < y2
    ensures DaysBeforeYear(y1) + (if IsLeapYear(y1) then 366 else 365) <= DaysBeforeYear(y2)
  {
    if y1 + 1 < y2 {
      YearFits(y1, y2 - 1);
    }
  }

  lemma {:induction false} MonthsFillTheYear(year: nat)
    ensures DaysBeforeMonth(year, 13) == if IsLeapYear(year) then 366 else 365
  {
    assert DaysBeforeMonth(year, 2) == DaysBeforeMonth(year, 1) + 31;
    assert DaysBeforeMonth(year, 3) == 31 + DaysInMonth(year, 2);
    assert DaysBeforeMonth(year, 5) == DaysBeforeMonth(year, 3) + 61;
    assert DaysBeforeMonth(year, 7) == DaysBeforeMonth(year, 5) + 61;
    assert DaysBeforeMonth(year, 9) == DaysBeforeMonth(year, 7) + 62;
    assert DaysBeforeMonth(year, 11) == DaysBeforeMonth(year, 9) + 61;
    assert DaysBeforeMonth(year, 13) == DaysBeforeMonth(year, 11) + 61;
  }

  function DayNumber(d: DateTime): int {
    DaysBeforeYear(d.year) + DaysBeforeMonth(d.year, d.month) + d.day
  }

  lemma DaysIncrease(a: DateTime, b: DateTime)
    requires a.year < b.year || (a.year == b.year && (a.month < b.month || (a.month == b.month && a.day < b.day)))
    ensures DayNumber(a) + 1 <= DayNumber(b)
  {
    if a.year < b.year {
      YearFits(a.year, b.year);
      MonthFits(a.year, a.month, 13);
      MonthsFillTheYear(a.year);
    } else if a.month < b.month {
      MonthFits(a.year, a.month, b.month);
    }
  }

  lemma FieldsLessIsEarlier(a: DateTime, b: DateTime)
    requires FieldsLess(a, b)
    ensures a.Seconds() < b.Seconds()
  {
    assert a.Seconds() == 86400 * DayNumber(a) + 3600 * a.hour + 60 * a.minute + a.second;
    assert b.Seconds() == 86400 * DayNumber(b) + 3600 * b.hour + 60 * b.minute + b.second;
    if a.year != b.year || a.month != b.month || a.day != b.day {
      DaysIncrease(a, b);
    }
  }

  lemma SecondsDecideFields(a: DateTime, b: DateTime)
    ensures a.Seconds() < b.Seconds() <==> FieldsLess(a, b)
    ensures a.Seconds() == b.Seconds() <==> SameFields(a, b)
  {
    if FieldsLess(a, b) {
      FieldsLessIsEarlier(a, b);
    } else if FieldsLess(b, a) {
      FieldsLessIsEarlier(b, a);
    }
  }

  // --- fractions of one second ---

  predicate Trimmed(s: string) {
    && (forall i :: 0 <= i < |s| ==> '0' <= s[i] <= '9')
    && (s != [] ==> s[|s| - 1] != '0')
  }

  function Zeros(n: nat): (r: string)
    ensures |r| == n
  {
    if n == 0 then [] else ['0'] + Zeros(n - 1)
  }

  lemma {:induction false} TrimKeepsTheValue(s: string)
    requires forall i :: 0 <= i < |s| ==> '0' <= s[i] <= '9'
    ensures Trimmed(TrimZeros(s)) && |TrimZeros(s)| <= |s|
    ensures s == TrimZeros(s) + Zeros(|s| - |TrimZeros(s)|)
  {
    if s != [] && s[|s| - 1] == '0' {
      var t := s[..|s| - 1];
      TrimKeepsTheValue(t);
      ZerosGrowAtTheEnd(|t| - |TrimZeros(t)|);
      assert s == t + ['0'];
    }
  }

  lemma {:induction false} ZerosGrowAtTheEnd(n: nat)
    ensures Zeros(n) + ['0'] == Zeros(n + 1)
  {
    if n > 0 {
      ZerosGrowAtTheEnd(n - 1);
      assert Zeros(n) + ['0'] == ['0'] + (Zeros(n - 1) + ['0']);
    }
  }

  lemma {:induction false} TrimmedBeatsZeros(y: string, p: nat, q: nat)
    requires Trimmed(y) && y != [] && p == |y| + q
    ensures TextLess(Zeros(p), y + Zeros(q))
  {
    assert (y + Zeros(q))[1..] == y[1..] + Zeros(q);
    if y[0] == '0' {
      TrimmedBeatsZeros(y[1..], p - 1, q);
    }
  }

  lemma {:induction false} PaddingKeepsTheOrder(x: string, p: nat, y: string, q: nat)
    requires Trimmed(x) && Trimmed(y) && |x| + p == |y| + q
    ensures TextLess(x + Zeros(p), y + Zeros(q)) <==> TextLess(x, y)
  {
    if x == [] && y == [] {
      assert x + Zeros(p) == y + Zeros(q);
      TextLessIsTotal(x + Zeros(p), y + Zeros(q));
    } else if x == [] {
      assert x + Zeros(p) == Zeros(p);
      TrimmedBeatsZeros(y, p, q);
    } else if y == [] {
      assert y + Zeros(q) == Zeros(q);
      TrimmedBeatsZeros(x, q, p);
      TextLessIsTotal(x + Zeros(p), Zeros(q));
    } else {
      assert (x + Zeros(p))[1..] == x[1..] + Zeros(p) && (y + Zeros(q))[1..] == y[1..] + Zeros(q);
      PaddingKeepsTheOrder(x[1..], p, y[1..], q);
    }
  }

  lemma NineDigits()
    ensures Pow10(9) == NANOS_PER_SECOND
  {
    assert Pow10(3) == 1000;
    assert Pow10(6) == 1000_000;
  }

  lemma TrimmedDigitsOrder(n: nat, m: nat, w: nat)
    requires n < Pow10(w) && m < Pow10(w)
    ensures Trimmed(TrimZeros(Digits(n, w))) && Trimmed(TrimZeros(Digits(m, w)))
    ensures TextLess(TrimZeros(Digits(n, w)), TrimZeros(Digits(m, w))) <==> n < m
  {
    TrimmedOrder(Digits(n, w), Digits(m, w));
    DigitsOrder(n, m, w);
  }

  lemma TrimmedOrder(f: string, g: string)
    requires |f| == |g|
    requires (forall i :: 0 <= i < |f| ==> '0' <= f[i] <= '9') && (forall i :: 0 <= i < |g| ==> '0' <= g[i] <= '9')
    ensures Trimmed(TrimZeros(f)) && Trimmed(TrimZeros(g))
    ensures TextLess(TrimZeros(f), TrimZeros(g)) <==> TextLess(f, g)
  {
    var x, y := TrimZeros(f), TrimZeros(g);
    TrimKeepsTheValue(f);
    TrimKeepsTheValue(g);
    var p, q := |f| - |x|, |g| - |y|;
    PaddingKeepsTheOrder(x, p, y, q);
    assert f == x + Zeros(p) && g == y + Zeros(q);
  }

  lemma FractionOrder(a: DateTime, b: DateTime)
    ensures Trimmed(FractionDigits(a)) && Trimmed(FractionDigits(b))
    ensures TextLess(FractionDigits(a), FractionDigits(b)) <==> a.nanosecond < b.nanosecond
  {
    NineDigits();
    TrimmedDigitsOrder(a.nanosecond, b.nanosecond, 9);
  }

  /** 'Z' follows every digit and '.': a fraction sorts after its own extensions. */
  lemma {:induction false} ZoneReversesPrefixes(f: string, g: string)
    requires Trimmed(f) && Trimmed(g)
    ensures TextLess(f + "Z", g + "Z") <==> (if f <= g || g <= f then g < f else TextLess(f, g))
  {
    if f == [] {
      assert g != [] ==> (g + "Z")[0] == g[0];
    } else if g == [] {
      assert (f + "Z")[0] == f[0];
    } else {
      assert (f + "Z")[1..] == f[1..] + "Z" && (g + "Z")[1..] == g[1..] + "Z";
      assert f == [f[0]] + f[1..] && g == [g[0]] + g[1..];
      ZoneReversesPrefixes(f[1..], g[1..]);
    }
  }

  lemma PrefixIsLess(f: string, g: string)
    requires f < g
    ensures TextLess(f, g)
  {
    assert g == f + g[|f|..] && f == f + [];
    CommonPrefix(f, [], g[|f|..]);
  }

  lemma TailOrder(f: string, g: string)
    requires Trimmed(f) && Trimmed(g)
    ensures (TextLess(FractionAndZone(f), FractionAndZone(g)) <==> TextLess(f, g))
       <==> !(f < g || g < f)
  {
    var zf, zg := FractionAndZone(f), FractionAndZone(g);
    TextLessIsTotal(f, g);
    if f < g { PrefixIsLess(f, g); }
    if g < f { PrefixIsLess(g, f); }
    if f != [] && g != [] {
      assert zf == "." + (f + "Z") && zg == "." + (g + "Z");
      CommonPrefix(".", f + "Z", g + "Z");
      ZoneReversesPrefixes(f, g);
    }
  }

  // --- the calendar is the Gregorian one ---

  /** 365 days a year and one for every leap year: each fourth, without each hundredth, with each four hundredth. */
  lemma {:induction false} DaysOfYears(year: nat)
    ensures DaysBeforeYear(year) == 365 * year + (year + 3) / 4 - (year + 99) / 100 + (year + 399) / 400
  {
    if year > 0 {
      DaysOfYears(year - 1);
      MultiplesStep(year - 1, 4);
      MultiplesStep(year - 1, 100);
      MultiplesStep(year - 1, 400);
      HundredthsAreFourths(year - 1);
    }
  }

  /** How many multiples of n there are below a number grows by one after each multiple. */
  lemma MultiplesStep(k: nat, n: nat)
    requires n in {4, 100, 400}
    ensures (k + n) / n == (k + n - 1) / n + if k % n == 0 then 1 else 0
  {
  }

  lemma HundredthsAreFourths(year: nat)
    ensures year % 400 == 0 ==> year % 100 == 0
    ensures year % 100 == 0 ==> year % 4 == 0
  {
    FourTimes(year / 400, year / 100);
  }

  lemma FourTimes(a: nat, b: nat)
    ensures 400 * a % 100 == 0 && 100 * b % 4 == 0
  {
  }

  lemma FirstDay1970()
    ensures DaysBeforeYear(1970) + DaysBeforeMonth(1970, 1) + 1 == 719529
  {
    DaysOfYears(1970);
  }

  lemma LastDay1999()
    ensures DaysBeforeYear(1999) + DaysBeforeMonth(1999, 12) + 31 == 730485
  {
    DaysOfYears(1999);
    MonthsFillTheYear(1999);
  }

  lemma LeapDay2000()
    ensures DaysBeforeYear(2000) + DaysBeforeMonth(2000, 2) + 29 == 730545
  {
    DaysOfYears(2000);
    assert DaysBeforeMonth(2000, 2) == DaysBeforeMonth(2000, 1) + DaysInMonth(2000, 1);
  }

  lemma FirstOfMarch(year: nat)
    ensures DaysBeforeMonth(year, 3) == if IsLeapYear(year) then 60 else 59
  {
    assert DaysBeforeMonth(year, 2) == DaysBeforeMonth(year, 1) + DaysInMonth(year, 1);
  }

  lemma FirstOfMarch2024()
    ensures DaysBeforeYear(2024) + DaysBeforeMonth(2024, 3) + 1 == 739312
  {
    DaysOfYears(2024);
    FirstOfMarch(2024);
  }

  lemma FirstOfMarch2100()
    ensures DaysBeforeYear(2100) + DaysBeforeMonth(2100, 3) + 1 == 767070
  {
    DaysOfYears(2100);
    FirstOfMarch(2100);
  }

  lemma InstantOfDay(d: DateTime, day: int)
    requires DaysBeforeYear(d.year) + DaysBeforeMonth(d.year, d.month) + d.day == day
    ensures d.Instant() == 1_000_000_000 * (86400 * day + 3600 * d.hour + 60 * d.minute + d.second) + d.nanosecond
  {
  }

  /** Instants differ as the Unix times of their dates do, leap days included. */
  lemma UnixTimes(epoch: DateTime, lastSecond: DateTime, leapDay: DateTime, march: DateTime, noLeapDay: DateTime)
    requires epoch == UtcDateTime(1970, 1, 1, 0, 0, 0, 0)
    requires lastSecond == UtcDateTime(1999, 12, 31, 23, 59, 58, 7)
    requires leapDay == UtcDateTime(2000, 2, 29, 0, 0, 0, 0)
    requires march == UtcDateTime(2024, 3, 1, 0, 0, 0, 0) && noLeapDay == UtcDateTime(2100, 3, 1, 0, 0, 0, 0)
    ensures lastSecond.Instant() - epoch.Instant() == 946684798_000000007
    ensures leapDay.Instant() - epoch.Instant() == 951782400_000000000
    ensures march.Instant() - epoch.Instant() == 1709251200_000000000
    ensures noLeapDay.Instant() - epoch.Instant() == 4107542400_000000000
  {
    FirstDay1970();
    LastDay1999();
    LeapDay2000();
    FirstOfMarch2024();
    FirstOfMarch2100();
    InstantOfDay(epoch, 719529);
    InstantOfDay(lastSecond, 730485);
    InstantOfDay(leapDay, 730545);
    InstantOfDay(march, 739312);
    InstantOfDay(noLeapDay, 767070);
  }

  // --- main results ---

  /** The i-th of w decimal digits. */
  lemma {:induction false} DigitAt(n: nat, w: nat, i: nat)
    requires i < w
    ensures 0 < Pow10(w - 1 - i) && Digits(n, w)[i] == "0123456789"[n / Pow10(w - 1 - i) % 10]
  {
    PowersArePositive(w - 1 - i);
    if i < w - 1 {
      DigitAt(n / 10, w - 1, i);
      QuotientOfQuotient(n, Pow10(w - 2 - i));
    } else {
      LastDigit(n, w);
    }
  }

  lemma LastDigit(n: nat, w: nat)
    requires 0 < w
    ensures Digits(n, w)[w - 1] == "0123456789"[n % 10]
  {
  }

  lemma {:induction false} PowersArePositive(k: nat)
    ensures 0 < Pow10(k)
  {
    if k > 0 {
      PowersArePositive(k - 1);
    }
  }

  lemma QuotientOfQuotient(n: nat, p: nat)
    requires 0 < p
    ensures n / 10 / p == n / (10 * p)
  {
    var q, r := n / 10, n % 10;
    var a, b := q / p, q % p;
    assert n == 10 * (p * a + b) + r;
    assert 10 * (p * a) == (10 * p) * a;
    DivisionIsUnique(n, 10 * p, a, 10 * b + r);
  }

  lemma DivisionIsUnique(n: nat, d: nat, q: nat, r: nat)
    requires n == d * q + r && r < d
    ensures n / d == q
  {
    var q' := n / d;
    assert d * q' <= n < d * q' + d;
    assert q' < q ==> d * (q' + 1) <= d * q;
    assert q < q' ==> d * (q + 1) <= d * q';
  }

  /** The calendar fields, in four and two digits, stand where RFC 3339 has them; then the fraction and the zone. */
  lemma TextLayout(d: DateTime)
    ensures var text := ToRfc3339(d);
      && |text| >= 20 && text[4] == '-' && text[7] == '-' && text[10] == 'T' && text[13] == ':' && text[16] == ':'
      && text[..4] == Digits(d.year, 4) && text[5..7] == Digits(d.month, 2) && text[8..10] == Digits(d.day, 2)
      && text[11..13] == Digits(d.hour, 2) && text[14..16] == Digits(d.minute, 2) && text[17..19] == Digits(d.second, 2)
      && text[19..] == (if d.nanosecond == 0 then "Z" else "." + FractionDigits(d) + "Z")
  {
    WholeSecondHasNoFraction(d);
    LayoutOf(Digits(d.year, 4), Digits(d.month, 2), Digits(d.day, 2), Digits(d.hour, 2), Digits(d.minute, 2),
             Digits(d.second, 2), FractionAndZone(FractionDigits(d)));
  }

  lemma WholeSecondHasNoFraction(d: DateTime)
    ensures d.nanosecond == 0 <==> FractionDigits(d) == []
  {
    var whole: DateTime := d.(nanosecond := 0);
    ZeroFraction(9);
    FractionOrder(whole, d);
    assert FractionDigits(whole) == [];
    assert d.nanosecond == 0 ==> d == whole;
  }

  lemma FieldComesNext(text: string, at: nat, sep: string, field: string, rest: string)
    requires at <= |text| && |sep| == 1 && |field| == 2 && text[at..] == sep + (field + rest)
    ensures at + 3 <= |text| && text[at] == sep[0] && text[at + 1..at + 3] == field && text[at + 3..] == rest
  {
    assert text[at] == text[at..][0];
    assert text[at + 1..at + 3] == text[at..][1..3];
    assert text[at + 3..] == text[at..][3..];
  }

  lemma LayoutOf(y: string, mo: string, d: string, h: string, mi: string, s: string, z: string)
    requires |y| == 4 && |mo| == |d| == |h| == |mi| == |s| == 2 && z != ""
    ensures var text := y + ("-" + (mo + ("-" + (d + ("T" + (h + (":" + (mi + (":" + (s + z))))))))));
      && |text| >= 20 && text[4] == '-' && text[7] == '-' && text[10] == 'T' && text[13] == ':' && text[16] == ':'
      && text[..4] == y && text[5..7] == mo && text[8..10] == d
      && text[11..13] == h && text[14..16] == mi && text[17..19] == s && text[19..] == z
  {
    var afterMinute := ":" + (s + z);
    var afterHour := ":" + (mi + afterMinute);
    var afterDay := "T" + (h + afterHour);
    var afterMonth := "-" + (d + afterDay);
    var afterYear := "-" + (mo + afterMonth);
    var text := y + afterYear;
    assert text[..4] == y && text[4..] == afterYear;
    FieldComesNext(text, 4, "-", mo, afterMonth);
    FieldComesNext(text, 7, "-", d, afterDay);
    FieldComesNext(text, 10, "T", h, afterHour);
    FieldComesNext(text, 13, ":", mi, afterMinute);
    FieldComesNext(text, 16, ":", s, z);
  }

  /** The fraction's nine digits without the zeros at their end. */
  lemma FractionIsShortest(d: DateTime)
    ensures |FractionDigits(d)| <= 9 && Digits(d.nanosecond, 9) == FractionDigits(d) + Zeros(9 - |FractionDigits(d)|)
    ensures FractionDigits(d) != [] ==> FractionDigits(d)[|FractionDigits(d)| - 1] != '0'
  {
    TrimKeepsTheValue(Digits(d.nanosecond, 9));
  }

  /** Stored texts sort by whole second, whatever the fractions look like. */
  lemma TextOrderIsTimeOrderBySeconds(a: DateTime, b: DateTime)
    requires a.Seconds() != b.Seconds()
    ensures TextLess(ToRfc3339(a), ToRfc3339(b)) <==> a.Instant() < b.Instant()
  {
    TextOrderIsFieldOrder(a, b);
    SecondsDecideFields(a, b);
  }

  /**
   Within one second the order of the texts is the order of the instants exactly
   when neither fraction is a proper prefix of the other.
   */
  lemma TextOrderWithinASecond(a: DateTime, b: DateTime)
    requires a.Seconds() == b.Seconds()
    ensures (TextLess(ToRfc3339(a), ToRfc3339(b)) <==> a.Instant() < b.Instant())
       <==> !(FractionDigits(a) < FractionDigits(b) || FractionDigits(b) < FractionDigits(a))
  {
    TextOrderIsFieldOrder(a, b);
    SecondsDecideFields(a, b);
    FractionOrder(a, b);
    TailOrder(FractionDigits(a), FractionDigits(b));
  }

  /** Half a second past noon is stored as a text that sorts before noon's. */
  lemma TextOrderCanDisagree()
    ensures var noon: DateTime := UtcDateTime(2024, 1, 1, 12, 0, 0, 0);
            var later: DateTime := UtcDateTime(2024, 1, 1, 12, 0, 0, 500_000_000);
      noon.Instant() < later.Instant() && TextLess(ToRfc3339(later), ToRfc3339(noon))
  {
    var noon: DateTime := UtcDateTime(2024, 1, 1, 12, 0, 0, 0);
    var later: DateTime := UtcDateTime(2024, 1, 1, 12, 0, 0, 500_000_000);
    assert FractionDigits(noon) == [] by {
      TrimKeepsTheValue(Digits(0, 9));
      FractionOrder(noon, noon);
      ZeroFraction(9);
    }
    FractionOrder(noon, later);
    FractionOrder(later, noon);
    assert FractionDigits(later) != [];
    TextOrderIsFieldOrder(later, noon);
  }

  lemma {:induction false} ZeroFraction(w: nat)
    ensures TrimZeros(Digits(0, w)) == []
  {
    if w > 0 {
      ZeroFraction(w - 1);
      assert Digits(0, w)[..w - 1] == Digits(0, w - 1);
    }
  }

  /** The stored text determines the instant, so nothing is lost by storing it. */
  lemma TextIsFaithful(a: DateTime, b: DateTime)
    requires ToRfc3339(a) == ToRfc3339(b)
    ensures a == b
  {
    TextLessIsTotal(ToRfc3339(a), ToRfc3339(b));
    if a.Seconds() != b.Seconds() {
      TextOrderIsTimeOrderBySeconds(a, b);
      TextOrderIsTimeOrderBySeconds(b, a);
    } else {
      SecondsDecideFields(a, b);
      TextOrderIsFieldOrder(a, b);
      TextOrderIsFieldOrder(b, a);
      var f, g := FractionDigits(a), FractionDigits(b);
      TextLessIsTotal(FractionAndZone(f), FractionAndZone(g));
      assert FractionAndZone(f) == FractionAndZone(g);
      assert f == g by {
        assert f != [] ==> FractionAndZone(f)[1..|FractionAndZone(f)| - 1] == f;
        assert g != [] ==> FractionAndZone(g)[1..|FractionAndZone(g)| - 1] == g;
      }
      FractionOrder(a, b);
      FractionOrder(b, a);
      TextLessIsTotal(f, g);
    }
  }
}
