/**
 * The date helpers shared by the pages (app/lib/utils/date.ts): `extractDate`,
 * `formatDateYmd` and `isWeekday`, with days modelled as integers.
 */
module DateUtil {
  import opened Text

  /** A calendar day, counted from 1970-01-01 (a Thursday). */
  type Day = int

  /** `getMonth()` of a JavaScript date: January is 0. */
  type MonthIndex = m: int | 0 <= m < 12

  /** `getDate()` of a JavaScript date. */
  type DayOfMonth = d: int | 1 <= d <= 31 witness 1

  /** The local calendar fields a JavaScript `Date` reports through
      `getFullYear()`, `getMonth()` and `getDate()`. */
  datatype CalendarDate = CalendarDate(year: int, monthIndex: MonthIndex, date: DayOfMonth)

  const SUNDAY := 0
  const MONDAY := 1
  const SATURDAY := 6

  /** `getDay()` of day `d`: 0 is Sunday, 6 is Saturday. */
  function DayOfWeek(d: Day): (w: int)
    ensures 0 <= w < 7
  {
    (d + 4) % 7
  }

  /** `isWeekday`: neither Sunday nor Saturday. */
  predicate IsWeekday(d: Day) {
    DayOfWeek(d) != SUNDAY && DayOfWeek(d) != SATURDAY
  }

  /** Days a week apart fall on the same weekday. */
  lemma {:induction false} DayOfWeekPeriodic(d: Day, k: int)
    ensures DayOfWeek(d + 7 * k) == DayOfWeek(d)
    ensures IsWeekday(d + 7 * k) == IsWeekday(d)
    decreases if k < 0 then -k else k
  {
    if k > 0 {
      DayOfWeekPeriodic(d, k - 1);
      assert d + 7 * k == (d + 7 * (k - 1)) + 7;
    } else if k < 0 {
      DayOfWeekPeriodic(d, k + 1);
      assert d + 7 * (k + 1) == (d + 7 * k) + 7;
    }
  }

  /** Each day's weekday is one after the previous day's, Saturday wrapping to Sunday. */
  lemma {:induction false} NextDayOfWeek(d: Day)
    ensures DayOfWeek(d + 1) == (DayOfWeek(d) + 1) % 7
  {
  }

  /** `bookedAt.split(" ")[0]`: the text before the first space, or all of it. */
  function ExtractDate(s: string): (r: string)
    ensures |r| <= |s| && r == s[..|r|]
    ensures ' ' !in r
    ensures |r| < |s| ==> s[|r|] == ' '
  {
    if s == [] || s[0] == ' ' then [] else [s[0]] + ExtractDate(s[1..])
  }

  /** A space-free prefix followed by a space is what `ExtractDate` recovers. */
  lemma {:induction false} ExtractDateOfPrefix(p: string, rest: string)
    requires ' ' !in p
    ensures ExtractDate(p + " " + rest) == p
  {
    var s := p + " " + rest;
    if p == [] {
      assert s[0] == ' ';
    } else {
      assert s[0] == p[0] && s[1..] == p[1..] + " " + rest;
      ExtractDateOfPrefix(p[1..], rest);
      assert p == [p[0]] + p[1..];
    }
  }

  /** `formatDateYmd`: year, then the 1-based month and the day of the month padded to
      two digits, joined by '-'. For a four-digit year it is the fixed-width
      `YYYY-MM-DD` rendering. */
  function FormatDateYmd(d: CalendarDate): (r: string)
    ensures ' ' !in r
    ensures 1000 <= d.year <= 9999 ==>
      r == FixedDigits(d.year, 4) + "-" + FixedDigits(d.monthIndex + 1, 2) + "-" + FixedDigits(d.date, 2)
    ensures 1000 <= d.year <= 9999 ==> |r| == 10
  {
    var year := IntToString(d.year);
    var month := PadStart(NatToString(d.monthIndex + 1), 2, '0');
    var day := PadStart(NatToString(d.date), 2, '0');
    PadTwoDigits(d.monthIndex + 1);
    PadTwoDigits(d.date);
    FourDigitYear(d.year);
    year + "-" + month + "-" + day
  }

  lemma {:induction false} FourDigitYear(y: int)
    ensures 1000 <= y <= 9999 ==> IntToString(y) == FixedDigits(y, 4)
  {
    if 1000 <= y <= 9999 {
      assert Pow10(2) == 100;
      assert Pow10(3) == 1000 && Pow10(4) == 10000;
      NatToStringFixed(y, 4);
    }
  }

  /** Calendar order: by year, then month, then day of the month. */
  predicate DateBefore(a: CalendarDate, b: CalendarDate) {
    || a.year < b.year
    || (a.year == b.year && a.monthIndex < b.monthIndex)
    || (a.year == b.year && a.monthIndex == b.monthIndex && a.date < b.date)
  }

  /** Joining equal-width parts with '-' orders the result part by part. */
  lemma {:induction false} JoinedOrder(y1: string, m1: string, d1: string, y2: string, m2: string, d2: string)
    requires |y1| == |y2| && |m1| == |m2|
    ensures StrLess(y1 + "-" + m1 + "-" + d1, y2 + "-" + m2 + "-" + d2) <==>
      StrLess(y1, y2) || (y1 == y2 && (StrLess(m1, m2) || (m1 == m2 && StrLess(d1, d2))))
  {
    StrLessIrreflexive("-");
    StrLessAppend("-", d1, "-", d2);
    StrLessAppend(m1, "-" + d1, m2, "-" + d2);
    StrLessAppend("-", m1 + "-" + d1, "-", m2 + "-" + d2);
    StrLessAppend(y1, "-" + m1 + "-" + d1, y2, "-" + m2 + "-" + d2);
    assert y1 + "-" + m1 + "-" + d1 == y1 + ("-" + (m1 + ("-" + d1)));
    assert y2 + "-" + m2 + "-" + d2 == y2 + ("-" + (m2 + ("-" + d2)));
    assert "-" + m1 + "-" + d1 == "-" + (m1 + ("-" + d1));
    assert "-" + m2 + "-" + d2 == "-" + (m2 + ("-" + d2));
  }

  /** Joining equal-width parts with '-' is one-to-one. */
  lemma {:induction false} JoinedInjective(y1: string, m1: string, d1: string, y2: string, m2: string, d2: string)
    requires |y1| == |y2| && |m1| == |m2| && |d1| == |d2|
    requires y1 + "-" + m1 + "-" + d1 == y2 + "-" + m2 + "-" + d2
    ensures y1 == y2 && m1 == m2 && d1 == d2
  {
    var s1, s2 := y1 + "-" + m1 + "-" + d1, y2 + "-" + m2 + "-" + d2;
    assert y1 == s1[..|y1|] && y2 == s2[..|y1|];
    assert m1 == s1[|y1| + 1..|y1| + 1 + |m1|] && m2 == s2[|y1| + 1..|y1| + 1 + |m1|];
    assert d1 == s1[|y1| + 2 + |m1|..] && d2 == s2[|y1| + 2 + |m1|..];
  }

  /** Four-digit years and two-digit fields compare as strings as they do as numbers. */
  lemma {:induction false} FieldOrder(n: nat, m: nat, w: nat)
    requires w == 2 || w == 4
    requires n < Pow10(w) && m < Pow10(w)
    ensures StrLess(FixedDigits(n, w), FixedDigits(m, w)) <==> n < m
    ensures FixedDigits(n, w) == FixedDigits(m, w) <==> n == m
  {
    FixedDigitsOrder(n, m, w);
  }

  /** For four-digit years, string order on `formatDateYmd` is calendar order: the
      `>=`/`<=` string filters compare dates. */
  lemma {:induction false} FormatDateYmdOrder(a: CalendarDate, b: CalendarDate)
    requires 1000 <= a.year <= 9999 && 1000 <= b.year <= 9999
    ensures StrLess(FormatDateYmd(a), FormatDateYmd(b)) <==> DateBefore(a, b)
  {
    var w4, w2 := 4, 2;
    assert Pow10(w2) == 100;
    assert Pow10(w4) == 10000 by {
      assert Pow10(3) == 1000;
    }
    var ya, ma, da := FixedDigits(a.year, w4), FixedDigits(a.monthIndex + 1, w2), FixedDigits(a.date, w2);
    var yb, mb, db := FixedDigits(b.year, w4), FixedDigits(b.monthIndex + 1, w2), FixedDigits(b.date, w2);
    assert FormatDateYmd(a) == ya + "-" + ma + "-" + da;
    assert FormatDateYmd(b) == yb + "-" + mb + "-" + db;
    JoinedOrder(ya, ma, da, yb, mb, db);
    FieldOrder(a.year, b.year, w4);
    FieldOrder(a.monthIndex + 1, b.monthIndex + 1, w2);
    FieldOrder(a.date, b.date, w2);
  }

  /** For four-digit years, `formatDateYmd` is one-to-one. */
  lemma {:induction false} FormatDateYmdInjective(a: CalendarDate, b: CalendarDate)
    requires 1000 <= a.year <= 9999 && 1000 <= b.year <= 9999
    requires FormatDateYmd(a) == FormatDateYmd(b)
    ensures a == b
  {
    var w4, w2 := 4, 2;
    assert Pow10(w2) == 100;
    assert Pow10(w4) == 10000 by {
      assert Pow10(3) == 1000;
    }
    var ya, ma, da := FixedDigits(a.year, w4), FixedDigits(a.monthIndex + 1, w2), FixedDigits(a.date, w2);
    var yb, mb, db := FixedDigits(b.year, w4), FixedDigits(b.monthIndex + 1, w2), FixedDigits(b.date, w2);
    assert FormatDateYmd(a) == ya + "-" + ma + "-" + da;
    assert FormatDateYmd(b) == yb + "-" + mb + "-" + db;
    JoinedInjective(ya, ma, da, yb, mb, db);
    FieldOrder(a.year, b.year, w4);
    FieldOrder(a.monthIndex + 1, b.monthIndex + 1, w2);
    FieldOrder(a.date, b.date, w2);
  }

  /** The round trip the admin filter relies on: the date part of a `formatDateYmd`
      result followed by a space and a time is that formatted date. */
  lemma {:induction false} ExtractFormattedDate(d: CalendarDate, time: string)
    ensures ExtractDate(FormatDateYmd(d) + " " + time) == FormatDateYmd(d)
  {
    ExtractDateOfPrefix(FormatDateYmd(d), time);
  }
}
