/** Model of utils/helpers.ts: the Gregorian calendar arithmetic behind
    getDaysInMonth and getFirstDayOfMonth, the YYYY-MM-DD strings formatDate
    produces (and the HH:MM strings the time input produces), the WhatsApp
    link builder and the colour palette. Months are 0-based (0 = January) as
    in JavaScript's Date, except inside date strings, where they are 1-based. */
module Helpers {
  import opened Collections
  import opened Text

  // ---------------------------------------------------------------------
  // Proleptic Gregorian calendar.

  predicate IsLeapYear(y: int)
  {
    y % 4 == 0 && (y % 100 != 0 || y % 400 == 0)
  }

  /** Length of month m (0..11) of year y. */
  function MonthLength(y: int, m: int): int
    requires 0 <= m < 12
  {
    if m == 1 then (if IsLeapYear(y) then 29 else 28)
    else if m == 3 || m == 5 || m == 8 || m == 10 then 30
    else 31
  }

  /** Days from 1 January of year y to the first day of month m (0..12),
      from the cumulative table of month lengths. */
  function DaysBeforeMonth(y: int, m: int): int
    requires 0 <= m <= 12
  {
    [0, 31, 59, 90, 120, 151, 181, 212, 243, 273, 304, 334, 365][m]
      + (if m >= 2 && IsLeapYear(y) then 1 else 0)
  }

  /** Days from 0000-01-01 to 1 January of year y: 365 per year plus one per
      leap year in [0, y) (negative for years before 0). */
  function DaysBeforeYear(y: int): int
  {
    365 * y + (y + 3) / 4 - (y + 99) / 100 + (y + 399) / 400
  }

  /** Day ordinal of day d of month m (0..11) of year y; 0000-01-01 has 0. */
  function DayNumber(y: int, m: int, d: int): int
    requires 0 <= m < 12
  {
    DaysBeforeYear(y) + DaysBeforeMonth(y, m) + d - 1
  }

  /** The Date constructor carries a month outside 0..11 into the year. */
  function CarryYear(year: int, month: int): int
  {
    year + month / 12
  }

  function CarryMonth(month: int): (r: int)
    ensures 0 <= r < 12
  {
    month % 12
  }

  /** getDaysInMonth(year, month) = new Date(year, month + 1, 0).getDate():
      day 0 of the next month is the last day of this one. */
  function GetDaysInMonth(year: int, month: int): (r: int)
    ensures 28 <= r <= 31
    ensures r == 29 <==> month % 12 == 1 && IsLeapYear(year + month / 12)
    ensures r == 28 <==> month % 12 == 1 && !IsLeapYear(year + month / 12)
    ensures r == 30 <==> month % 12 in {3, 5, 8, 10}
    ensures r == 31 <==> month % 12 in {0, 2, 4, 6, 7, 9, 11}
  {
    MonthLength(CarryYear(year, month), CarryMonth(month))
  }

  /** getFirstDayOfMonth(year, month) = new Date(year, month, 1).getDay():
      0 = Sunday ... 6 = Saturday; 0000-01-01 was a Saturday. */
  function GetFirstDayOfMonth(year: int, month: int): (r: int)
    ensures 0 <= r < 7
  {
    (DayNumber(CarryYear(year, month), CarryMonth(month), 1) + 6) % 7
  }

  /** Weekday names of the calendar header (Calendar.tsx), indexed by getDay. */
  const WeekdayHeaders: seq<string> := ["Dom", "Seg", "Ter", "Qua", "Qui", "Sex", "Sáb"]

  lemma YearLength(y: int)
    ensures DaysBeforeYear(y + 1) == DaysBeforeYear(y) + DaysBeforeMonth(y, 12)
  {
    assert DaysBeforeMonth(y, 12) == 365 + (if IsLeapYear(y) then 1 else 0);
    DivStep4(y);
    DivStep100(y);
    DivStep400(y);
    LeapDivisors(y);
  }

  lemma LeapDivisors(y: int)
    ensures y % 400 == 0 ==> y % 100 == 0
    ensures y % 100 == 0 ==> y % 4 == 0
  {
    if y % 400 == 0 {
      MultipleOf100(4 * (y / 400));
    }
    if y % 100 == 0 {
      MultipleOf4(25 * (y / 100));
    }
  }

  lemma MultipleOf100(q: int)
    ensures (100 * q) % 100 == 0
  {
  }

  lemma MultipleOf4(q: int)
    ensures (4 * q) % 4 == 0
  {
  }

  lemma DivStep4(y: int)
    ensures (y + 4) / 4 == (y + 3) / 4 + (if y % 4 == 0 then 1 else 0)
  {
  }

  lemma DivStep100(y: int)
    ensures (y + 100) / 100 == (y + 99) / 100 + (if y % 100 == 0 then 1 else 0)
  {
  }

  lemma DivStep400(y: int)
    ensures (y + 400) / 400 == (y + 399) / 400 + (if y % 400 == 0 then 1 else 0)
  {
  }

  lemma Mod7Add(a: int, d: int)
    ensures (a + d) % 7 == (a % 7 + d) % 7
  {
    assert a == 7 * (a / 7) + a % 7;
  }

  lemma MonthStep(y: int, m: int)
    requires 0 <= m < 12
    ensures DaysBeforeMonth(y, m + 1) == DaysBeforeMonth(y, m) + MonthLength(y, m)
  {
  }

  /** The month after `month` starts exactly GetDaysInMonth days after it,
      including the step from December into January of the next year. */
  lemma {:induction false} NextMonthStart(year: int, month: int)
    ensures DayNumber(CarryYear(year, month + 1), CarryMonth(month + 1), 1) ==
            DayNumber(CarryYear(year, month), CarryMonth(month), 1) + GetDaysInMonth(year, month)
  {
    var y, m := CarryYear(year, month), CarryMonth(month);
    assert month == 12 * (month / 12) + m;
    if m < 11 {
      assert (month + 1) / 12 == month / 12 && (month + 1) % 12 == m + 1;
      MonthStep(y, m);
    } else {
      assert (month + 1) / 12 == month / 12 + 1 && (month + 1) % 12 == 0;
      YearLength(y);
      MonthStep(y, 11);
    }
  }

  /** The first weekday of the next month is (firstDay + daysInMonth) mod 7,
      with the year rolling over after December. */
  lemma NextMonthFirstDay(year: int, month: int)
    ensures GetFirstDayOfMonth(year, month + 1) ==
            (GetFirstDayOfMonth(year, month) + GetDaysInMonth(year, month)) % 7
  {
    var a := DayNumber(CarryYear(year, month), CarryMonth(month), 1);
    var b := DayNumber(CarryYear(year, month + 1), CarryMonth(month + 1), 1);
    var n := GetDaysInMonth(year, month);
    assert b == a + n by {
      NextMonthStart(year, month);
    }
    assert GetFirstDayOfMonth(year, month + 1) == (b + 6) % 7;
    assert GetFirstDayOfMonth(year, month) == (a + 6) % 7;
    WeekdayShift(a, b, n);
  }

  lemma WeekdayShift(a: int, b: int, n: int)
    requires b == a + n
    ensures (b + 6) % 7 == ((a + 6) % 7 + n) % 7
  {
    Mod7Add(a + 6, n);
  }

  /** 1 January 2024 was a Monday ("Seg"), fixing the weekday numbering. */
  lemma FirstDayAnchor()
    ensures GetFirstDayOfMonth(2024, 0) == 1 && WeekdayHeaders[1] == "Seg"
  {
  }

  /** Day ordinals grow by at least 365 per year. */
  lemma {:induction false} DaysBeforeYearGrows(y1: int, y2: int)
    requires y1 <= y2
    ensures DaysBeforeYear(y1) + 365 * (y2 - y1) <= DaysBeforeYear(y2)
    decreases y2 - y1
  {
    if y1 < y2 {
      DaysBeforeYearGrows(y1, y2 - 1);
      YearLength(y2 - 1);
    }
  }

  predicate ValidDay(y: int, m: int, d: int)
  {
    0 <= m < 12 && 1 <= d <= MonthLength(y, m)
  }

  lemma DayWithinYear(y: int, m: int, d: int)
    requires ValidDay(y, m, d)
    ensures DaysBeforeYear(y) <= DayNumber(y, m, d) < DaysBeforeYear(y + 1)
  {
    YearLength(y);
    MonthStep(y, m);
  }

  /** On valid calendar days, comparing (year, month, day) field by field is
      comparing day ordinals: the field order is chronological order. */
  lemma FieldOrderIsChronological(y1: int, m1: int, d1: int, y2: int, m2: int, d2: int)
    requires ValidDay(y1, m1, d1) && ValidDay(y2, m2, d2)
    ensures (y1 < y2 || (y1 == y2 && (m1 < m2 || (m1 == m2 && d1 <= d2)))) <==>
            DayNumber(y1, m1, d1) <= DayNumber(y2, m2, d2)
  {
    if y1 < y2 {
      EarlierYear(y1, m1, d1, y2, m2, d2);
    } else if y2 < y1 {
      EarlierYear(y2, m2, d2, y1, m1, d1);
    } else if m1 < m2 {
      EarlierMonth(y1, m1, d1, m2, d2);
    } else if m2 < m1 {
      EarlierMonth(y1, m2, d2, m1, d1);
    }
  }

  /** Every day of an earlier year comes before every day of a later one. */
  lemma EarlierYear(y1: int, m1: int, d1: int, y2: int, m2: int, d2: int)
    requires ValidDay(y1, m1, d1) && ValidDay(y2, m2, d2) && y1 < y2
    ensures DayNumber(y1, m1, d1) < DayNumber(y2, m2, d2)
  {
    DayWithinYear(y1, m1, d1);
    DayWithinYear(y2, m2, d2);
    DaysBeforeYearGrows(y1 + 1, y2);
  }

  /** Within a year, every day of an earlier month comes first. */
  lemma EarlierMonth(y: int, m1: int, d1: int, m2: int, d2: int)
    requires ValidDay(y, m1, d1) && ValidDay(y, m2, d2) && m1 < m2
    ensures DayNumber(y, m1, d1) < DayNumber(y, m2, d2)
  {
    MonthStep(y, m1);
    MonthsGrow(y, m1 + 1, m2);
  }

  lemma MonthsGrow(y: int, m1: int, m2: int)
    requires 0 <= m1 <= m2 <= 12
    ensures DaysBeforeMonth(y, m1) <= DaysBeforeMonth(y, m2)
  {
  }

  // ---------------------------------------------------------------------
  // Fixed-width digit strings.

  function Pow10(n: nat): (r: nat)
    ensures r >= 1
  {
    if n == 0 then 1 else 10 * Pow10(n - 1)
  }

  predicate IsDigit(c: char)
  {
    '0' <= c <= '9'
  }

  predicate AllDigits(s: string)
  {
    forall i :: 0 <= i < |s| ==> IsDigit(s[i])
  }

  /** The number a digit string spells in decimal. */
  function DigitsValue(s: string): (r: nat)
    requires AllDigits(s)
    ensures r < Pow10(|s|)
  {
    if s == [] then 0
    else
      assert AllDigits(s[..|s| - 1]);
      10 * DigitsValue(s[..|s| - 1]) + (s[|s| - 1] as int - '0' as int)
  }

  /** n written with exactly w decimal digits, zero-padded on the left. */
  function Pad(n: nat, w: nat): (r: string)
    requires n < Pow10(w)
    ensures |r| == w && AllDigits(r) && DigitsValue(r) == n
  {
    if w == 0 then []
    else
      var q, d := n / 10, n % 10;
      assert n == 10 * q + d && 0 <= d < 10;
      assert 10 * q < 10 * Pow10(w - 1);
      var r := Pad(q, w - 1) + [('0' as int + d) as char];
      assert r[..|r| - 1] == Pad(q, w - 1);
      r
  }

  lemma {:induction false} DigitsInjective(a: string, b: string)
    requires |a| == |b| && AllDigits(a) && AllDigits(b) && DigitsValue(a) == DigitsValue(b)
    ensures a == b
  {
    if a != [] {
      var a', b' := a[..|a| - 1], b[..|b| - 1];
      assert AllDigits(a') && AllDigits(b');
      DigitsInjective(a', b');
      assert a == a' + [a[|a| - 1]] && b == b' + [b[|b| - 1]];
    }
  }

  /** On digit strings of one width, code-unit order is numeric order. */
  lemma {:induction false} DigitsOrder(a: string, b: string)
    requires |a| == |b| && AllDigits(a) && AllDigits(b)
    ensures LexLeq(a, b) <==> DigitsValue(a) <= DigitsValue(b)
  {
    if a != [] {
      var a', b' := a[..|a| - 1], b[..|b| - 1];
      assert AllDigits(a') && AllDigits(b');
      assert a == a' + [a[|a| - 1]] && b == b' + [b[|b| - 1]];
      DigitsOrder(a', b');
      LexLeqConcat(a', [a[|a| - 1]], b', [b[|b| - 1]]);
      if a' == b' {
        assert LexLeq([a[|a| - 1]], [b[|b| - 1]]) <==> a[|a| - 1] <= b[|b| - 1] by {
          assert [a[|a| - 1]][1..] == [] && [b[|b| - 1]][1..] == [];
        }
      } else if DigitsValue(a') == DigitsValue(b') {
        DigitsInjective(a', b');
      }
    }
  }

  // ---------------------------------------------------------------------
  // formatDate(date) = date.toISOString().split('T')[0]: the UTC calendar
  // fields of the date, year-month-day. toISOString writes years 0..9999
  // with four digits and other years as a sign and six digits; it accepts
  // only the years a Date can hold.

  const MinYear := -271821
  const MaxYear := 275760

  function YearString(y: int): (r: string)
    requires MinYear <= y <= MaxYear
    ensures 0 <= y <= 9999 ==> |r| == 4 && AllDigits(r) && DigitsValue(r) == y
    ensures !(0 <= y <= 9999) ==> |r| == 7 && r[0] == (if y < 0 then '-' else '+')
  {
    if 0 <= y <= 9999 then Pad(y, 4)
    else (if y < 0 then "-" else "+") + Pad(if y < 0 then -y else y, 6)
  }

  function FormatDate(y: int, m: int, d: int): (r: string)
    requires MinYear <= y <= MaxYear && 1 <= m <= 12 && 1 <= d <= 31
    ensures 0 <= y <= 9999 ==> IsDateString(r) && YearOf(r) == y && MonthOf(r) == m && DayOf(r) == d
    ensures !(0 <= y <= 9999) ==> |r| == 13
  {
    var ys, ms, ds := YearString(y), Pad(m, 2), Pad(d, 2);
    JoinedFields(ys, ms, ds);
    ys + ("-" + (ms + ("-" + ds)))
  }

  /** Where the fields sit in year-month-day joined by '-'. */
  lemma JoinedFields(ys: string, ms: string, ds: string)
    requires |ms| == 2 && |ds| == 2
    ensures var r := ys + ("-" + (ms + ("-" + ds)));
            |r| == |ys| + 6 &&
            (|ys| == 4 ==> r[..4] == ys && r[4] == '-' && r[5..7] == ms && r[7] == '-' && r[8..] == ds)
  {
  }

  /** A YYYY-MM-DD string: ten characters, digits with '-' at 4 and 7. */
  predicate IsDateString(s: string)
  {
    |s| == 10 && AllDigits(s[..4]) && s[4] == '-' && AllDigits(s[5..7]) && s[7] == '-' && AllDigits(s[8..])
  }

  function YearOf(s: string): nat
    requires IsDateString(s)
  {
    DigitsValue(s[..4])
  }

  function MonthOf(s: string): nat
    requires IsDateString(s)
  {
    DigitsValue(s[5..7])
  }

  function DayOf(s: string): nat
    requires IsDateString(s)
  {
    DigitsValue(s[8..])
  }

  /** A date string naming a day that exists. */
  predicate IsCalendarDate(s: string)
  {
    IsDateString(s) && 1 <= MonthOf(s) <= 12 && ValidDay(YearOf(s), MonthOf(s) - 1, DayOf(s))
  }

  function Ordinal(s: string): int
    requires IsCalendarDate(s)
  {
    DayNumber(YearOf(s), MonthOf(s) - 1, DayOf(s))
  }

  /** Two date strings with the same fields are the same string. */
  lemma DateStringsEqual(a: string, b: string)
    requires IsDateString(a) && IsDateString(b)
    requires YearOf(a) == YearOf(b) && MonthOf(a) == MonthOf(b) && DayOf(a) == DayOf(b)
    ensures a == b
  {
    DigitsInjective(a[..4], b[..4]);
    DigitsInjective(a[5..7], b[5..7]);
    DigitsInjective(a[8..], b[8..]);
    assert a == a[..4] + [a[4]] + a[5..7] + [a[7]] + a[8..];
    assert b == b[..4] + [b[4]] + b[5..7] + [b[7]] + b[8..];
  }

  /** Every calendar-date string is what formatDate writes for its fields. */
  lemma FormatDateOfFields(s: string)
    requires IsCalendarDate(s)
    ensures FormatDate(YearOf(s), MonthOf(s), DayOf(s)) == s
  {
    var r := FormatDate(YearOf(s), MonthOf(s), DayOf(s));
    DateStringsEqual(r, s);
  }

  /** On digit strings of one width, "different and not after" is "smaller". */
  lemma DigitsStrict(a: string, b: string)
    requires |a| == |b| && AllDigits(a) && AllDigits(b)
    ensures a == b <==> DigitsValue(a) == DigitsValue(b)
    ensures (a != b && LexLeq(a, b)) <==> DigitsValue(a) < DigitsValue(b)
  {
    DigitsOrder(a, b);
    if DigitsValue(a) == DigitsValue(b) {
      DigitsInjective(a, b);
    }
  }

  /** Code-unit order on date strings compares the year field, then the
      month field, then the day field. */
  lemma DateLexSplit(a: string, b: string)
    requires IsDateString(a) && IsDateString(b)
    ensures LexLeq(a, b) <==>
            (a[..4] != b[..4] && LexLeq(a[..4], b[..4])) ||
            (a[..4] == b[..4] && ((a[5..7] != b[5..7] && LexLeq(a[5..7], b[5..7])) ||
                                  (a[5..7] == b[5..7] && LexLeq(a[8..], b[8..]))))
  {
    var ta, tb := a[8..], b[8..];
    var ma, mb := a[5..7] + ([a[7]] + ta), b[5..7] + ([b[7]] + tb);
    assert a == a[..4] + ([a[4]] + ma);
    assert b == b[..4] + ([b[4]] + mb);
    LexLeqConcat(a[..4], [a[4]] + ma, b[..4], [b[4]] + mb);
    LexLeqConcat([a[4]], ma, [b[4]], mb);
    LexLeqConcat(a[5..7], [a[7]] + ta, b[5..7], [b[7]] + tb);
    LexLeqConcat([a[7]], ta, [b[7]], tb);
  }

  /** Comparing date strings as the sorts do is comparing their fields. */
  lemma DateLexFields(a: string, b: string)
    requires IsDateString(a) && IsDateString(b)
    ensures LexLeq(a, b) <==>
            YearOf(a) < YearOf(b) ||
            (YearOf(a) == YearOf(b) && (MonthOf(a) < MonthOf(b) || (MonthOf(a) == MonthOf(b) && DayOf(a) <= DayOf(b))))
  {
    DateLexSplit(a, b);
    DigitsStrict(a[..4], b[..4]);
    DigitsStrict(a[5..7], b[5..7]);
    DigitsOrder(a[8..], b[8..]);
  }

  /** Comparing date strings as the sorts do is comparing the days they name. */
  lemma DateStringOrder(a: string, b: string)
    requires IsCalendarDate(a) && IsCalendarDate(b)
    ensures LexLeq(a, b) <==> Ordinal(a) <= Ordinal(b)
  {
    DateLexFields(a, b);
    FieldOrderIsChronological(YearOf(a), MonthOf(a) - 1, DayOf(a), YearOf(b), MonthOf(b) - 1, DayOf(b));
  }

  /** formatDate's output order is date order (years 0..9999). */
  lemma FormatDateOrder(y1: int, m1: int, d1: int, y2: int, m2: int, d2: int)
    requires 0 <= y1 <= 9999 && 0 <= y2 <= 9999
    requires ValidDay(y1, m1 - 1, d1) && ValidDay(y2, m2 - 1, d2)
    ensures LexLeq(FormatDate(y1, m1, d1), FormatDate(y2, m2, d2)) <==>
            DayNumber(y1, m1 - 1, d1) <= DayNumber(y2, m2 - 1, d2)
  {
    var a, b := FormatDate(y1, m1, d1), FormatDate(y2, m2, d2);
    FormatDateOrdinal(y1, m1, d1);
    FormatDateOrdinal(y2, m2, d2);
    DateStringOrder(a, b);
  }

  /** formatDate writes a calendar date naming the day it was given. */
  lemma FormatDateOrdinal(y: int, m: int, d: int)
    requires 0 <= y <= 9999 && ValidDay(y, m - 1, d)
    ensures IsCalendarDate(FormatDate(y, m, d)) && Ordinal(FormatDate(y, m, d)) == DayNumber(y, m - 1, d)
  {
    var a := FormatDate(y, m, d);
    assert IsDateString(a) && YearOf(a) == y && MonthOf(a) == m && DayOf(a) == d;
  }

  // ---------------------------------------------------------------------
  // HH:MM strings, as an <input type="time"> yields them.

  predicate IsTimeString(s: string)
  {
    && |s| == 5 && AllDigits(s[..2]) && s[2] == ':' && AllDigits(s[3..])
    && DigitsValue(s[..2]) <= 23 && DigitsValue(s[3..]) <= 59
  }

  function MinuteOfDay(s: string): int
    requires IsTimeString(s)
  {
    60 * DigitsValue(s[..2]) + DigitsValue(s[3..])
  }

  /** Comparing time strings as the sorts do is comparing times of day. */
  lemma TimeStringOrder(a: string, b: string)
    requires IsTimeString(a) && IsTimeString(b)
    ensures LexLeq(a, b) <==> MinuteOfDay(a) <= MinuteOfDay(b)
  {
    assert a == a[..2] + ([a[2]] + a[3..]);
    assert b == b[..2] + ([b[2]] + b[3..]);
    LexLeqConcat(a[..2], [a[2]] + a[3..], b[..2], [b[2]] + b[3..]);
    LexLeqConcat([a[2]], a[3..], [b[2]], b[3..]);
    DigitsOrder(a[..2], b[..2]);
    DigitsOrder(a[3..], b[3..]);
    if DigitsValue(a[..2]) == DigitsValue(b[..2]) { DigitsInjective(a[..2], b[..2]); }
  }

  // ---------------------------------------------------------------------
  // generateWhatsAppLink.

  /** phone.replace(/\D/g, ''): the characters 0..9 of the phone, in order. */
  function CleanPhone(phone: string): (r: string)
    ensures AllDigits(r)
  {
    Filter(phone, IsDigit)
  }

  /** Cleaning works character by character ... */
  lemma CleanPhoneConcat(a: string, b: string)
    ensures CleanPhone(a + b) == CleanPhone(a) + CleanPhone(b)
  {
    FilterConcat(a, b, IsDigit);
  }

  /** ... keeping a digit and dropping anything else ... */
  lemma CleanPhoneChar(c: char)
    ensures CleanPhone([c]) == if IsDigit(c) then [c] else []
  {
    assert [c][..0] == [];
  }

  /** ... so it leaves a digit string as it is, and is idempotent. */
  lemma CleanPhoneOfDigits(s: string)
    requires AllDigits(s)
    ensures CleanPhone(s) == s
  {
    FilterAll(s, IsDigit);
  }

  lemma CleanPhoneIdempotent(phone: string)
    ensures CleanPhone(CleanPhone(phone)) == CleanPhone(phone)
  {
    CleanPhoneOfDigits(CleanPhone(phone));
  }

  const WhatsAppPrefix := "https://wa.me/55"

  /** The link, with encodeURIComponent left as the parameter `encode`. */
  function GenerateWhatsAppLink(phone: string, message: string, encode: string -> string): (r: string)
    ensures |r| >= |WhatsAppPrefix| && r[..|WhatsAppPrefix|] == WhatsAppPrefix
  {
    WhatsAppPrefix + CleanPhone(phone) + "?text=" + encode(message)
  }

  /** The longest prefix of digits. */
  function LeadingDigits(s: string): (r: string)
    ensures AllDigits(r) && |r| <= |s| && r == s[..|r|]
  {
    if s == [] || !IsDigit(s[0]) then []
    else [s[0]] + LeadingDigits(s[1..])
  }

  lemma {:induction false} LeadingDigitsOf(d: string, rest: string)
    requires AllDigits(d) && (rest == [] || !IsDigit(rest[0]))
    ensures LeadingDigits(d + rest) == d
  {
    if d != [] {
      assert (d + rest)[1..] == d[1..] + rest;
      LeadingDigitsOf(d[1..], rest);
      assert d == [d[0]] + d[1..];
    } else {
      assert d + rest == rest;
    }
  }

  /** The phone number a link opens a chat with. */
  function PhoneOfLink(link: string): string
    requires |link| >= |WhatsAppPrefix|
  {
    LeadingDigits(link[|WhatsAppPrefix|..])
  }

  /** A link opens a chat with exactly the digits of the phone it was built
      from: the message cannot run into the number. */
  lemma LinkRoundTrip(phone: string, message: string, encode: string -> string)
    ensures PhoneOfLink(GenerateWhatsAppLink(phone, message, encode)) == CleanPhone(phone)
  {
    var link := GenerateWhatsAppLink(phone, message, encode);
    assert link[|WhatsAppPrefix|..] == CleanPhone(phone) + ("?text=" + encode(message));
    LeadingDigitsOf(CleanPhone(phone), "?text=" + encode(message));
  }

  /** What follows the number in a link is the encoded message: the link
      splits back into its prefix, the cleaned phone and "?text=" plus
      encode(message). */
  lemma LinkMessage(phone: string, message: string, encode: string -> string)
    ensures var link := GenerateWhatsAppLink(phone, message, encode);
            var n := |WhatsAppPrefix| + |PhoneOfLink(link)|;
            n + 6 <= |link| && link[n..n + 6] == "?text=" && link[n + 6..] == encode(message)
  {
    var link := GenerateWhatsAppLink(phone, message, encode);
    LinkRoundTrip(phone, message, encode);
    var n := |WhatsAppPrefix| + |CleanPhone(phone)|;
    assert link == (WhatsAppPrefix + CleanPhone(phone)) + ("?text=" + encode(message));
    assert link[n..] == "?text=" + encode(message);
  }

  // ---------------------------------------------------------------------
  // The colour palette: six Tailwind class triples.

  const COLORS: seq<string> := [
    "bg-rose-100 text-rose-700 border-rose-200",
    "bg-sky-100 text-sky-700 border-sky-200",
    "bg-emerald-100 text-emerald-700 border-emerald-200",
    "bg-amber-100 text-amber-700 border-amber-200",
    "bg-violet-100 text-violet-700 border-violet-200",
    "bg-fuchsia-100 text-fuchsia-700 border-fuchsia-200"
  ]

  /** The colours the staff form offers: COLORS.slice(0, 5). */
  function StaffColorChoices(): (r: seq<string>)
    ensures |COLORS| == 6 && |r| == 5
    ensures forall i :: 0 <= i < 5 ==> r[i] == COLORS[i]
    ensures COLORS[5] !in r
  {
    Take(COLORS, 5)
  }
}
