/**
 * Day keys. `dayKey(t)` (app.js:203-207) subtracts the 4-hour reset offset and
 * keeps the first ten characters of `Date.prototype.toISOString`, which
 * renders the instant in UTC. The date arithmetic is the one section 21.4.1 of
 * ECMA-262 defines (Day, DayFromYear, YearFromTime, MonthFromTime,
 * DateFromTime); the format is its Date Time String Format, whose four-digit
 * form is the full-date of section 5.6 of RFC 3339.
 */
module Calendar {
  import opened Strings

  const MsPerSecond: int := 1000
  const MsPerMinute: int := 60000
  const MsPerHour: int := 3600000
  const MsPerDay: int := 86400000
  /** The largest magnitude a time value may have (ECMA-262, 21.4.1.1). */
  const MaxTime: int := 8640000000000000
  /** `RESET_HOUR` in milliseconds: a tracker day starts at 04:00. */
  const ResetHour: int := 4
  const ResetMs: int := ResetHour * MsPerHour

  /** A time value a `Date` can hold; `toISOString` throws a RangeError on any other. */
  predicate ValidTime(t: int) {
    -MaxTime <= t <= MaxTime
  }

  // ----- Days and years -----

  /** The day number of an instant (floor division: `/` on int is Euclidean). */
  function Day(t: int): int {
    t / MsPerDay
  }

  predicate IsLeapYear(y: int) {
    y % 4 == 0 && (y % 100 != 0 || y % 400 == 0)
  }

  function LeapDays(y: int): int {
    if IsLeapYear(y) then 1 else 0
  }

  function DaysInYear(y: int): int {
    365 + LeapDays(y)
  }

  /** The day number of 1 January of year `y`. */
  function DayFromYear(y: int): int {
    365 * (y - 1970) + (y - 1969) / 4 - (y - 1901) / 100 + (y - 1601) / 400
  }

  /** Consecutive years start `DaysInYear` days apart. */
  lemma YearLength(y: int)
    ensures DayFromYear(y + 1) == DayFromYear(y) + DaysInYear(y)
  {
    var a4, a100, a400 := (y - 1968) / 4 - (y - 1969) / 4, (y - 1900) / 100 - (y - 1901) / 100,
      (y - 1600) / 400 - (y - 1601) / 400;
    assert a4 == if y % 4 == 0 then 1 else 0 by { FloorStep4(y - 1969); }
    assert a100 == if y % 100 == 0 then 1 else 0 by { FloorStep100(y - 1901); }
    assert a400 == if y % 400 == 0 then 1 else 0 by { FloorStep400(y - 1601); }
    LeapDaysCount(y);
    assert DayFromYear(y + 1) - DayFromYear(y) == 365 + a4 - a100 + a400;
  }

  /** The leap day of year `y`: one every 4 years, none every 100, one every 400. */
  lemma LeapDaysCount(y: int)
    ensures LeapDays(y) == (if y % 4 == 0 then 1 else 0) - (if y % 100 == 0 then 1 else 0)
                          + (if y % 400 == 0 then 1 else 0)
  {
    if y % 400 == 0 {
      assert y == 100 * (4 * (y / 400));
    }
    if y % 100 == 0 {
      assert y == 4 * (25 * (y / 100));
    }
  }

  lemma FloorStep4(a: int)
    ensures (a + 1) / 4 - a / 4 == if (a + 1 + 1968) % 4 == 0 then 1 else 0
  {
  }

  lemma FloorStep100(a: int)
    ensures (a + 1) / 100 - a / 100 == if (a + 1 + 1900) % 100 == 0 then 1 else 0
  {
  }

  lemma FloorStep400(a: int)
    ensures (a + 1) / 400 - a / 400 == if (a + 1 + 1600) % 400 == 0 then 1 else 0
  {
  }

  lemma {:induction false} DayFromYearMonotone(a: int, b: int)
    requires a < b
    ensures DayFromYear(a) + 365 <= DayFromYear(b)
    decreases b - a
  {
    YearLength(a);
    if a + 1 < b {
      DayFromYearMonotone(a + 1, b);
    }
  }

  /**
   * YearFromTime: the largest year whose first day is not after day `z`,
   * searched from 1970 as ECMA-262 defines it.
   */
  function YearFromDay(z: int): (y: int)
    ensures DayFromYear(y) <= z < DayFromYear(y + 1)
  {
    if DayFromYear(1970) <= z then YearSearchUp(z, 1970) else YearSearchDown(z, 1969)
  }

  function YearSearchUp(z: int, y: int): (r: int)
    requires DayFromYear(y) <= z
    ensures y <= r && DayFromYear(r) <= z < DayFromYear(r + 1)
    decreases z - DayFromYear(y)
  {
    YearLength(y);
    if z < DayFromYear(y + 1) then y else YearSearchUp(z, y + 1)
  }

  function YearSearchDown(z: int, y: int): (r: int)
    requires z < DayFromYear(y + 1)
    ensures r <= y && DayFromYear(r) <= z < DayFromYear(r + 1)
    decreases DayFromYear(y + 1) - z
  {
    YearLength(y);
    if DayFromYear(y) <= z then y else YearSearchDown(z, y - 1)
  }

  /** Exactly one year contains each day. */
  lemma YearFromDayUnique(z: int, y: int)
    requires DayFromYear(y) <= z < DayFromYear(y + 1)
    ensures YearFromDay(z) == y
  {
    var r := YearFromDay(z);
    if r < y {
      DayFromYearMonotone(r, y);
      if r + 1 < y { DayFromYearMonotone(r + 1, y); }
    } else if y < r {
      DayFromYearMonotone(y, r);
      if y + 1 < r { DayFromYearMonotone(y + 1, r); }
    }
  }

  // ----- Months and dates -----

  /** A calendar date; months count from 1 as the ISO format prints them. */
  datatype Date = Date(year: int, month: int, day: int)

  /** The number of days of the year before month `m` (13 gives the year's length). */
  function MonthStart(m: int, leap: int): int
    requires 1 <= m <= 13
  {
    match m
    case 1 => 0
    case 2 => 31
    case 3 => 59 + leap
    case 4 => 90 + leap
    case 5 => 120 + leap
    case 6 => 151 + leap
    case 7 => 181 + leap
    case 8 => 212 + leap
    case 9 => 243 + leap
    case 10 => 273 + leap
    case 11 => 304 + leap
    case 12 => 334 + leap
    case 13 => 365 + leap
  }

  function DaysInMonth(y: int, m: int): (n: int)
    requires 1 <= m <= 12
    ensures 28 <= n <= 31
  {
    MonthStart(m + 1, LeapDays(y)) - MonthStart(m, LeapDays(y))
  }

  predicate ValidDate(d: Date) {
    1 <= d.month <= 12 && 1 <= d.day <= DaysInMonth(d.year, d.month)
  }

  /** MonthFromTime, as the table of ranges ECMA-262 gives (plus one). */
  function MonthOfDayInYear(dwy: int, leap: int): (m: int)
    requires 0 <= leap <= 1 && 0 <= dwy < 365 + leap
    ensures 1 <= m <= 12 && MonthStart(m, leap) <= dwy < MonthStart(m + 1, leap)
  {
    if dwy < 31 then 1
    else if dwy < 59 + leap then 2
    else if dwy < 90 + leap then 3
    else if dwy < 120 + leap then 4
    else if dwy < 151 + leap then 5
    else if dwy < 181 + leap then 6
    else if dwy < 212 + leap then 7
    else if dwy < 243 + leap then 8
    else if dwy < 273 + leap then 9
    else if dwy < 304 + leap then 10
    else if dwy < 334 + leap then 11
    else 12
  }

  /** MakeDay: the day number of a calendar date. */
  function DayFromDate(d: Date): int
    requires 1 <= d.month <= 12
  {
    DayFromYear(d.year) + MonthStart(d.month, LeapDays(d.year)) + d.day - 1
  }

  /** The calendar date of day `z` (YearFromTime, MonthFromTime, DateFromTime). */
  function DateOfDay(z: int): (d: Date)
    ensures ValidDate(d) && DayFromDate(d) == z
  {
    var y := YearFromDay(z);
    var leap := LeapDays(y);
    DayWithinYear(z);
    var dwy := z - DayFromYear(y);
    var m := MonthOfDayInYear(dwy, leap);
    var day := dwy - MonthStart(m, leap) + 1;
    assert DaysInMonth(y, m) == MonthStart(m + 1, leap) - MonthStart(m, leap);
    assert DayFromDate(Date(y, m, day)) == DayFromYear(y) + MonthStart(m, leap) + day - 1;
    Date(y, m, day)
  }

  /** The day of the year of day `z`, counted from 0, is below the length of its year. */
  lemma DayWithinYear(z: int)
    ensures var y := YearFromDay(z);
      0 <= z - DayFromYear(y) < 365 + LeapDays(y) && 0 <= LeapDays(y) <= 1
  {
    YearLength(YearFromDay(z));
  }

  /** Every valid date is the date of its own day number. */
  lemma DateRoundTrip(d: Date)
    requires ValidDate(d)
    ensures DateOfDay(DayFromDate(d)) == d
  {
    var z := DayFromDate(d);
    DateInYear(d);
    YearFromDayUnique(z, d.year);
    var leap := LeapDays(d.year);
    assert 0 <= leap <= 1;
    var dwy := MonthStart(d.month, leap) + d.day - 1;
    assert z - DayFromYear(d.year) == dwy;
    assert d.day <= MonthStart(d.month + 1, leap) - MonthStart(d.month, leap);
    MonthOfDayUnique(dwy, leap, d.month);
  }

  /** Exactly one month contains each day of the year. */
  lemma MonthOfDayUnique(dwy: int, leap: int, m: int)
    requires 0 <= leap <= 1 && 1 <= m <= 12
    requires MonthStart(m, leap) <= dwy < MonthStart(m + 1, leap)
    ensures 0 <= dwy < 365 + leap && MonthOfDayInYear(dwy, leap) == m
  {
    MonthStartMonotone(1, m, leap);
    MonthStartMonotone(m + 1, 13, leap);
  }

  /** Chronological order of dates. */
  predicate DateLt(a: Date, b: Date) {
    a.year < b.year ||
    (a.year == b.year && (a.month < b.month || (a.month == b.month && a.day < b.day)))
  }

  lemma DayFromDateOrder(a: Date, b: Date)
    requires ValidDate(a) && ValidDate(b) && DateLt(a, b)
    ensures DayFromDate(a) < DayFromDate(b)
  {
    if a.year < b.year {
      DateInYear(a);
      DateInYear(b);
      if a.year + 1 < b.year { DayFromYearMonotone(a.year + 1, b.year); }
      assert DayFromYear(a.year + 1) <= DayFromYear(b.year);
    } else if a.month < b.month {
      MonthStartMonotone(a.month + 1, b.month, LeapDays(a.year));
      assert MonthStart(a.month, LeapDays(a.year)) + a.day <= MonthStart(b.month, LeapDays(a.year));
    } else {
      assert a.day < b.day;
    }
  }

  /** A valid date's day number lies within its year. */
  lemma DateInYear(d: Date)
    requires ValidDate(d)
    ensures DayFromYear(d.year) <= DayFromDate(d) < DayFromYear(d.year + 1)
  {
    YearLength(d.year);
    MonthStartMonotone(d.month + 1, 13, LeapDays(d.year));
  }

  /** Months start in order. */
  lemma MonthStartMonotone(m1: int, m2: int, leap: int)
    requires 1 <= m1 <= m2 <= 13 && 0 <= leap <= 1
    ensures MonthStart(m1, leap) <= MonthStart(m2, leap)
  {
  }

  /** Day numbers and dates are in the same order. */
  lemma DateOfDayOrder(z1: int, z2: int)
    ensures z1 < z2 <==> DateLt(DateOfDay(z1), DateOfDay(z2))
  {
    var a, b := DateOfDay(z1), DateOfDay(z2);
    if DateLt(a, b) {
      DayFromDateOrder(a, b);
    } else if z1 < z2 {
      if a != b { DayFromDateOrder(b, a); }
    }
  }

  // ----- Time within the day -----

  function HourFromTime(t: int): int { (t / MsPerHour) % 24 }
  function MinFromTime(t: int): int { (t / MsPerMinute) % 60 }
  function SecFromTime(t: int): int { (t / MsPerSecond) % 60 }
  function MsFromTime(t: int): int { t % MsPerSecond }

  // ----- toISOString -----

  /** The year field: four digits for 0..9999, otherwise a sign and six digits. */
  function YearString(y: int): string {
    if 0 <= y <= 9999 then ZeroPad(y, 4)
    else if y < 0 then "-" + ZeroPad(-y, 6)
    else "+" + ZeroPad(y, 6)
  }

  /** `YYYY-MM-DD`, the full-date of RFC 3339 for four-digit years. */
  function DateString(d: Date): string
    requires ValidDate(d)
  {
    YearString(d.year) + "-" + ZeroPad(d.month, 2) + "-" + ZeroPad(d.day, 2)
  }

  /** `new Date(t).toISOString()`: `YYYY-MM-DDTHH:mm:ss.sssZ` in UTC. */
  function IsoString(t: int): string
    requires ValidTime(t)
  {
    DateString(DateOfDay(Day(t))) + TimeString(t)
  }

  /** `THH:mm:ss.sssZ`, the part of the ISO string after the date. */
  function TimeString(t: int): string {
    "T" + ZeroPad(HourFromTime(t), 2) + ":" + ZeroPad(MinFromTime(t), 2) + ":" +
    ZeroPad(SecFromTime(t), 2) + "." + ZeroPad(MsFromTime(t), 3) + "Z"
  }

  // ----- dayKey -----

  /** The number of the tracker day an instant falls in: days start at 04:00 UTC. */
  function DayIndex(t: int): (n: int)
    ensures n * MsPerDay + ResetMs <= t < (n + 1) * MsPerDay + ResetMs
  {
    (t - ResetMs) / MsPerDay
  }

  /** `dayKey(new Date(t))`. */
  function DayKey(t: int): string
    requires ValidTime(t - ResetMs)
  {
    var s := IsoString(t - ResetMs);
    assert |s| >= 10;
    s[..10]
  }

  /** Instants whose shifted date has a four-digit year (0000-01-01 to 9999-12-31, plus 4 h). */
  predicate FourDigitYear(t: int) {
    DayFromYear(0) <= DayIndex(t) < DayFromYear(10000)
  }

  lemma FourDigitYearRange(t: int)
    requires FourDigitYear(t)
    ensures ValidTime(t - ResetMs)
    ensures 0 <= DateOfDay(DayIndex(t)).year <= 9999
  {
    var z := DayIndex(t);
    var y := DateOfDay(z).year;
    if y < 0 {
      DayFromYearMonotone(y, 0);
      if y + 1 < 0 { DayFromYearMonotone(y + 1, 0); }
    } else if y > 9999 {
      DayFromYearMonotone(10000, y);
    }
  }

  /** For a four-digit year the key is exactly the `YYYY-MM-DD` date of the shifted instant. */
  lemma DayKeyIsDate(t: int)
    requires FourDigitYear(t)
    ensures ValidTime(t - ResetMs)
    ensures DayKey(t) == DateString(DateOfDay(DayIndex(t)))
    ensures |DayKey(t)| == 10
  {
    FourDigitYearRange(t);
    var d := DateOfDay(DayIndex(t));
    assert Day(t - ResetMs) == DayIndex(t);
    ZeroPadValue(d.year, 4);
    ZeroPadValue(d.month, 2);
    ZeroPadValue(d.day, 2);
    var ds := DateString(d);
    assert |ds| == 10;
    var s := IsoString(t - ResetMs);
    assert s == ds + TimeString(t - ResetMs);
    assert s[..10] == ds;
  }

  /** A key is before the 04:00 reset on its calendar date exactly when the UTC hour is below 4. */
  lemma DayIndexOfHour(t: int)
    ensures DayIndex(t) == Day(t) - (if HourFromTime(t) < ResetHour then 1 else 0)
  {
    var q, r := t / MsPerDay, t % MsPerDay;
    var h := r / MsPerHour;
    assert 0 <= h < 24;
    assert t == (24 * q + h) * MsPerHour + r % MsPerHour;
    assert t / MsPerHour == 24 * q + h;
    assert HourFromTime(t) == h;
    if h < ResetHour {
      assert t - ResetMs == (q - 1) * MsPerDay + (r + MsPerDay - ResetMs);
    } else {
      assert t - ResetMs == q * MsPerDay + (r - ResetMs);
    }
  }

  lemma Pow10Small()
    ensures Pow10(2) == 100 && Pow10(3) == 1000 && Pow10(4) == 10000 && Pow10(6) == 1000000
  {
    assert Pow10(1) == 10;
    assert Pow10(5) == 100000;
  }

  /** Three dash-separated fields of fixed widths compare field by field. */
  lemma DashedLt(a1: string, a2: string, a3: string, b1: string, b2: string, b3: string)
    requires |a1| == |b1| && |a2| == |b2|
    ensures Lt(a1 + "-" + a2 + "-" + a3, b1 + "-" + b2 + "-" + b3) <==>
      Lt(a1, b1) || (a1 == b1 && (Lt(a2, b2) || (a2 == b2 && Lt(a3, b3))))
    ensures a1 + "-" + a2 + "-" + a3 == b1 + "-" + b2 + "-" + b3 <==> a1 == b1 && a2 == b2 && a3 == b3
  {
    var ta, tb := a2 + "-" + a3, b2 + "-" + b3;
    assert a1 + "-" + a2 + "-" + a3 == a1 + ("-" + ta);
    assert b1 + "-" + b2 + "-" + b3 == b1 + ("-" + tb);
    assert ta == a2 + ("-" + a3) && tb == b2 + ("-" + b3);
    LtConcat(a1, "-" + ta, b1, "-" + tb);
    LtConcat("-", ta, "-", tb);
    LtConcat(a2, "-" + a3, b2, "-" + b3);
    LtConcat("-", a3, "-", b3);
    LtIrreflexive("-");
    LtIrreflexive(a1);
    LtIrreflexive(a2);
    LtIrreflexive(a3);
    var sa, sb := a1 + ("-" + ta), b1 + ("-" + tb);
    if sa == sb {
      assert a1 == sa[..|a1|] && b1 == sb[..|b1|];
      assert ta == sa[|a1| + 1..] && tb == sb[|b1| + 1..];
      assert a2 == ta[..|a2|] && b2 == tb[..|b2|];
      assert a3 == ta[|a2| + 1..] && b3 == tb[|b2| + 1..];
    }
  }

  /** Zero-padded fixed-width dates compare as strings in chronological order. */
  lemma DateStringOrder(a: Date, b: Date)
    requires ValidDate(a) && ValidDate(b)
    requires 0 <= a.year <= 9999 && 0 <= b.year <= 9999
    ensures Lt(DateString(a), DateString(b)) <==> DateLt(a, b)
    ensures DateString(a) == DateString(b) <==> a == b
  {
    var ya, ma, da := ZeroPad(a.year, 4), ZeroPad(a.month, 2), ZeroPad(a.day, 2);
    var yb, mb, db := ZeroPad(b.year, 4), ZeroPad(b.month, 2), ZeroPad(b.day, 2);
    assert DateString(a) == ya + "-" + ma + "-" + da;
    assert DateString(b) == yb + "-" + mb + "-" + db;
    assert (Lt(ya, yb) <==> a.year < b.year) && (ya == yb <==> a.year == b.year) by {
      Pow10Small();
      ZeroPadLt(a.year, b.year, 4);
    }
    assert (Lt(ma, mb) <==> a.month < b.month) && (ma == mb <==> a.month == b.month) by {
      Pow10Small();
      ZeroPadLt(a.month, b.month, 2);
    }
    assert (Lt(da, db) <==> a.day < b.day) && (da == db <==> a.day == b.day) by {
      Pow10Small();
      ZeroPadLt(a.day, b.day, 2);
    }
    assert |ya| == |yb| && |ma| == |mb| by {
      Pow10Small();
      ZeroPadLt(a.year, b.year, 4);
      ZeroPadLt(a.month, b.month, 2);
    }
    DashedLt(ya, ma, da, yb, mb, db);
  }

  /** Two instants get the same key exactly when they fall in the same 04:00-to-04:00 UTC window. */
  lemma DayKeySameWindow(t1: int, t2: int)
    requires FourDigitYear(t1) && FourDigitYear(t2)
    ensures ValidTime(t1 - ResetMs) && ValidTime(t2 - ResetMs)
    ensures DayKey(t1) == DayKey(t2) <==> DayIndex(t1) == DayIndex(t2)
  {
    DayKeyIsDate(t1);
    DayKeyIsDate(t2);
    FourDigitYearRange(t1);
    FourDigitYearRange(t2);
    DateStringOrder(DateOfDay(DayIndex(t1)), DateOfDay(DayIndex(t2)));
  }

  /** The string order of keys, which every `.sort()` of `state.days` uses, is chronological. */
  lemma DayKeyOrder(t1: int, t2: int)
    requires FourDigitYear(t1) && FourDigitYear(t2)
    ensures ValidTime(t1 - ResetMs) && ValidTime(t2 - ResetMs)
    ensures Lt(DayKey(t1), DayKey(t2)) <==> DayIndex(t1) < DayIndex(t2)
  {
    DayKeyIsDate(t1);
    DayKeyIsDate(t2);
    FourDigitYearRange(t1);
    FourDigitYearRange(t2);
    DateStringOrder(DateOfDay(DayIndex(t1)), DateOfDay(DayIndex(t2)));
    DateOfDayOrder(DayIndex(t1), DayIndex(t2));
  }

  /** 2024-01-10T03:00Z is still in the tracker day of 9 January. */
  lemma DayKeyBeforeReset()
    ensures DayKey(1704855600000) == "2024-01-09"
  {
    var t := 1704855600000;
    assert DayIndex(t) == 19731;
    DayKeyIsDate(t);
    NinthOfJanuary2024();
  }

  lemma NinthOfJanuary2024()
    ensures DateOfDay(19731) == Date(2024, 1, 9)
    ensures DateString(Date(2024, 1, 9)) == "2024-01-09"
  {
    assert DayFromYear(2024) == 19723 && DayFromYear(2025) == 20089;
    YearFromDayUnique(19731, 2024);
    assert LeapDays(2024) == 1;
    assert MonthOfDayInYear(8, 1) == 1;
    DateString2024();
  }

  lemma DateString2024()
    ensures DateString(Date(2024, 1, 9)) == "2024-01-09"
  {
    assert ZeroPad(2024, 4) == "2024" by {
      assert Decimal(2) == "2";
      assert Decimal(20) == Decimal(2) + "0" == "20";
      assert Decimal(202) == Decimal(20) + "2" == "202";
      assert Decimal(2024) == Decimal(202) + "4" == "2024";
    }
    assert ZeroPad(1, 2) == "01" by { assert Decimal(1) == "1"; }
    assert ZeroPad(9, 2) == "09" by { assert Decimal(9) == "9"; }
  }
}
