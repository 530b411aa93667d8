/**
  Day numbers and times of day as the converter prints them (`write_date`, `write_time` and the
  timestamp split), set against the proleptic Gregorian calendar itself.
 */
module Calendar {

  datatype Date = Date(y: int, m: int, d: int)

  predicate IsLeap(y: int) {
    y % 4 == 0 && (y % 100 != 0 || y % 400 == 0)
  }

  function DaysInMonth(y: int, m: int): int
    requires 1 <= m <= 12
  {
    if m == 2 then (if IsLeap(y) then 29 else 28)
    else if m == 4 || m == 6 || m == 9 || m == 11 then 30
    else 31
  }

  predicate ValidDate(t: Date) {
    1 <= t.m <= 12 && 1 <= t.d <= DaysInMonth(t.y, t.m)
  }

  /** The calendar's own successor: next day, else the first of the next month, else New Year's Day. */
  function NextDate(t: Date): Date
    requires ValidDate(t)
  {
    if t.d < DaysInMonth(t.y, t.m) then t.(d := t.d + 1)
    else if t.m < 12 then Date(t.y, t.m + 1, 1)
    else Date(t.y + 1, 1, 1)
  }

  /** The arithmetic of `write_date`, before it is printed. */
  function DateOf(days: int): Date {
    DateInEra((days + 71_9468) / 14_6097, (days + 71_9468) % 14_6097)
  }

  /** The date of a day of a 400-year era: year of era, day of year, month and day. */
  function DateInEra(era: int, doe: int): Date {
    var yoe := YearOfEra(doe);
    FromMarch(yoe + era * 400, doe - DaysBeforeYear(yoe))
  }

  /** Month and day from the day of a year that starts in March. */
  function FromMarch(y: int, doy: int): Date {
    var mp := (5 * doy + 2) / 153;
    var d := doy - (153 * mp + 2) / 5 + 1;
    var m := if mp < 10 then mp + 3 else mp - 9;
    Date(if m <= 2 then y + 1 else y, m, d)
  }

  function YearOfEra(doe: int): int {
    (doe - doe / 1460 + doe / 3_6524 - doe / 14_6096) / 365
  }

  /** Days before the `yoe`-th March of a 400-year era. */
  function DaysBeforeYear(yoe: int): int {
    365 * yoe + yoe / 4 - yoe / 100
  }

  /** Length of the March-to-February year: the leap day comes last, in the next calendar year. */
  function MarchYearLength(yoe: int): int {
    if IsLeap(yoe + 1) then 366 else 365
  }

  /** A day of an era lies in century `c`, four-year block `q` of it, and day `t` of that block. */
  lemma EraSplit(doe: int) returns (c: int, q: int, t: int)
    requires 0 <= doe < 14_6097
    ensures 0 <= c < 4 && 0 <= q < 25 && 0 <= t < 1461
    ensures doe == 3_6524 * c + 1461 * q + t
    ensures q == 24 && t == 1460 ==> c == 3
  {
    c := if doe == 14_6096 then 3 else doe / 3_6524;
    var r := doe - 3_6524 * c;
    q := r / 1461;
    t := r % 1461;
  }

  lemma YearOfEraOf(doe: int, c: int, q: int, t: int)
    requires 0 <= c < 4 && 0 <= q < 25 && 0 <= t < 1461
    requires doe == 3_6524 * c + 1461 * q + t
    requires q == 24 && t == 1460 ==> c == 3
    ensures YearOfEra(doe) == 100 * c + 4 * q + (if t == 1460 then 3 else t / 365)
  {
    var last := doe == 14_6096;
    assert last <==> c == 3 && q == 24 && t == 1460;
    assert doe / 3_6524 - doe / 14_6096 == c;
    var e := if 24 * c + q + t >= 1460 then 1 else 0;
    assert doe / 1460 == 25 * c + q + e;
    assert doe - doe / 1460 + doe / 3_6524 - doe / 14_6096 == 365 * (100 * c + 4 * q) + (t - e);
  }

  lemma DaysBeforeYearOf(c: int, q: int, k: int)
    requires 0 <= c < 4 && 0 <= q < 25 && 0 <= k < 4
    ensures DaysBeforeYear(100 * c + 4 * q + k) == 3_6524 * c + 1461 * q + 365 * k
  {
    assert (100 * c + 4 * q + k) / 4 == 25 * c + q;
    assert (100 * c + 4 * q + k) / 100 == c;
  }

  /** A 1461st day exists only in a block whose last March year ends with a leap day. */
  lemma BlockEndsWithLeapDay(c: int, q: int)
    requires 0 <= c < 4 && 0 <= q < 25 && (q == 24 ==> c == 3)
    ensures IsLeap(100 * c + 4 * q + 4)
  {
    var y := 100 * c + 4 * q + 4;
    assert y % 4 == 0;
    if q < 24 {
      assert y % 100 == 4 * q + 4;
    } else {
      assert y == 400;
    }
  }

  /** The year-of-era formula finds the March year that holds the day. */
  lemma YearOfEraLocates(doe: int)
    requires 0 <= doe < 14_6097
    ensures 0 <= YearOfEra(doe) < 400
    ensures DaysBeforeYear(YearOfEra(doe)) <= doe < DaysBeforeYear(YearOfEra(doe)) + MarchYearLength(YearOfEra(doe))
  {
    var c, q, t := EraSplit(doe);
    YearOfEraOf(doe, c, q, t);
    var k := if t == 1460 then 3 else t / 365;
    DaysBeforeYearOf(c, q, k);
    if t == 1460 {
      BlockEndsWithLeapDay(c, q);
    }
  }

  /** Leap years among the years 1 to `y`, extended to negative years. */
  function LeapsThrough(y: int): int {
    y / 4 - y / 100 + y / 400
  }

  /** Days from 1970-01-01 to the first of January of `y`. */
  function YearStart(y: int): int {
    365 * (y - 1970) + LeapsThrough(y - 1) - LeapsThrough(1969)
  }

  /** Days of the year before the first of month `m`. */
  function MonthStart(y: int, m: int): int
    requires 1 <= m <= 13
  {
    if m == 1 then 0 else MonthStart(y, m - 1) + DaysInMonth(y, m - 1)
  }

  /** The day count of a calendar date, by adding up whole years, whole months and days. */
  function DayNumber(t: Date): int
    requires ValidDate(t)
  {
    YearStart(t.y) + MonthStart(t.y, t.m) + t.d - 1
  }

  lemma QuotientStep(y: int, n: int)
    requires n == 4 || n == 100 || n == 400
    ensures y / n == (y - 1) / n + if y % n == 0 then 1 else 0
  {
  }

  lemma MultiplesNest(y: int)
    ensures y % 100 == 0 ==> y % 4 == 0
    ensures y % 400 == 0 ==> y % 100 == 0
  {
  }

  lemma YearStep(y: int)
    ensures YearStart(y + 1) == YearStart(y) + (if IsLeap(y) then 366 else 365)
    ensures LeapsThrough(y) == LeapsThrough(y - 1) + (if IsLeap(y) then 1 else 0)
  {
    QuotientStep(y, 4);
    QuotientStep(y, 100);
    QuotientStep(y, 400);
    MultiplesNest(y);
  }

  lemma {:induction false} MonthTable(y: int, m: int)
    requires 1 <= m <= 13
    ensures m <= 2 ==> MonthStart(y, m) == 31 * (m - 1)
    ensures m > 2 ==> MonthStart(y, m) == (153 * (m - 3) + 2) / 5 + 59 + if IsLeap(y) then 1 else 0
  {
    if m > 1 {
      MonthTable(y, m - 1);
    }
  }

  /** The count is a day count: it starts at 0 on 1970-01-01 and each next date adds one. */
  lemma DayNumberCounts(t: Date)
    requires ValidDate(t)
    ensures DayNumber(Date(1970, 1, 1)) == 0
    ensures ValidDate(NextDate(t)) && DayNumber(NextDate(t)) == DayNumber(t) + 1
  {
    YearStep(t.y);
    MonthTable(t.y, 13);
  }

  lemma WithinYear(t: Date)
    requires ValidDate(t)
    ensures YearStart(t.y) <= DayNumber(t) < YearStart(t.y + 1)
  {
    YearStep(t.y);
    MonthTable(t.y, t.m);
  }

  lemma {:induction false} YearsGrow(a: int, b: int)
    requires a <= b
    ensures YearStart(a) <= YearStart(b)
    decreases b - a
  {
    if a < b {
      YearsGrow(a, b - 1);
      YearStep(b - 1);
    }
  }

  lemma SameYear(t: Date, u: Date)
    requires ValidDate(t) && ValidDate(u) && DayNumber(t) == DayNumber(u)
    ensures t.y == u.y
  {
    WithinYear(t);
    WithinYear(u);
    if t.y < u.y {
      YearsGrow(t.y + 1, u.y);
    } else if u.y < t.y {
      YearsGrow(u.y + 1, t.y);
    }
  }

  lemma {:induction false} MonthsGrow(y: int, a: int, b: int)
    requires 1 <= a <= b <= 13
    ensures MonthStart(y, a) <= MonthStart(y, b)
    decreases b
  {
    if a < b {
      MonthsGrow(y, a, b - 1);
    }
  }

  /** Different dates have different day numbers. */
  lemma DayNumberInjective(t: Date, u: Date)
    requires ValidDate(t) && ValidDate(u) && DayNumber(t) == DayNumber(u)
    ensures t == u
  {
    SameYear(t, u);
    if t.m < u.m {
      MonthsGrow(t.y, t.m + 1, u.m);
    } else if u.m < t.m {
      MonthsGrow(t.y, u.m + 1, t.m);
    }
  }

  lemma MonthOfDay(doy: int)
    requires 0 <= doy < 366
    ensures 0 <= (5 * doy + 2) / 153 <= 11
    ensures (153 * ((5 * doy + 2) / 153) + 2) / 5 <= doy < (153 * ((5 * doy + 2) / 153 + 1) + 2) / 5
  {
  }

  lemma EraQuotients(era: int, yoe: int)
    requires 0 <= yoe < 400
    ensures (400 * era + yoe) / 4 == 100 * era + yoe / 4
    ensures (400 * era + yoe) / 100 == 4 * era + yoe / 100
    ensures (400 * era + yoe) / 400 == era
  {
  }

  lemma AddMultipleOf4(a: int, n: int)
    ensures (4 * a + n) % 4 == n % 4
  {
  }

  lemma AddMultipleOf100(a: int, n: int)
    ensures (100 * a + n) % 100 == n % 100
  {
  }

  lemma AddMultipleOf400(a: int, n: int)
    ensures (400 * a + n) % 400 == n % 400
  {
  }

  lemma LeapPeriod(era: int, yoe: int)
    requires 0 <= yoe < 400
    ensures IsLeap(400 * era + yoe + 1) <==> IsLeap(yoe + 1)
    ensures LeapsThrough(400 * era + yoe) == 97 * era + yoe / 4 - yoe / 100
  {
    EraQuotients(era, yoe);
    AddMultipleOf4(100 * era, yoe + 1);
    AddMultipleOf100(4 * era, yoe + 1);
    AddMultipleOf400(era, yoe + 1);
  }

  /** The day count of the first of March of a March year, from the era formula. */
  lemma MarchStart(era: int, yoe: int)
    requires 0 <= yoe < 400
    ensures YearStart(400 * era + yoe) + 59 + (if IsLeap(400 * era + yoe) then 1 else 0)
         == 14_6097 * era + DaysBeforeYear(yoe) - 71_9468
  {
    LeapPeriod(era, yoe);
    YearStep(400 * era + yoe);
  }

  /** Month and day from the day of the March year `y`. */
  lemma DateInMarchYear(y: int, doy: int)
    requires 0 <= doy < MarchYearLength(y)
    ensures ValidDate(FromMarch(y, doy))
    ensures DayNumber(FromMarch(y, doy)) == YearStart(y) + 59 + (if IsLeap(y) then 1 else 0) + doy
  {
    MonthOfDay(doy);
    YearStep(y);
    var t := FromMarch(y, doy);
    MonthTable(t.y, t.m);
  }

  lemma MarchDateInverts(era: int, yoe: int, doe: int)
    requires 0 <= yoe < 400
    requires DaysBeforeYear(yoe) <= doe < DaysBeforeYear(yoe) + MarchYearLength(yoe)
    ensures ValidDate(FromMarch(yoe + era * 400, doe - DaysBeforeYear(yoe)))
    ensures DayNumber(FromMarch(yoe + era * 400, doe - DaysBeforeYear(yoe))) == 14_6097 * era + doe - 71_9468
  {
    hide FromMarch, ValidDate, DayNumber, YearStart, DaysBeforeYear, LeapsThrough;
    MarchStart(era, yoe);
    LeapPeriod(era, yoe);
    DateInMarchYear(yoe + era * 400, doe - DaysBeforeYear(yoe));
  }

  lemma EraDateInverts(era: int, doe: int)
    requires 0 <= doe < 14_6097
    ensures ValidDate(DateInEra(era, doe))
    ensures DayNumber(DateInEra(era, doe)) == 14_6097 * era + doe - 71_9468
  {
    YearOfEraLocates(doe);
    MarchDateInverts(era, YearOfEra(doe), doe);
  }

  /** For every day number the printed date is a real date whose day count is that number. */
  lemma DateOfInverts(days: int)
    ensures ValidDate(DateOf(days))
    ensures DayNumber(DateOf(days)) == days
  {
    EraDateInverts((days + 71_9468) / 14_6097, (days + 71_9468) % 14_6097);
  }

  /** Every date is what its own day number prints as. */
  lemma DateOfDayNumber(t: Date)
    requires ValidDate(t)
    ensures DateOf(DayNumber(t)) == t
  {
    DateOfInverts(DayNumber(t));
    DayNumberInjective(DateOf(DayNumber(t)), t);
  }

  /** Consecutive day numbers print consecutive dates. */
  lemma DateOfSuccessor(days: int)
    ensures ValidDate(DateOf(days)) && DateOf(days + 1) == NextDate(DateOf(days))
  {
    DateOfInverts(days);
    DayNumberCounts(DateOf(days));
    DateOfDayNumber(NextDate(DateOf(days)));
  }

  const MICROS_PER_DAY := 86_400_000_000
  const NANOS_PER_DAY := 86_400_000_000_000
  const I64_MIN := -0x8000_0000_0000_0000
  const I64_MAX := 0x7FFF_FFFF_FFFF_FFFF

  /** Rust's `as i32`: keep the low 32 bits, read as a signed number. */
  function AsI32(n: int): int {
    (n + 0x8000_0000) % 0x1_0000_0000 - 0x8000_0000
  }

  datatype Clock = Clock(h: int, m: int, s: int, nanos: int)

  predicate ValidClock(c: Clock) {
    0 <= c.h < 24 && 0 <= c.m < 60 && 0 <= c.s < 60 && 0 <= c.nanos < 1_000_000_000
  }

  /** The arithmetic of `write_time`, before it is printed. */
  function ClockOf(nanos: int): Clock {
    var n := nanos % NANOS_PER_DAY;
    var h, afterHours := n / 3_600_000_000_000, n % 3_600_000_000_000;
    var m, afterMinutes := afterHours / 60_000_000_000, afterHours % 60_000_000_000;
    Clock(h, m, afterMinutes / 1_000_000_000, afterMinutes % 1_000_000_000)
  }

  function NanosOf(c: Clock): int {
    ((c.h * 60 + c.m) * 60 + c.s) * 1_000_000_000 + c.nanos
  }

  /** A time of day is printed exactly; outside one day it wraps. */
  lemma ClockOfInverts(nanos: int)
    ensures ValidClock(ClockOf(nanos))
    ensures NanosOf(ClockOf(nanos)) == nanos % NANOS_PER_DAY
    ensures 0 <= nanos < NANOS_PER_DAY ==> NanosOf(ClockOf(nanos)) == nanos
  {
  }

  /** What a timestamp prints: its date and its time of day. */
  function SplitMicros(micros: int): (Date, Clock) {
    (DateOf(AsI32(micros / MICROS_PER_DAY)), ClockOf(micros % MICROS_PER_DAY * 1_000))
  }

  lemma DaysFit(micros: int)
    requires I64_MIN <= micros <= I64_MAX
    ensures -106_751_992 <= micros / MICROS_PER_DAY <= 106_751_991
    ensures AsI32(micros / MICROS_PER_DAY) == micros / MICROS_PER_DAY
  {
  }

  /**
    Every 64-bit microsecond count splits into a real date and time of day that recompose to it;
    the narrowing of the day number to 32 bits loses nothing, and neither does the nanosecond product.
   */
  lemma SplitMicrosRecomposes(micros: int)
    requires I64_MIN <= micros <= I64_MAX
    ensures AsI32(micros / MICROS_PER_DAY) == micros / MICROS_PER_DAY
    ensures 0 <= micros % MICROS_PER_DAY * 1_000 <= I64_MAX
    ensures ValidDate(SplitMicros(micros).0) && ValidClock(SplitMicros(micros).1)
    ensures micros ==
            DayNumber(SplitMicros(micros).0) * MICROS_PER_DAY + NanosOf(SplitMicros(micros).1) / 1_000
    ensures NanosOf(SplitMicros(micros).1) % 1_000 == 0
  {
    DaysFit(micros);
    var days, rem := micros / MICROS_PER_DAY, micros % MICROS_PER_DAY;
    DateOfInverts(days);
    ClockOfInverts(rem * 1_000);
    assert NanosOf(SplitMicros(micros).1) == rem * 1_000;
  }

  /** Two 64-bit timestamps that print the same date and time are the same instant. */
  lemma SplitMicrosInjective(a: int, b: int)
    requires I64_MIN <= a <= I64_MAX && I64_MIN <= b <= I64_MAX
    requires SplitMicros(a) == SplitMicros(b)
    ensures a == b
  {
    SplitMicrosRecomposes(a);
    SplitMicrosRecomposes(b);
  }
}
