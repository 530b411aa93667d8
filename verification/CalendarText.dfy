/** The text of dates, times and timestamps: no two of them print the same. */
module CalendarText {
  import opened Calendar
  import opened Values
  import Columns
  import Decimal
  import Sequences

  // ---- Padded numbers. ----

  function Zeros(n: nat): string {
    seq(n, _ => '0')
  }

  /** `{n:0w}` of a number that is not negative. */
  function Padded(n: nat, width: nat): string {
    var digits := Decimal.Print(n);
    (if |digits| < width then Zeros(width - |digits|) else "") + digits
  }

  function Power(width: nat): nat {
    if width == 0 then 1 else 10 * Power(width - 1)
  }

  lemma {:induction false} PrintFits(n: nat, width: nat)
    requires 0 < width && n < Power(width)
    ensures |Decimal.Print(n)| <= width
    decreases width
  {
    if width == 1 {
      assert Power(1) == 10 * Power(0);
    } else if n >= 10 {
      PrintFits(n / 10, width - 1);
    }
  }

  lemma {:induction false} ZerosAdd(count: nat, digits: string)
    requires Decimal.AllDigits(digits)
    ensures Decimal.AllDigits(Zeros(count) + digits) && Decimal.Value(Zeros(count) + digits) == Decimal.Value(digits)
    decreases |digits|, count
  {
    var text := Zeros(count) + digits;
    if digits != "" {
      var front := digits[..|digits| - 1];
      ZerosAdd(count, front);
      assert text[..|text| - 1] == Zeros(count) + front;
    } else if count > 0 {
      ZerosAdd(count - 1, digits);
      assert text[..|text| - 1] == Zeros(count - 1) + digits;
    }
  }

  lemma PaddedShows(n: nat, width: nat)
    ensures Padded(n, width) != "" && Decimal.AllDigits(Padded(n, width)) && Decimal.Value(Padded(n, width)) == n
    ensures 0 < width && n < Power(width) ==> |Padded(n, width)| == width
  {
    var digits := Decimal.Print(n);
    Decimal.PrintThenValue(n);
    ZerosAdd(if |digits| < width then width - |digits| else 0, digits);
    assert Zeros(0) + digits == digits;
    if 0 < width && n < Power(width) {
      PrintFits(n, width);
    }
  }

  lemma PaddedTells(m: nat, n: nat, width: nat)
    requires Padded(m, width) == Padded(n, width)
    ensures m == n
  {
    PaddedShows(m, width);
    PaddedShows(n, width);
  }

  lemma TwoDigits(n: nat)
    requires n < 100
    ensures |Padded(n, 2)| == 2
  {
    PaddedShows(n, 2);
    assert Power(2) == 10 * Power(1) == 100 * Power(0);
  }

  // ---- Dates. ----

  /** `{y:04}`: the sign of a negative year is part of the width. */
  function YearText(y: int): string {
    if y < 0 then "-" + Padded(-y, 3) else Padded(y, 4)
  }

  function DateText(t: Date): string
    requires ValidDate(t)
  {
    YearText(t.y) + ("-" + Padded(t.m, 2) + "-" + Padded(t.d, 2))
  }

  predicate DateChars(s: string) {
    forall c | c in s :: c == '-' || Decimal.IsDigit(c)
  }

  lemma YearTells(y: int, z: int)
    requires YearText(y) == YearText(z)
    ensures y == z
  {
    PaddedShows(if y < 0 then -y else y, if y < 0 then 3 else 4);
    PaddedShows(if z < 0 then -z else z, if z < 0 then 3 else 4);
    if y < 0 {
      assert YearText(y)[0] == '-' && YearText(y)[1..] == Padded(-y, 3);
    }
    if z < 0 {
      assert YearText(z)[0] == '-' && YearText(z)[1..] == Padded(-z, 3);
    }
  }

  lemma DateTextChars(t: Date)
    requires ValidDate(t)
    ensures DateChars(DateText(t))
  {
    hide Padded, Decimal.Value;
    PaddedShows(if t.y < 0 then -t.y else t.y, if t.y < 0 then 3 else 4);
    PaddedShows(t.m, 2);
    PaddedShows(t.d, 2);
  }

  lemma DateTells(t: Date, u: Date)
    requires ValidDate(t) && ValidDate(u) && DateText(t) == DateText(u)
    ensures t == u
  {
    hide Padded, YearText;
    TwoDigits(t.m);
    TwoDigits(t.d);
    TwoDigits(u.m);
    TwoDigits(u.d);
    var a, b := YearText(t.y), YearText(u.y);
    var x, y := "-" + Padded(t.m, 2) + "-" + Padded(t.d, 2), "-" + Padded(u.m, 2) + "-" + Padded(u.d, 2);
    assert |x| == 6 && |y| == 6;
    assert a == DateText(t)[..|DateText(t)| - 6] && b == DateText(u)[..|DateText(u)| - 6];
    assert x == DateText(t)[|a|..] && y == DateText(u)[|b|..];
    assert x[1..3] == Padded(t.m, 2) && y[1..3] == Padded(u.m, 2);
    assert x[4..] == Padded(t.d, 2) && y[4..] == Padded(u.d, 2);
    YearTells(t.y, u.y);
    PaddedTells(t.m, u.m, 2);
    PaddedTells(t.d, u.d, 2);
  }

  /** A stretch of a text is these digits, standing for this number. */
  predicate Reads(text: string, from: nat, to: nat, n: nat) {
    && from < to <= |text|
    && Decimal.AllDigits(text[from..to]) && Decimal.Value(text[from..to]) == n
  }

  /**
    A date reads `year-month-day`: two digits each for month and day, and for the year at least four,
    or a minus sign and at least three when it is negative.
   */
  lemma DateReads(t: Date)
    requires ValidDate(t)
    ensures var text, n := DateText(t), |DateText(t)| - 6;
            && n >= 4 && text[n] == '-' && text[n + 3] == '-'
            && Reads(text, n + 1, n + 3, t.m) && Reads(text, n + 4, n + 6, t.d)
            && (t.y >= 0 ==> Reads(text, 0, n, t.y))
            && (t.y < 0 ==> text[0] == '-' && Reads(text, 1, n, -t.y))
            && (-1_000 < t.y < 10_000 ==> n == 4)
  {
    hide Padded, Decimal.Value;
    var text, n := DateText(t), |YearText(t.y)|;
    TwoDigits(t.m);
    TwoDigits(t.d);
    PaddedShows(t.m, 2);
    PaddedShows(t.d, 2);
    YearReads(t.y);
    assert text[..n] == YearText(t.y) && text[n..] == "-" + Padded(t.m, 2) + "-" + Padded(t.d, 2);
    assert text[n + 1..n + 3] == Padded(t.m, 2);
    assert text[n + 4..n + 6] == Padded(t.d, 2);
    assert text[1..n] == YearText(t.y)[1..];
  }

  lemma YearReads(y: int)
    ensures var text := YearText(y);
            && |text| >= 4 && (-1_000 < y < 10_000 ==> |text| == 4)
            && (y >= 0 ==> Decimal.AllDigits(text) && Decimal.Value(text) == y)
            && (y < 0 ==> text[0] == '-' && Decimal.AllDigits(text[1..]) && Decimal.Value(text[1..]) == -y)
  {
    hide Decimal.Value;
    assert Power(4) == 10 * Power(3) == 100 * Power(2) == 1_000 * Power(1) == 10_000 * Power(0);
    if y < 0 {
      PaddedShows(-y, 3);
      PaddedWide(-y, 3);
      assert YearText(y)[1..] == Padded(-y, 3);
    } else {
      PaddedShows(y, 4);
      PaddedWide(y, 4);
    }
  }

  lemma PaddedWide(n: nat, width: nat)
    ensures |Padded(n, width)| >= width
  {
  }

  // ---- Times. ----

  function SecondsText(c: Clock): string
    requires ValidClock(c)
  {
    Padded(c.h, 2) + ":" + Padded(c.m, 2) + ":" + Padded(c.s, 2)
  }

  function FractionText(c: Clock): string
    requires ValidClock(c)
  {
    if c.nanos == 0 then "" else "." + Padded(c.nanos, 9)
  }

  function TimeText(c: Clock): string
    requires ValidClock(c)
  {
    SecondsText(c) + FractionText(c)
  }

  /** What may follow a time: nothing that could still be a fraction. */
  predicate NoFraction(rest: string) {
    rest == "" || rest[0] != '.'
  }

  lemma SecondsTell(c: Clock, x: string, e: Clock, y: string)
    requires ValidClock(c) && ValidClock(e) && SecondsText(c) + x == SecondsText(e) + y
    ensures c.h == e.h && c.m == e.m && c.s == e.s && x == y
  {
    hide Padded;
    TwoDigits(c.h);
    TwoDigits(c.m);
    TwoDigits(c.s);
    TwoDigits(e.h);
    TwoDigits(e.m);
    TwoDigits(e.s);
    var text := SecondsText(c) + x;
    assert text[..2] == Padded(c.h, 2) && text[..2] == Padded(e.h, 2);
    assert text[3..5] == Padded(c.m, 2) && text[3..5] == Padded(e.m, 2);
    assert text[6..8] == Padded(c.s, 2) && text[6..8] == Padded(e.s, 2);
    assert text[8..] == x && text[8..] == y;
    PaddedTells(c.h, e.h, 2);
    PaddedTells(c.m, e.m, 2);
    PaddedTells(c.s, e.s, 2);
  }

  lemma NineDigits(n: nat)
    requires n < 1_000_000_000
    ensures |Padded(n, 9)| == 9
  {
    PaddedShows(n, 9);
    assert Power(3) == 10 * Power(2) == 100 * Power(1) == 1_000 * Power(0);
    assert Power(6) == 10 * Power(5) == 100 * Power(4) == 1_000 * Power(3);
    assert Power(9) == 10 * Power(8) == 100 * Power(7) == 1_000 * Power(6);
  }

  lemma FractionTells(c: Clock, x: string, e: Clock, y: string)
    requires ValidClock(c) && ValidClock(e) && NoFraction(x) && NoFraction(y)
    requires FractionText(c) + x == FractionText(e) + y
    ensures c.nanos == e.nanos && x == y
  {
    hide Padded;
    NineDigits(c.nanos);
    NineDigits(e.nanos);
    var text := FractionText(c) + x;
    assert c.nanos == 0 ==> text == x;
    assert e.nanos == 0 ==> text == y;
    if c.nanos != 0 {
      assert text[0] == '.' && text[1..10] == Padded(c.nanos, 9) && text[10..] == x;
    }
    if e.nanos != 0 {
      assert text[0] == '.' && text[1..10] == Padded(e.nanos, 9) && text[10..] == y;
    }
    if c.nanos != 0 && e.nanos != 0 {
      PaddedTells(c.nanos, e.nanos, 9);
    }
  }

  /** A time and what follows it can be told apart. */
  lemma TimeTells(c: Clock, x: string, e: Clock, y: string)
    requires ValidClock(c) && ValidClock(e) && NoFraction(x) && NoFraction(y)
    requires TimeText(c) + x == TimeText(e) + y
    ensures c == e && x == y
  {
    hide SecondsText, FractionText;
    assert TimeText(c) + x == SecondsText(c) + (FractionText(c) + x);
    assert TimeText(e) + y == SecondsText(e) + (FractionText(e) + y);
    SecondsTell(c, FractionText(c) + x, e, FractionText(e) + y);
    FractionTells(c, x, e, y);
  }

  /** A time reads `hour:minute:second` in two digits each, and then a point and nine digits unless the second is whole. */
  lemma TimeReads(c: Clock)
    requires ValidClock(c)
    ensures var text := TimeText(c);
            && |text| == (if c.nanos == 0 then 8 else 18)
            && text[2] == ':' && text[5] == ':'
            && Reads(text, 0, 2, c.h) && Reads(text, 3, 5, c.m) && Reads(text, 6, 8, c.s)
            && (c.nanos != 0 ==> text[8] == '.' && Reads(text, 9, 18, c.nanos))
  {
    hide Padded, Decimal.Value;
    TwoDigits(c.h);
    TwoDigits(c.m);
    TwoDigits(c.s);
    NineDigits(c.nanos);
    PaddedShows(c.h, 2);
    PaddedShows(c.m, 2);
    PaddedShows(c.s, 2);
    PaddedShows(c.nanos, 9);
    var text := TimeText(c);
    assert text[..8] == SecondsText(c) && text[8..] == FractionText(c);
    assert text[0..2] == Padded(c.h, 2) && text[3..5] == Padded(c.m, 2) && text[6..8] == Padded(c.s, 2);
    assert c.nanos != 0 ==> text[9..18] == Padded(c.nanos, 9);
  }

  // ---- Timestamps. ----

  /** What a timestamp carries of its zone. */
  function ZoneText(tz: TzSpec): string {
    match tz
    case Naive => ""
    case Utc => "Z"
    case Named(name) => "[" + name + "]"
    case Offset(minutes) => Columns.OffsetName(minutes)
  }

  lemma OffsetIsPadded(minutes: int)
    ensures var m := if minutes < 0 then -minutes else minutes;
            Columns.OffsetName(minutes)
            == [if minutes < 0 then '-' else '+'] + (Padded(m / 60, 2) + ":" + Padded(m % 60, 2))
  {
    var m := if minutes < 0 then -minutes else minutes;
    TwoDigitsPadded(m % 60);
    if m < 6000 {
      TwoDigitsPadded(m / 60);
    } else {
      LongPadded(m / 60);
    }
  }

  lemma TwoDigitsPadded(n: nat)
    requires n < 100
    ensures Columns.TwoDigits(n) == Padded(n, 2)
  {
    if n < 10 {
      assert Zeros(1) == "0";
    } else {
      assert Decimal.Print(n / 10) == [Decimal.DigitChar(n / 10)];
    }
  }

  lemma LongPadded(n: nat)
    requires n >= 100
    ensures Decimal.Print(n) == Padded(n, 2)
  {
    assert Decimal.Print(n / 10) != "";
  }

  /** An offset reads as its sign, at least two digits of hours, a colon, and two digits of minutes. */
  lemma OffsetReads(minutes: int)
    ensures var text, n := Columns.OffsetName(minutes), |Columns.OffsetName(minutes)| - 3;
            && n >= 3 && text[0] == (if minutes < 0 then '-' else '+') && text[n] == ':'
            && Reads(text, 1, n, (if minutes < 0 then -minutes else minutes) / 60)
            && Reads(text, n + 1, n + 3, (if minutes < 0 then -minutes else minutes) % 60)
            && (-6_000 < minutes < 6_000 ==> n == 3)
  {
    hide Padded, Decimal.Value, Columns.OffsetName;
    var m := if minutes < 0 then -minutes else minutes;
    var text, n := Columns.OffsetName(minutes), 1 + |Padded(m / 60, 2)|;
    OffsetIsPadded(minutes);
    TwoDigits(m % 60);
    PaddedShows(m % 60, 2);
    PaddedShows(m / 60, 2);
    PaddedWide(m / 60, 2);
    if m < 6_000 {
      TwoDigits(m / 60);
    }
    assert text[1..n] == Padded(m / 60, 2) && text[n + 1..n + 3] == Padded(m % 60, 2);
  }

  lemma OffsetTells(m: int, n: int)
    requires Columns.OffsetName(m) == Columns.OffsetName(n)
    ensures m == n
  {
    hide Padded, Columns.OffsetName;
    var a, b := if m < 0 then -m else m, if n < 0 then -n else n;
    OffsetIsPadded(m);
    OffsetIsPadded(n);
    TwoDigits(a % 60);
    TwoDigits(b % 60);
    var x, y := Padded(a / 60, 2) + ":" + Padded(a % 60, 2), Padded(b / 60, 2) + ":" + Padded(b % 60, 2);
    assert Columns.OffsetName(m)[1..] == x && Columns.OffsetName(n)[1..] == y;
    assert Columns.OffsetName(m)[0] == (if m < 0 then '-' else '+');
    assert Columns.OffsetName(n)[0] == (if n < 0 then '-' else '+');
    assert x[..|x| - 3] == Padded(a / 60, 2) && y[..|y| - 3] == Padded(b / 60, 2);
    assert x[|x| - 2..] == Padded(a % 60, 2) && y[|y| - 2..] == Padded(b % 60, 2);
    PaddedTells(a / 60, b / 60, 2);
    PaddedTells(a % 60, b % 60, 2);
  }

  lemma ZoneTells(a: TzSpec, b: TzSpec)
    requires ZoneText(a) == ZoneText(b)
    ensures a == b
  {
    ZoneStarts(a);
    ZoneStarts(b);
    if a.Named? {
      assert ZoneText(a)[1..|ZoneText(a)| - 1] == a.name && ZoneText(b)[1..|ZoneText(b)| - 1] == b.name;
    } else if a.Offset? {
      OffsetTells(a.minutes, b.minutes);
    }
  }

  lemma ZoneStarts(tz: TzSpec)
    ensures NoFraction(ZoneText(tz))
    ensures ZoneText(tz) == "" <==> tz.Naive?
    ensures tz.Utc? ==> ZoneText(tz)[0] == 'Z'
    ensures tz.Named? ==> ZoneText(tz)[0] == '['
    ensures tz.Offset? ==> ZoneText(tz)[0] == '+' || ZoneText(tz)[0] == '-'
  {
  }

  function TimestampText(micros: Int64, tz: TzSpec): string {
    SplitMicrosRecomposes(micros);
    var (date, clock) := SplitMicros(micros);
    DateText(date) + ['T'] + (TimeText(clock) + ZoneText(tz))
  }

  /** A timestamp reads as the date and time of day of its instant, with a T between them and its zone after. */
  lemma TimestampReads(micros: Int64, tz: TzSpec) returns (date: Date, clock: Clock)
    ensures ValidDate(date) && ValidClock(clock)
    ensures TimestampText(micros, tz) == DateText(date) + "T" + TimeText(clock) + ZoneText(tz)
    ensures 1_000 * micros == DayNumber(date) * NANOS_PER_DAY + NanosOf(clock)
    ensures match tz
            case Naive => ZoneText(tz) == ""
            case Utc => ZoneText(tz) == "Z"
            case Named(name) => ZoneText(tz) == "[" + name + "]"
            case Offset(minutes) => ZoneText(tz) == Columns.OffsetName(minutes)
  {
    hide DateText, TimeText;
    SplitMicrosRecomposes(micros);
    date, clock := SplitMicros(micros).0, SplitMicros(micros).1;
    assert DateText(date) + ['T'] + (TimeText(clock) + ZoneText(tz)) == DateText(date) + "T" + TimeText(clock) + ZoneText(tz);
  }

  /** Two timestamps with the same text are the same instant in the same zone. */
  lemma TimestampTells(a: Int64, tz: TzSpec, b: Int64, zone: TzSpec)
    requires TimestampText(a, tz) == TimestampText(b, zone)
    ensures a == b && tz == zone
  {
    hide DateText, TimeText, ZoneText, SplitMicros;
    SplitMicrosRecomposes(a);
    SplitMicrosRecomposes(b);
    var (t, c) := SplitMicros(a);
    var (u, e) := SplitMicros(b);
    DateTextChars(t);
    DateTextChars(u);
    assert 'T' !in DateText(t) && 'T' !in DateText(u);
    Sequences.SplitsAtFirst('T', DateText(t), TimeText(c) + ZoneText(tz), DateText(u), TimeText(e) + ZoneText(zone));
    ZoneStarts(tz);
    ZoneStarts(zone);
    DateTells(t, u);
    TimeTells(c, ZoneText(tz), e, ZoneText(zone));
    ZoneTells(tz, zone);
    SplitMicrosInjective(a, b);
  }

  /** Two days print the same exactly when they are the same day. */
  lemma DayTells(a: int, b: int)
    ensures ValidDate(DateOf(a)) && ValidDate(DateOf(b))
    ensures DateText(DateOf(a)) == DateText(DateOf(b)) <==> a == b
  {
    DateOfInverts(a);
    DateOfInverts(b);
    if DateText(DateOf(a)) == DateText(DateOf(b)) {
      DateTells(DateOf(a), DateOf(b));
    }
  }

  /** Two times of day print the same exactly when they are the same nanosecond of a day. */
  lemma ClockTells(a: int, b: int)
    ensures ValidClock(ClockOf(a)) && ValidClock(ClockOf(b))
    ensures TimeText(ClockOf(a)) == TimeText(ClockOf(b)) <==> a % NANOS_PER_DAY == b % NANOS_PER_DAY
  {
    ClockOfInverts(a);
    ClockOfInverts(b);
    if TimeText(ClockOf(a)) == TimeText(ClockOf(b)) {
      assert TimeText(ClockOf(a)) + "" == TimeText(ClockOf(b)) + "";
      TimeTells(ClockOf(a), "", ClockOf(b), "");
    }
  }
}
