/** UTC timestamps (src/observability.rs): the closed-form calendar against a calendar that counts. The counted
    calendar goes from one day, and one second, to the next by the rules of RFC 3339; the closed form computes
    year, month and day from the number of days with corrected divisions. They are equal for every count of
    seconds, and the text printed orders moments as time does until the year needs a fifth digit. */
module Calendar {

  datatype Date = Date(year: int, month: int, day: int)

  datatype Moment = Moment(date: Date, hour: int, minute: int, second: int)

  // ---- the Gregorian calendar, counted day by day and second by second ----

  /** Appendix C of RFC 3339. */
  predicate Leap(year: int) {
    year % 4 == 0 && (year % 100 != 0 || year % 400 == 0)
  }

  function DaysInMonth(year: int, month: int): int {
    if month == 2 then (if Leap(year) then 29 else 28)
    else if month == 4 || month == 6 || month == 9 || month == 11 then 30
    else 31
  }

  /** The field ranges of section 5.7 of RFC 3339, without leap seconds. */
  predicate ValidDate(d: Date) {
    1 <= d.month <= 12 && 1 <= d.day <= DaysInMonth(d.year, d.month)
  }

  predicate ValidMoment(m: Moment) {
    ValidDate(m.date) && 0 <= m.hour < 24 && 0 <= m.minute < 60 && 0 <= m.second < 60
  }

  function NextDay(d: Date): Date {
    if d.day < DaysInMonth(d.year, d.month) then d.(day := d.day + 1)
    else if d.month < 12 then Date(d.year, d.month + 1, 1)
    else Date(d.year + 1, 1, 1)
  }

  function NextSecond(m: Moment): Moment {
    if m.second < 59 then m.(second := m.second + 1)
    else if m.minute < 59 then m.(minute := m.minute + 1, second := 0)
    else if m.hour < 23 then m.(hour := m.hour + 1, minute := 0, second := 0)
    else Moment(NextDay(m.date), 0, 0, 0)
  }

  function DateAfter(days: nat): Date {
    if days == 0 then Date(1970, 1, 1) else NextDay(DateAfter(days - 1))
  }

  function MomentAfter(seconds: nat): Moment {
    if seconds == 0 then Moment(Date(1970, 1, 1), 0, 0, 0) else NextSecond(MomentAfter(seconds - 1))
  }

  // ---- the closed form ----

  function YearOfEra(doe: int): int {
    (doe - doe / 1460 + doe / 36524 - doe / 146096) / 365
  }

  function MonthPrime(doy: int): int {
    (5 * doy + 2) / 153
  }

  function CivilFromDays(days: int): Date {
    var z := days + 719468;
    var era := (if z >= 0 then z else z - 146096) / 146097;
    CivilOfEra(era, z - era * 146097)
  }

  function CivilOfEra(era: int, doe: int): Date {
    var yoe := YearOfEra(doe);
    var year := yoe + era * 400;
    var doy := doe - (365 * yoe + yoe / 4 - yoe / 100);
    var mp := MonthPrime(doy);
    var day := doy - (153 * mp + 2) / 5 + 1;
    var month := mp + (if mp < 10 then 3 else -9);
    Date(year + (if month <= 2 then 1 else 0), month, day)
  }

  function MomentOn(date: Date, daySeconds: int): Moment {
    Moment(date, daySeconds / 3600, (daySeconds % 3600) / 60, daySeconds % 60)
  }

  function MomentAt(seconds: nat): Moment {
    MomentOn(CivilFromDays(seconds / 86400), seconds % 86400)
  }

  /** The inverse: days since 1970-01-01 of a date, years counted from March. */
  function DaysFromCivil(d: Date): int {
    DayNumber(MarchYear(d), MarchMonth(d), d.day)
  }

  function MarchYear(d: Date): int {
    if d.month <= 2 then d.year - 1 else d.year
  }

  function MarchMonth(d: Date): int {
    if d.month <= 2 then d.month + 9 else d.month - 3
  }

  function DayNumber(marchYear: int, mp: int, day: int): int {
    marchYear / 400 * 146097 + DayOfEra(marchYear % 400, MonthStart(mp) + day - 1) - 719468
  }

  /** Days of the March year before month `mp`. */
  function MonthStart(mp: int): int {
    (153 * mp + 2) / 5
  }

  function DayOfEra(yoe: int, doy: int): int {
    365 * yoe + yoe / 4 - yoe / 100 + doy
  }

  /** A day of the year that starts in March of year `yoe` of its era; the leap day, if any, is last. */
  predicate DayOfMarchYear(yoe: int, doy: int) {
    0 <= yoe < 400 && 0 <= doy <= (if Leap(yoe + 1) then 365 else 364)
  }

  /** The correction terms 1460, 36524 and 146096 recover the year of the era from its day exactly. */
  lemma YearRecovered(yoe: int, doy: int)
    requires DayOfMarchYear(yoe, doy)
    ensures YearOfEra(DayOfEra(yoe, doy)) == yoe
    ensures 0 <= DayOfEra(yoe, doy) < 146097
  {
    var c, q, r := yoe / 100, yoe % 100 / 4, yoe % 4;
    var doe := DayOfEra(yoe, doy);
    YearParts(yoe);
    assert doe == 36524 * c + 1461 * q + 365 * r + doy;
    var rest := 24 * c + q + 365 * r + doy;
    assert doe == 1460 * (25 * c + q) + rest;
    LeapYearParts(c, q, r);
    assert rest < 2 * 1460;
    assert doe / 1460 == 25 * c + q + (if rest >= 1460 then 1 else 0);
    CenturyCorrection(c, q, r, doy);
  }

  lemma YearParts(yoe: int)
    requires 0 <= yoe < 400
    ensures var c, q, r := yoe / 100, yoe % 100 / 4, yoe % 4;
            0 <= c <= 3 && 0 <= q <= 24 && 0 <= r <= 3 && yoe == 100 * c + 4 * q + r && yoe / 4 == 25 * c + q
  {
  }

  lemma RemaindersOfYear(c: int, q: int, r: int)
    requires 0 <= c <= 3 && 0 <= q <= 24 && 0 <= r <= 3
    ensures var y := 100 * c + 4 * q + r + 1;
            && (y % 4 == 0 <==> r == 3)
            && (y % 100 == 0 <==> r == 3 && q == 24)
            && (y % 400 == 0 <==> r == 3 && q == 24 && c == 3)
  {
    var y := 100 * c + 4 * q + r + 1;
    assert y % 4 == (r + 1) % 4;
    assert y % 100 == (4 * q + r + 1) % 100;
  }

  lemma LeapYearParts(c: int, q: int, r: int)
    requires 0 <= c <= 3 && 0 <= q <= 24 && 0 <= r <= 3
    ensures Leap(100 * c + 4 * q + r + 1) <==> r == 3 && (q != 24 || c == 3)
  {
    RemaindersOfYear(c, q, r);
  }

  lemma CenturyCorrection(c: int, q: int, r: int, doy: int)
    requires 0 <= c <= 3 && 0 <= q <= 24 && 0 <= r <= 3
    requires 0 <= doy <= (if r == 3 && (q != 24 || c == 3) then 365 else 364)
    ensures var doe := 36524 * c + 1461 * q + 365 * r + doy;
            0 <= doe < 146097 && doe / 36524 - doe / 146096 == c
  {
    var within := 1461 * q + 365 * r + doy;
    assert within <= 1461 * 24 + 365 * 3 + 365;
    if within <= 36523 {
      assert (36524 * c + within) / 36524 == c;
    } else {
      assert c == 3;
    }
  }

  function MarchMonthLength(mp: int): int {
    if mp == 11 then 29 else if mp == 1 || mp == 3 || mp == 6 || mp == 8 then 30 else 31
  }

  lemma MonthStarts(mp: int)
    requires 0 <= mp <= 11
    ensures MonthStart(mp) == [0, 31, 61, 92, 122, 153, 184, 214, 245, 275, 306, 337][mp]
  {
  }

  /** Months of 31, 30, 31, 30, 31 days from March on: the day of the year gives back month and day. */
  lemma MonthRecovered(mp: int, day: int)
    requires 0 <= mp <= 11 && 1 <= day <= MarchMonthLength(mp)
    ensures var doy := MonthStart(mp) + day - 1;
            MonthPrime(doy) == mp && 0 <= doy <= 365 && (doy == 365 <==> mp == 11 && day == 29)
  {
    MonthStarts(mp);
    assert mp == 0 || mp == 1 || mp == 2 || mp == 3 || mp == 4 || mp == 5
        || mp == 6 || mp == 7 || mp == 8 || mp == 9 || mp == 10 || mp == 11;
  }

  lemma CivilOfEraDay(era: int, yoe: int, mp: int, day: int)
    requires 0 <= mp <= 11 && 1 <= day <= MarchMonthLength(mp)
    requires DayOfMarchYear(yoe, MonthStart(mp) + day - 1)
    ensures 0 <= DayOfEra(yoe, MonthStart(mp) + day - 1) < 146097
    ensures CivilOfEra(era, DayOfEra(yoe, MonthStart(mp) + day - 1))
         == Date(400 * era + yoe + (if mp < 10 then 0 else 1), if mp < 10 then mp + 3 else mp - 9, day)
  {
    MonthRecovered(mp, day);
    YearRecovered(yoe, MonthStart(mp) + day - 1);
  }

  lemma EraRecovered(era: int, doe: int)
    requires 0 <= era && 0 <= doe < 146097
    ensures CivilFromDays(era * 146097 + doe - 719468) == CivilOfEra(era, doe)
  {
    var z := era * 146097 + doe;
    assert z / 146097 == era;
  }

  lemma CivilOfParts(era: int, yoe: int, mp: int, day: int, doe: int)
    requires 0 <= era && 0 <= mp <= 11 && 1 <= day <= MarchMonthLength(mp)
    requires DayOfMarchYear(yoe, MonthStart(mp) + day - 1) && doe == DayOfEra(yoe, MonthStart(mp) + day - 1)
    ensures CivilFromDays(era * 146097 + doe - 719468)
         == Date(400 * era + yoe + (if mp < 10 then 0 else 1), if mp < 10 then mp + 3 else mp - 9, day)
  {
    CivilOfEraDay(era, yoe, mp, day);
    EraRecovered(era, doe);
  }

  lemma MarchYearOfEra(y: int, mp: int, day: int)
    requires 0 <= mp <= 11
    requires 1 <= day <= (if mp == 11 && !Leap(y + 1) then 28 else MarchMonthLength(mp))
    ensures DayOfMarchYear(y % 400, MonthStart(mp) + day - 1)
  {
    LeapOfEra(y);
    MonthStarts(mp);
  }

  lemma CivilOfDayNumber(y: int, mp: int, day: int)
    requires 0 <= y && 0 <= mp <= 11
    requires 1 <= day <= (if mp == 11 && !Leap(y + 1) then 28 else MarchMonthLength(mp))
    ensures CivilFromDays(DayNumber(y, mp, day))
         == Date(y + (if mp < 10 then 0 else 1), if mp < 10 then mp + 3 else mp - 9, day)
  {
    var era, yoe := y / 400, y % 400;
    MarchYearOfEra(y, mp, day);
    CivilOfParts(era, yoe, mp, day, DayOfEra(yoe, MonthStart(mp) + day - 1));
  }

  /** January and February end the March year before. */
  lemma CivilInvertsWinter(d: Date)
    requires ValidDate(d) && 1 <= d.year && d.month <= 2
    ensures CivilFromDays(DaysFromCivil(d)) == d
  {
    CivilOfDayNumber(d.year - 1, d.month + 9, d.day);
  }

  lemma CivilInvertsRest(d: Date)
    requires ValidDate(d) && 1 <= d.year && d.month > 2
    ensures CivilFromDays(DaysFromCivil(d)) == d
  {
    CivilOfDayNumber(d.year, d.month - 3, d.day);
  }

  lemma CivilInvertsDays(d: Date)
    requires ValidDate(d) && 1 <= d.year
    ensures CivilFromDays(DaysFromCivil(d)) == d
  {
    if d.month <= 2 {
      CivilInvertsWinter(d);
    } else {
      CivilInvertsRest(d);
    }
  }

  lemma LeapOfEra(y: int)
    ensures Leap(y + 1) <==> Leap(y % 400 + 1)
  {
    var e, x := y / 400, y % 400 + 1;
    Remainder4(y + 1, x, 100 * e);
    Remainder100(y + 1, x, 4 * e);
    Remainder400(y + 1, x, e);
  }

  lemma Remainder4(n: int, x: int, k: int)
    requires n == 4 * k + x
    ensures n % 4 == x % 4
  {
  }

  lemma Remainder100(n: int, x: int, k: int)
    requires n == 100 * k + x
    ensures n % 100 == x % 100
  {
  }

  lemma Remainder400(n: int, x: int, k: int)
    requires n == 400 * k + x
    ensures n % 400 == x % 400
  {
  }

  lemma NextDayIsValid(d: Date)
    requires ValidDate(d)
    ensures ValidDate(NextDay(d)) && d.year <= NextDay(d).year
  {
  }

  lemma NextDayWithinMonth(d: Date)
    requires ValidDate(d) && d.day < DaysInMonth(d.year, d.month)
    ensures DaysFromCivil(NextDay(d)) == DaysFromCivil(d) + 1
  {
    NextInMonth(MarchYear(d), MarchMonth(d), d.day);
  }

  lemma NextDayAfterMonth(d: Date)
    requires ValidDate(d) && 1 <= d.year && d.day == DaysInMonth(d.year, d.month)
    ensures DaysFromCivil(NextDay(d)) == DaysFromCivil(d) + 1
  {
    if d.month == 2 {
      YearFollows(MarchYear(d));
    } else {
      assert MarchYear(NextDay(d)) == MarchYear(d) && MarchMonth(NextDay(d)) == MarchMonth(d) + 1;
      MonthFollows(MarchYear(d), MarchMonth(d));
    }
  }

  lemma NextDayIsOneLater(d: Date)
    requires ValidDate(d) && 1 <= d.year
    ensures DaysFromCivil(NextDay(d)) == DaysFromCivil(d) + 1
  {
    if d.day < DaysInMonth(d.year, d.month) {
      NextDayWithinMonth(d);
    } else {
      NextDayAfterMonth(d);
    }
  }

  lemma NextInMonth(y: int, mp: int, day: int)
    ensures DayNumber(y, mp, day + 1) == DayNumber(y, mp, day) + 1
  {
  }

  lemma MonthFollows(y: int, mp: int)
    requires 0 <= mp < 11
    ensures DayNumber(y, mp + 1, 1) == DayNumber(y, mp, MarchMonthLength(mp)) + 1
  {
    MonthStarts(mp);
    MonthStarts(mp + 1);
  }

  /** The first of March follows the last day of February, also at the end of an era. */
  lemma MarchFollowsFebruary(yoe: int)
    requires 0 <= yoe < 400
    ensures DayOfEra(yoe, if Leap(yoe + 1) then 365 else 364) + 1
         == if yoe < 399 then DayOfEra(yoe + 1, 0) else 146097
  {
    if yoe < 399 {
      LeapDays(yoe);
    } else {
      assert yoe == 399;
    }
  }

  lemma NextYearOfEra(y: int)
    ensures (y + 1) / 400 == if y % 400 < 399 then y / 400 else y / 400 + 1
    ensures (y + 1) % 400 == if y % 400 < 399 then y % 400 + 1 else 0
  {
  }

  lemma YearFollows(y: int)
    ensures DayNumber(y + 1, 0, 1) == DayNumber(y, 11, if Leap(y + 1) then 29 else 28) + 1
  {
    LeapOfEra(y);
    MonthStarts(0);
    MonthStarts(11);
    NextYearOfEra(y);
    MarchFollowsFebruary(y % 400);
  }

  /** One more leap day exactly when the year that starts is a leap year. */
  lemma LeapDays(yoe: int)
    requires 0 <= yoe < 399
    ensures (yoe + 1) / 4 - (yoe + 1) / 100 == yoe / 4 - yoe / 100 + (if Leap(yoe + 1) then 1 else 0)
  {
    YearParts(yoe);
    LeapYearParts(yoe / 100, yoe % 100 / 4, yoe % 4);
  }

  lemma {:induction false} CountingDays(n: nat)
    ensures ValidDate(DateAfter(n)) && 1970 <= DateAfter(n).year
    ensures DaysFromCivil(DateAfter(n)) == n
  {
    if n != 0 {
      CountingDays(n - 1);
      NextDayIsValid(DateAfter(n - 1));
      NextDayIsOneLater(DateAfter(n - 1));
    }
  }

  /** The closed form is the counted calendar, and `DaysFromCivil` takes it back to the same day. */
  lemma CivilIsCounted(n: nat)
    ensures CivilFromDays(n) == DateAfter(n) && ValidDate(CivilFromDays(n))
    ensures DaysFromCivil(CivilFromDays(n)) == n
  {
    CountingDays(n);
    CivilInvertsDays(DateAfter(n));
  }

  lemma ClockOf(date: Date, h: int, m: int, s: int)
    requires 0 <= h && 0 <= m < 60 && 0 <= s < 60
    ensures MomentOn(date, 3600 * h + 60 * m + s) == Moment(date, h, m, s)
  {
    var t := 3600 * h + 60 * m + s;
    assert t / 3600 == h && t % 3600 == 60 * m + s;
    assert t % 60 == s by {
      Remainder60(t, s, 60 * h + m);
    }
  }

  lemma Remainder60(n: int, x: int, k: int)
    requires n == 60 * k + x && 0 <= x < 60
    ensures n % 60 == x
  {
  }

  lemma ClockCarries(date: Date, t: int)
    requires 0 <= t < 86400
    ensures NextSecond(MomentOn(date, t)) == if t < 86399 then MomentOn(date, t + 1) else MomentOn(NextDay(date), 0)
  {
    var h, m, s := t / 3600, t % 3600 / 60, t % 3600 % 60;
    assert t == 3600 * h + 60 * m + s;
    ClockOf(date, h, m, s);
    if s < 59 {
      ClockOf(date, h, m, s + 1);
    } else if m < 59 {
      ClockOf(date, h, m + 1, 0);
    } else {
      ClockOf(date, h + 1, 0, 0);
    }
  }

  lemma {:induction false} ClockIsCounted(s: nat)
    ensures MomentOn(DateAfter(s / 86400), s % 86400) == MomentAfter(s)
  {
    if s != 0 {
      ClockIsCounted(s - 1);
      ClockCarries(DateAfter((s - 1) / 86400), (s - 1) % 86400);
      if s % 86400 == 0 {
        assert s / 86400 == (s - 1) / 86400 + 1 && (s - 1) % 86400 == 86399;
      } else {
        assert s / 86400 == (s - 1) / 86400 && (s - 1) % 86400 == s % 86400 - 1;
      }
    }
  }

  /** For every second count: the fields printed are the ones reached by counting seconds from the epoch. */
  lemma MomentIsCounted(s: nat)
    ensures MomentAt(s) == MomentAfter(s) && ValidMoment(MomentAfter(s)) && 1970 <= MomentAfter(s).date.year
  {
    ClockIsCounted(s);
    CountingDays(s / 86400);
    CivilIsCounted(s / 86400);
  }

  // ---- the text ----

  function Digit(n: int): char
    requires 0 <= n < 10
  {
    '0' + n as char
  }

  /** `n` in decimal, zero-padded to at least `width` characters. */
  function Padded(n: nat, width: nat): string
    decreases n, width
  {
    if n < 10 && width <= 1 then [Digit(n)]
    else Padded(n / 10, if width == 0 then 0 else width - 1) + [Digit(n % 10)]
  }

  function Pow10(k: nat): nat {
    if k == 0 then 1 else 10 * Pow10(k - 1)
  }

  /** The fields of a moment from the most significant on. */
  function Fields(m: Moment): seq<int> {
    [m.date.year, m.date.month, m.date.day, m.hour, m.minute, m.second]
  }

  /** The format: the least width of each field and the character printed after it. */
  const WIDTHS: seq<nat> := [4, 2, 2, 2, 2, 2]
  const SEPARATORS: string := "--T::Z"

  function Printed(fields: seq<int>, widths: seq<nat>, separators: string): string
    requires |fields| == |widths| == |separators| && forall i :: 0 <= i < |fields| ==> 0 <= fields[i]
  {
    if fields == [] then ""
    else Padded(fields[0], widths[0]) + [separators[0]] + Printed(fields[1..], widths[1..], separators[1..])
  }

  function Timestamp(m: Moment): string
    requires ValidMoment(m) && 0 <= m.date.year
  {
    Printed(Fields(m), WIDTHS, SEPARATORS)
  }

  function UtcTimestamp(seconds: nat): string {
    MomentIsCounted(seconds);
    Timestamp(MomentAt(seconds))
  }

  /** Text order, character by character. */
  predicate TextBefore(a: string, b: string) {
    b != [] && (a == [] || a[0] < b[0] || (a[0] == b[0] && TextBefore(a[1..], b[1..])))
  }

  lemma {:induction false} TextBeforeAppended(a: string, b: string, u: string, v: string)
    requires |a| == |b| && TextBefore(a, b)
    ensures TextBefore(a + u, b + v)
  {
    if a[0] == b[0] {
      TextBeforeAppended(a[1..], b[1..], u, v);
    }
    assert (a + u)[1..] == a[1..] + u && (b + v)[1..] == b[1..] + v;
  }

  lemma {:induction false} TextBeforePrefixed(p: string, u: string, v: string)
    requires TextBefore(u, v)
    ensures TextBefore(p + u, p + v)
  {
    if p == [] {
      assert p + u == u && p + v == v;
    } else {
      TextBeforePrefixed(p[1..], u, v);
      assert (p + u)[1..] == p[1..] + u && (p + v)[1..] == p[1..] + v;
    }
  }

  lemma {:induction false} PaddedLength(n: nat, width: nat)
    requires 1 <= width
    ensures |Padded(n, width)| >= width
    ensures |Padded(n, width)| == width <==> n < Pow10(width)
    decreases width
  {
    if width == 1 {
      assert Pow10(1) == 10 * Pow10(0);
    } else {
      PaddedLength(n / 10, width - 1);
    }
  }

  lemma {:induction false} PaddedOrder(a: nat, b: nat, width: nat)
    requires 1 <= width && a < b < Pow10(width)
    ensures TextBefore(Padded(a, width), Padded(b, width))
    decreases width
  {
    if width == 1 {
      assert Pow10(1) == 10 * Pow10(0);
    } else {
      PaddedLength(a / 10, width - 1);
      PaddedLength(b / 10, width - 1);
      if a / 10 < b / 10 {
        PaddedOrder(a / 10, b / 10, width - 1);
        TextBeforeAppended(Padded(a / 10, width - 1), Padded(b / 10, width - 1), [Digit(a % 10)], [Digit(b % 10)]);
      } else {
        assert a / 10 == b / 10 && a % 10 < b % 10;
        TextBeforePrefixed(Padded(a / 10, width - 1), [Digit(a % 10)], [Digit(b % 10)]);
      }
    }
  }

  ghost predicate FirstDifference(a: seq<int>, b: seq<int>, i: nat)
    requires |a| == |b|
  {
    i < |a| && a[i] < b[i] && forall j :: 0 <= j < i ==> a[j] == b[j]
  }

  /** The first field in which they differ decides. */
  ghost predicate Before(a: seq<int>, b: seq<int>)
    requires |a| == |b|
  {
    exists i: nat :: FirstDifference(a, b, i)
  }

  lemma BeforeTransitive(a: seq<int>, b: seq<int>, c: seq<int>)
    requires |a| == |b| == |c| && Before(a, b) && Before(b, c)
    ensures Before(a, c)
  {
    var i: nat :| FirstDifference(a, b, i);
    var j: nat :| FirstDifference(b, c, j);
    assert FirstDifference(a, c, if i < j then i else j);
  }

  lemma NextSecondIsLater(m: Moment)
    requires ValidMoment(m)
    ensures Before(Fields(m), Fields(NextSecond(m)))
  {
    var n := NextSecond(m);
    var i := if n.date.year != m.date.year then 0 else if n.date.month != m.date.month then 1
             else if n.date.day != m.date.day then 2 else if n.hour != m.hour then 3
             else if n.minute != m.minute then 4 else 5;
    assert FirstDifference(Fields(m), Fields(n), i);
  }

  lemma {:induction false} LaterSecondsHaveLaterFields(s: nat, t: nat)
    requires s < t
    ensures Before(Fields(MomentAfter(s)), Fields(MomentAfter(t)))
    decreases t
  {
    MomentIsCounted(t - 1);
    NextSecondIsLater(MomentAfter(t - 1));
    if s < t - 1 {
      LaterSecondsHaveLaterFields(s, t - 1);
      BeforeTransitive(Fields(MomentAfter(s)), Fields(MomentAfter(t - 1)), Fields(MomentAfter(t)));
    }
  }

  ghost predicate Fits(fields: seq<int>, widths: seq<nat>)
    requires |fields| == |widths|
  {
    forall i :: 0 <= i < |fields| ==> 1 <= widths[i] && 0 <= fields[i] < Pow10(widths[i])
  }

  function Total(widths: seq<nat>): nat {
    if widths == [] then 0 else widths[0] + 1 + Total(widths[1..])
  }

  lemma {:induction false} PrintedLength(fields: seq<int>, widths: seq<nat>, separators: string)
    requires |fields| == |widths| == |separators|
    requires forall i :: 0 <= i < |fields| ==> 0 <= fields[i] && 1 <= widths[i]
    ensures |Printed(fields, widths, separators)| >= Total(widths)
    ensures |Printed(fields, widths, separators)| == Total(widths) <==> Fits(fields, widths)
  {
    if fields != [] {
      PaddedLength(fields[0], widths[0]);
      PrintedLength(fields[1..], widths[1..], separators[1..]);
      assert Fits(fields, widths) <==> fields[0] < Pow10(widths[0]) && Fits(fields[1..], widths[1..]) by {
        if Fits(fields[1..], widths[1..]) {
          assert forall i :: 1 <= i < |fields| ==> fields[i] == fields[1..][i - 1] && widths[i] == widths[1..][i - 1];
        }
      }
    }
  }

  lemma {:induction false} PrintedOrder(a: seq<int>, b: seq<int>, widths: seq<nat>, separators: string)
    requires |a| == |b| == |widths| == |separators| && Fits(a, widths) && Fits(b, widths) && Before(a, b)
    ensures TextBefore(Printed(a, widths, separators), Printed(b, widths, separators))
  {
    var u, v := Printed(a[1..], widths[1..], separators[1..]), Printed(b[1..], widths[1..], separators[1..]);
    var x, y := Padded(a[0], widths[0]), Padded(b[0], widths[0]);
    var k: nat :| FirstDifference(a, b, k);
    if k == 0 {
      PaddedOrder(a[0], b[0], widths[0]);
      PaddedLength(a[0], widths[0]);
      PaddedLength(b[0], widths[0]);
      TextBeforeAppended(x, y, [separators[0]] + u, [separators[0]] + v);
      assert x + ([separators[0]] + u) == x + [separators[0]] + u;
      assert y + ([separators[0]] + v) == y + [separators[0]] + v;
    } else {
      assert FirstDifference(a[1..], b[1..], k - 1);
      PrintedOrder(a[1..], b[1..], widths[1..], separators[1..]);
      TextBeforePrefixed(x + [separators[0]], u, v);
    }
  }

  lemma FieldsFit(m: Moment)
    requires ValidMoment(m) && 0 <= m.date.year
    ensures Fits(Fields(m), WIDTHS) <==> m.date.year < 10000
  {
    TenThousand();
    assert Fields(m)[0] == m.date.year && WIDTHS[0] == 4;
  }

  lemma TenThousand()
    ensures Pow10(2) == 100 && Pow10(4) == 10000
  {
    assert Pow10(1) == 10 * Pow10(0) && Pow10(2) == 10 * Pow10(1);
    assert Pow10(3) == 10 * Pow10(2) && Pow10(4) == 10 * Pow10(3);
  }

  lemma PrintsCountedMoment(s: nat)
    ensures var m := MomentAfter(s);
            && ValidMoment(m) && 0 <= m.date.year && MomentAt(s) == m
            && UtcTimestamp(s) == Timestamp(m)
  {
    MomentIsCounted(s);
  }

  // ---- the end of year 9999 ----

  /** The seconds from the epoch to the start of year 10000. */
  const YEAR_10000 := 253402300800

  lemma LastDayOfYear9999()
    ensures CivilFromDays(2932896) == Date(9999, 12, 31)
  {
    assert DaysFromCivil(Date(9999, 12, 31)) == 2932896;
    CivilInvertsDays(Date(9999, 12, 31));
  }

  lemma FirstDayOfYear10000()
    ensures CivilFromDays(2932897) == Date(10000, 1, 1)
  {
    assert DaysFromCivil(Date(10000, 1, 1)) == 2932897;
    CivilInvertsDays(Date(10000, 1, 1));
  }

  lemma DateOfSecond(s: nat, days: nat, date: Date)
    requires s / 86400 == days && CivilFromDays(days) == date
    ensures MomentAfter(s).date == date
  {
    MomentIsCounted(s);
  }

  lemma LaterYear(s: nat, t: nat)
    requires s <= t
    ensures MomentAfter(s).date.year <= MomentAfter(t).date.year
  {
    if s < t {
      LaterSecondsHaveLaterFields(s, t);
      var a, b := Fields(MomentAfter(s)), Fields(MomentAfter(t));
      var i: nat :| FirstDifference(a, b, i);
      assert a[0] <= b[0];
    }
  }

  /** Counting reaches year 10000 at that second, and not before. */
  lemma YearOfCount(s: nat)
    ensures MomentAfter(s).date.year < 10000 <==> s < YEAR_10000
  {
    if s < YEAR_10000 {
      LastDayOfYear9999();
      DateOfSecond(YEAR_10000 - 1, 2932896, Date(9999, 12, 31));
      LaterYear(s, YEAR_10000 - 1);
    } else {
      FirstDayOfYear10000();
      DateOfSecond(YEAR_10000, 2932897, Date(10000, 1, 1));
      LaterYear(YEAR_10000, s);
    }
  }

  /** Section 5.1 of RFC 3339: before year 10000 a later second prints a later text. */
  lemma TextOrderIsTimeOrder(s: nat, t: nat)
    requires s < t < YEAR_10000
    ensures TextBefore(UtcTimestamp(s), UtcTimestamp(t))
  {
    PrintsCountedMoment(s);
    PrintsCountedMoment(t);
    YearOfCount(s);
    YearOfCount(t);
    var a, b := MomentAfter(s), MomentAfter(t);
    LaterSecondsHaveLaterFields(s, t);
    FieldsFit(a);
    FieldsFit(b);
    PrintedOrder(Fields(a), Fields(b), WIDTHS, SEPARATORS);
  }

  lemma TimestampWidth(m: Moment)
    requires ValidMoment(m) && 0 <= m.date.year
    ensures |Timestamp(m)| == 20 <==> m.date.year < 10000
  {
    FieldsFit(m);
    PrintedLength(Fields(m), WIDTHS, SEPARATORS);
    assert Total(WIDTHS) == 20;
  }

  /** The text has its fixed width exactly until the end of year 9999. */
  lemma TwentyCharacters(s: nat)
    ensures |UtcTimestamp(s)| == 20 <==> s < YEAR_10000
  {
    PrintsCountedMoment(s);
    TimestampWidth(MomentAfter(s));
    YearOfCount(s);
  }

  // ---- reading the text back ----

  predicate Digits(text: string) {
    forall i :: 0 <= i < |text| ==> '0' <= text[i] <= '9'
  }

  /** The number that digits denote. */
  function Value(text: string): nat
    requires Digits(text)
  {
    if text == "" then 0 else 10 * Value(text[..|text| - 1]) + (text[|text| - 1] as int - 48)
  }

  lemma {:induction false} PaddedReads(n: nat, width: nat)
    ensures Digits(Padded(n, width)) && Value(Padded(n, width)) == n && |Padded(n, width)| >= width
    decreases n, width
  {
    if n < 10 && width <= 1 {
      assert Padded(n, width)[..0] == "";
    } else {
      var w := if width == 0 then 0 else width - 1;
      PaddedReads(n / 10, w);
      assert Padded(n, width)[..|Padded(n / 10, w)|] == Padded(n / 10, w);
    }
  }

  /** The full-date, "T", full-time and "Z" of section 5.6 of RFC 3339. */
  ghost predicate Spells(text: string, year: string, month: string, day: string, hour: string, minute: string,
                         second: string) {
    text == year + ("-" + (month + ("-" + (day + ("T" + (hour + (":" + (minute + (":" + (second + "Z"))))))))))
  }

  ghost predicate Reads(text: string, width: nat, n: int) {
    Digits(text) && |text| >= width && Value(text) == n && (n < Pow10(width) ==> |text| == width)
  }

  lemma FieldReads(n: nat, width: nat)
    requires width >= 1
    ensures Reads(Padded(n, width), width, n)
  {
    PaddedReads(n, width);
    PaddedLength(n, width);
  }

  lemma Joined(a: string, b: string, c: string)
    ensures a + b + c == a + (b + c)
  {
  }

  lemma PrintedFirst(fields: seq<int>, widths: seq<nat>, separators: string)
    requires |fields| == |widths| == |separators| > 0 && forall i :: 0 <= i < |fields| ==> 0 <= fields[i]
    ensures Printed(fields, widths, separators)
         == Padded(fields[0], widths[0]) + [separators[0]] + Printed(fields[1..], widths[1..], separators[1..])
  {
  }

  lemma PrintedField(x: int, fields: seq<int>, width: nat, widths: seq<nat>, c: char, separators: string)
    requires 0 <= x && |fields| == |widths| == |separators| && forall i :: 0 <= i < |fields| ==> 0 <= fields[i]
    ensures Printed([x] + fields, [width] + widths, [c] + separators)
         == Padded(x, width) + ([c] + Printed(fields, widths, separators))
  {
    var f, w, s := [x] + fields, [width] + widths, [c] + separators;
    assert f[0] == x && w[0] == width && s[0] == c;
    assert f[1..] == fields && w[1..] == widths && s[1..] == separators;
    PrintedFirst(f, w, s);
    Joined(Padded(x, width), [c], Printed(fields, widths, separators));
  }

  lemma PrintedTime(hour: nat, minute: nat, second: nat) returns (text: string)
    ensures text == Padded(hour, 2) + (":" + (Padded(minute, 2) + (":" + (Padded(second, 2) + "Z"))))
    ensures text == Printed([hour, minute, second], [2, 2, 2], "::Z")
  {
    PrintedField(second, [], 2, [], 'Z', "");
    PrintedField(minute, [second], 2, [2], ':', "Z");
    PrintedField(hour, [minute, second], 2, [2, 2], ':', ":Z");
    assert [second] + [] == [second] && [2] + [] == [2] && "Z" + "" == "Z";
    assert [minute] + [second] == [minute, second] && [2] + [2] == [2, 2] && ":" + "Z" == ":Z";
    assert [hour] + [minute, second] == [hour, minute, second] && [2] + [2, 2] == [2, 2, 2] && ":" + ":Z" == "::Z";
    text := Printed([hour, minute, second], [2, 2, 2], "::Z");
  }

  lemma PrintedDate(year: nat, month: nat, day: nat, rest: seq<nat>)
    requires |rest| == 3
    ensures Printed([year, month, day] + rest, WIDTHS, SEPARATORS)
         == Padded(year, 4) + ("-" + (Padded(month, 2) + ("-" + (Padded(day, 2)
            + ("T" + Printed(rest, [2, 2, 2], "::Z"))))))
  {
    PrintedField(day, rest, 2, [2, 2, 2], 'T', "::Z");
    PrintedField(month, [day] + rest, 2, [2] + [2, 2, 2], '-', "T" + "::Z");
    PrintedField(year, [month] + ([day] + rest), 4, [2] + ([2] + [2, 2, 2]), '-', "-" + ("T" + "::Z"));
    assert [year] + ([month] + ([day] + rest)) == [year, month, day] + rest;
    assert [4] + ([2] + ([2] + [2, 2, 2])) == WIDTHS;
    assert "-" + ("-" + ("T" + "::Z")) == SEPARATORS;
  }

  lemma PrintedParts(m: Moment)
    requires ValidMoment(m) && 0 <= m.date.year
    ensures Spells(Timestamp(m), Padded(m.date.year, 4), Padded(m.date.month, 2), Padded(m.date.day, 2),
                   Padded(m.hour, 2), Padded(m.minute, 2), Padded(m.second, 2))
  {
    var rest: seq<nat> := [m.hour, m.minute, m.second];
    var time := PrintedTime(m.hour, m.minute, m.second);
    PrintedDate(m.date.year, m.date.month, m.date.day, rest);
    assert Fields(m) == [m.date.year, m.date.month, m.date.day] + rest;
  }

  /** For every second count the text spells, in the format of the standard, the fields reached by counting. */
  lemma TextReadsBack(s: nat) returns (year: string, month: string, day: string, hour: string, minute: string,
                                       second: string)
    ensures Spells(UtcTimestamp(s), year, month, day, hour, minute, second)
    ensures var m := MomentAfter(s);
            && Reads(year, 4, m.date.year) && Reads(month, 2, m.date.month) && Reads(day, 2, m.date.day)
            && Reads(hour, 2, m.hour) && Reads(minute, 2, m.minute) && Reads(second, 2, m.second)
  {
    PrintsCountedMoment(s);
    var m := MomentAfter(s);
    PrintedParts(m);
    year, month, day := Padded(m.date.year, 4), Padded(m.date.month, 2), Padded(m.date.day, 2);
    hour, minute, second := Padded(m.hour, 2), Padded(m.minute, 2), Padded(m.second, 2);
    FieldReads(m.date.year, 4);
    FieldReads(m.date.month, 2);
    FieldReads(m.date.day, 2);
    FieldReads(m.hour, 2);
    FieldReads(m.minute, 2);
    FieldReads(m.second, 2);
  }
}
