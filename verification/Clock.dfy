/** Wall-clock arithmetic: a Unix timestamp split into UTC calendar fields (clock.rs).
    `CivilDate` is the integer-division algorithm the program runs; `DayNumber` and `NextDay`
    are the calendar it has to agree with, defined without any of that arithmetic. */
module Clock {

  // ---- The calendar, from the rules for month lengths and leap years ----

  datatype Date = Date(year: int, month: int, day: int)

  /** The leap-year rule of Appendix C of RFC 3339. */
  predicate IsLeap(year: int) {
    year % 4 == 0 && (year % 100 != 0 || year % 400 == 0)
  }

  /** Month lengths, as tabulated in section 5.7 of RFC 3339. */
  function DaysInMonth(year: int, month: int): int
    requires 1 <= month <= 12
  {
    if month == 2 then (if IsLeap(year) then 29 else 28)
    else if month in {4, 6, 9, 11} then 30
    else 31
  }

  predicate ValidDate(d: Date) {
    1 <= d.month <= 12 && 1 <= d.day <= DaysInMonth(d.year, d.month)
  }

  function YearLength(year: int): int {
    if IsLeap(year) then 366 else 365
  }

  /** Days from 1 January 1970 to 1 January of `year`, one year at a time. */
  function YearStart(year: int): int
    decreases if year >= 1970 then year - 1970 else 1970 - year
  {
    if year == 1970 then 0
    else if year > 1970 then YearStart(year - 1) + YearLength(year - 1)
    else YearStart(year + 1) - YearLength(year)
  }

  /** Days from the first of January to the first of `month`, one month at a time. */
  function MonthStart(year: int, month: int): int
    requires 1 <= month <= 12
    decreases month
  {
    if month == 1 then 0 else MonthStart(year, month - 1) + DaysInMonth(year, month - 1)
  }

  /** Days from 1 January 1970 to `d`. */
  function DayNumber(d: Date): int
    requires ValidDate(d)
  {
    YearStart(d.year) + MonthStart(d.year, d.month) + d.day - 1
  }

  function NextDay(d: Date): Date
    requires ValidDate(d)
  {
    if d.day < DaysInMonth(d.year, d.month) then d.(day := d.day + 1)
    else if d.month < 12 then Date(d.year, d.month + 1, 1)
    else Date(d.year + 1, 1, 1)
  }

  predicate Before(a: Date, b: Date) {
    a.year < b.year || (a.year == b.year && (a.month < b.month || (a.month == b.month && a.day < b.day)))
  }

  // ---- The program's algorithm ----

  /** Division as the program's language does it: toward zero. */
  function TruncDiv(a: int, b: int): int
    requires b > 0
  {
    if a >= 0 then a / b else -((-a) / b)
  }

  /** The 400-year era a day falls in, its days counted from 1 March of year 0. */
  function Era(shifted: int): (era: int)
    ensures 0 <= shifted - era * 146_097 < 146_097
  {
    TruncDiv(if shifted >= 0 then shifted else shifted - 146_096, 146_097)
  }

  function YearOfEra(dayOfEra: nat): int {
    (dayOfEra - dayOfEra / 1_460 + dayOfEra / 36_524 - dayOfEra / 146_096) / 365
  }

  function DayOfYear(dayOfEra: nat, yearOfEra: nat): int {
    dayOfEra - (365 * yearOfEra + yearOfEra / 4 - yearOfEra / 100)
  }

  /** The date of a day of a March-based year, the months counted from March. */
  function Assemble(era: int, yearOfEra: int, dayOfYear: int): Date {
    var monthPrime := (5 * dayOfYear + 2) / 153;
    var day := dayOfYear - (153 * monthPrime + 2) / 5 + 1;
    var month := monthPrime + if monthPrime < 10 then 3 else -9;
    Date(yearOfEra + era * 400 + if month <= 2 then 1 else 0, month, day)
  }

  function CivilDate(days: int): (d: Date)
    ensures ValidDate(d) && DayNumber(d) == days
  {
    var shifted := days + 719_468;
    var era := Era(shifted);
    var dayOfEra := shifted - era * 146_097;
    CivilDateOfEraDay(days, era, dayOfEra);
    Assemble(era, YearOfEra(dayOfEra), DayOfYear(dayOfEra, YearOfEra(dayOfEra)))
  }

  lemma CivilDateOfEraDay(days: int, era: int, dayOfEra: nat)
    requires dayOfEra < 146_097 && days + 719_468 == era * 146_097 + dayOfEra
    ensures 0 <= YearOfEra(dayOfEra) < 400
    ensures var d := Assemble(era, YearOfEra(dayOfEra), DayOfYear(dayOfEra, YearOfEra(dayOfEra)));
      ValidDate(d) && DayNumber(d) == days
  {
    YearOfEraIsRight(dayOfEra);
    CivilDateOfEraYear(days, era, dayOfEra, YearOfEra(dayOfEra));
  }

  lemma CivilDateOfEraYear(days: int, era: int, dayOfEra: nat, yoe: nat)
    requires yoe < 400 && days + 719_468 == era * 146_097 + dayOfEra
    requires EraYearStart(yoe) <= dayOfEra <= EraYearStart(yoe) + 365
    requires dayOfEra < EraYearStart(yoe) + 365 || IsLeap(yoe + 1)
    ensures var d := Assemble(era, yoe, DayOfYear(dayOfEra, yoe));
      ValidDate(d) && DayNumber(d) == days
  {
    AssembleIsRight(days, era, yoe, DayOfYear(dayOfEra, yoe));
  }

  /** Days in the first `y` years of a 400-year era whose years start in March. */
  function EraYearStart(y: nat): int {
    365 * y + y / 4 - y / 100
  }

  /** The era's year is the one whose March-to-February span holds the day. */
  lemma YearOfEraIsRight(doe: nat)
    requires doe < 146_097
    ensures var yoe := YearOfEra(doe);
      0 <= yoe < 400 && EraYearStart(yoe) <= doe <= EraYearStart(yoe) + 365
      && (doe < EraYearStart(yoe) + 365 || IsLeap(yoe + 1))
  {
    // Centuries, four-year spans and years, the last of each taking the odd day.
    var c := if doe == 146_096 then 3 else doe / 36_524;
    var r := doe - 36_524 * c;
    assert r == 1_461 * (r / 1_461) + r % 1_461;
    YearOfEraFromSpans(doe, c, r / 1_461, r % 1_461);
  }

  lemma YearOfEraFromSpans(doe: nat, c: nat, q: nat, s: nat)
    requires c <= 3 && q <= 24 && s <= 1_460 && (q == 24 && s == 1_460 ==> c == 3)
    requires doe == 36_524 * c + 1_461 * q + s
    ensures var yoe := YearOfEra(doe);
      0 <= yoe < 400 && EraYearStart(yoe) <= doe <= EraYearStart(yoe) + 365
      && (doe < EraYearStart(yoe) + 365 || IsLeap(yoe + 1))
  {
    var y, t := YearOfSpan(s);
    YearOfEraOfSpans(doe, c, q, s, y, t);
    EraYearStartOfSpans(c, q, y);
    if s == 1_460 {
      LastYearOfSpanIsLeap(c, q);
    }
  }

  lemma YearOfEraOfSpans(doe: nat, c: nat, q: nat, s: nat, y: nat, t: nat)
    requires c <= 3 && q <= 24 && s <= 1_460 && (q == 24 && s == 1_460 ==> c == 3)
    requires doe == 36_524 * c + 1_461 * q + s
    requires s == 365 * y + t && y <= 3 && t <= 365 && (t == 365 <==> s == 1_460) && (t == 0 ==> s <= 1_095)
    ensures YearOfEra(doe) == 100 * c + 4 * q + y
  {
    var skipped := if 24 * c + q + s >= 1_460 then 1 else 0;
    RemainderOf(doe, 1_460, 25 * c + q + skipped, 24 * c + q + s - 1_460 * skipped);
    var last := if doe == 146_096 then 1 else 0;
    RemainderOf(doe, 146_096, last, doe - 146_096 * last);
    RemainderOf(doe, 36_524, c + last, 1_461 * q + s - 36_524 * last);
    RemainderOf(36_500 * c + 1_460 * q + s - skipped, 365, 100 * c + 4 * q + y, s - skipped - 365 * y);
  }

  lemma EraYearStartOfSpans(c: nat, q: nat, y: nat)
    requires q <= 24 && y <= 3
    ensures EraYearStart(100 * c + 4 * q + y) == 36_524 * c + 1_461 * q + 365 * y
  {
    RemainderOf(100 * c + 4 * q + y, 4, 25 * c + q, y);
    RemainderOf(100 * c + 4 * q + y, 100, c, 4 * q + y);
  }

  /** The year of a four-year span and the day of that year. */
  lemma YearOfSpan(s: nat) returns (y: nat, t: nat)
    requires s <= 1_460
    ensures s == 365 * y + t && y <= 3 && t <= 365 && (t == 365 <==> s == 1_460) && (t == 0 ==> s <= 1_095)
  {
    if s == 1_460 {
      y, t := 3, 365;
    } else {
      y, t := s / 365, s % 365;
    }
  }

  lemma LastYearOfSpanIsLeap(c: nat, q: nat)
    requires c <= 3 && q <= 24 && (q == 24 ==> c == 3)
    ensures IsLeap(100 * c + 4 * q + 4)
  {
    var year := 100 * c + 4 * q + 4;
    RemainderOf(year, 4, 25 * c + q + 1, 0);
    if q < 24 {
      RemainderOf(year, 100, c, 4 * q + 4);
    } else {
      assert year == 400;
    }
  }

  /** Leap days in the years 1 to `year`, counted by the usual closed form. */
  function LeapDays(year: int): int {
    year / 4 - year / 100 + year / 400
  }

  lemma LeapDaysStep(year: int)
    ensures LeapDays(year) == LeapDays(year - 1) + if IsLeap(year) then 1 else 0
  {
    QuotientStep(year, 4);
    QuotientStep(year, 100);
    QuotientStep(year, 400);
    if year % 400 == 0 {
      assert year % 100 == 0 by { FactorDivides(year, 100, 4); }
    }
    if year % 100 == 0 {
      assert year % 4 == 0 by { FactorDivides(year, 4, 25); }
    }
  }

  /** Rounding down, the quotient grows by one exactly at the multiples. */
  lemma QuotientStep(n: int, k: int)
    requires k > 0
    ensures n / k == (n - 1) / k + if n % k == 0 then 1 else 0
  {
    RemainderOf(n - 1, k, if n % k == 0 then n / k - 1 else n / k, if n % k == 0 then k - 1 else n % k - 1);
  }

  lemma RemainderOf(n: int, k: int, q: int, r: int)
    requires 0 <= r < k && n == q * k + r
    ensures n / k == q && n % k == r
  {
    var d := n / k - q;
    assert d * k == r - n % k by { assert n == (n / k) * k + n % k; }
    assert d >= 1 ==> d * k >= k;
    assert d <= -1 ==> d * k <= -k;
  }

  lemma FactorDivides(n: int, a: int, b: int)
    requires a > 0 && b > 0 && n % (a * b) == 0
    ensures n % a == 0
  {
    var q := n / (a * b);
    assert n == (q * b) * a by { assert n == q * (a * b); }
    RemainderOf(n, a, q * b, 0);
  }

  lemma {:induction false} YearStartClosedForm(year: int)
    ensures YearStart(year) == 365 * (year - 1970) + LeapDays(year - 1) - LeapDays(1969)
    decreases if year >= 1970 then year - 1970 else 1970 - year
  {
    if year > 1970 {
      YearStartClosedForm(year - 1);
      LeapDaysStep(year - 1);
    } else if year < 1970 {
      YearStartClosedForm(year + 1);
      LeapDaysStep(year);
    }
  }

  lemma YearStartStep(year: int)
    ensures YearStart(year + 1) == YearStart(year) + YearLength(year)
  {
    YearStartClosedForm(year);
    YearStartClosedForm(year + 1);
    LeapDaysStep(year);
  }

  /** 1 March of year `400 * era + yoe` is where the algorithm places day 0 of that era year. */
  lemma MarchFirst(era: int, yoe: nat)
    requires yoe < 400
    ensures var year := 400 * era + yoe;
      YearStart(year) + 59 + (if IsLeap(year) then 1 else 0)
        == era * 146_097 + EraYearStart(yoe) - 719_468
  {
    var year := 400 * era + yoe;
    YearStartClosedForm(year);
    LeapDaysStep(year);
    assert year / 4 == 100 * era + yoe / 4;
    assert year / 100 == 4 * era + yoe / 100;
    assert year / 400 == era;
  }

  /** The first days of the months, as offsets from 1 January. */
  lemma MonthStarts(year: int)
    ensures MonthStart(year, 1) == 0 && MonthStart(year, 2) == 31
    ensures var leap := if IsLeap(year) then 1 else 0;
      forall m :: 3 <= m <= 12 ==> MonthStart(year, m) == 59 + leap + (153 * (m - 3) + 2) / 5
  {
    var leap := if IsLeap(year) then 1 else 0;
    assert MonthStart(year, 3) == 59 + leap;
    assert MonthStart(year, 4) == 90 + leap;
    assert MonthStart(year, 5) == 120 + leap;
    assert MonthStart(year, 6) == 151 + leap;
    assert MonthStart(year, 7) == 181 + leap;
    assert MonthStart(year, 8) == 212 + leap;
    assert MonthStart(year, 9) == 243 + leap;
    assert MonthStart(year, 10) == 273 + leap;
    assert MonthStart(year, 11) == 304 + leap;
    assert MonthStart(year, 12) == 334 + leap;
    forall m | 3 <= m <= 12
      ensures MonthStart(year, m) == 59 + leap + (153 * (m - 3) + 2) / 5
    {
      if m == 3 {} else if m == 4 {} else if m == 5 {} else if m == 6 {} else if m == 7 {}
      else if m == 8 {} else if m == 9 {} else if m == 10 {} else if m == 11 {} else {}
    }
  }

  lemma AssembleIsRight(days: int, era: int, yoe: nat, doy: nat)
    requires yoe < 400
    requires doy <= 365
    requires days + 719_468 == era * 146_097 + EraYearStart(yoe) + doy
    requires doy < 365 || IsLeap(yoe + 1)
    ensures ValidDate(Assemble(era, yoe, doy)) && DayNumber(Assemble(era, yoe, doy)) == days
  {
    MarchFirst(era, yoe);
    MonthOfYearDay(doy);
    if (5 * doy + 2) / 153 < 10 {
      AssembleFromMarch(400 * era + yoe, doy);
    } else {
      LeapIsPeriodic(yoe + 1, era);
      AssembleFromJanuary(400 * era + yoe, doy);
    }
  }

  /** March to December of a March-based year fall in the calendar year of the same number. */
  lemma AssembleFromMarch(march: int, doy: nat)
    requires doy <= 365 && (5 * doy + 2) / 153 < 10
    ensures var mp := (5 * doy + 2) / 153;
      var d := Date(march, mp + 3, doy - MonthOffset(mp) + 1);
      ValidDate(d) && DayNumber(d) == YearStart(march) + 59 + (if IsLeap(march) then 1 else 0) + doy
  {
    MonthOfYearDay(doy);
    MonthStarts(march);
    var mp := (5 * doy + 2) / 153;
    assert DaysInMonth(march, mp + 3) == MonthOffset(mp + 1) - MonthOffset(mp);
  }

  /** January and February fall in the next one. */
  lemma AssembleFromJanuary(march: int, doy: nat)
    requires doy <= 365 && (5 * doy + 2) / 153 >= 10
    requires doy < 365 || IsLeap(march + 1)
    ensures var mp := (5 * doy + 2) / 153;
      mp <= 11 && var d := Date(march + 1, mp - 9, doy - MonthOffset(mp) + 1);
      ValidDate(d) && DayNumber(d) == YearStart(march) + 59 + (if IsLeap(march) then 1 else 0) + doy
  {
    MonthOfYearDay(doy);
    MonthStarts(march + 1);
    YearStartStep(march);
    assert MonthOffset(10) == 306 && MonthOffset(11) == 337;
  }

  /** Days from 1 March to the first of the month `mp` months later. */
  function MonthOffset(mp: nat): int {
    (153 * mp + 2) / 5
  }

  lemma MonthOfYearDay(doy: nat)
    requires doy <= 365
    ensures var mp := (5 * doy + 2) / 153;
      mp <= 11 && MonthOffset(mp) <= doy && (mp < 11 ==> doy < MonthOffset(mp + 1))
  {
  }

  lemma LeapIsPeriodic(year: int, era: int)
    ensures IsLeap(year + 400 * era) == IsLeap(year)
  {
    RemainderOf(year + 400 * era, 400, year / 400 + era, year % 400);
    RemainderOf(year + 400 * era, 100, year / 100 + 4 * era, year % 100);
    RemainderOf(year + 400 * era, 4, year / 4 + 100 * era, year % 4);
  }

  // ---- What the algorithm means, day by day ----

  lemma DayOfYearFits(d: Date)
    requires ValidDate(d)
    ensures 0 <= MonthStart(d.year, d.month) + d.day - 1 < YearLength(d.year)
  {
    MonthStarts(d.year);
  }

  lemma {:induction false} YearStartIncreases(a: int, b: int)
    requires a < b
    ensures YearStart(a) + YearLength(a) <= YearStart(b)
    decreases b - a
  {
    YearStartClosedForm(b);
    YearStartClosedForm(b - 1);
    LeapDaysStep(b - 1);
    if a < b - 1 {
      YearStartIncreases(a, b - 1);
    }
  }

  lemma DayNumberIncreases(a: Date, b: Date)
    requires ValidDate(a) && ValidDate(b)
    ensures Before(a, b) <==> DayNumber(a) < DayNumber(b)
  {
    DayOfYearFits(a);
    DayOfYearFits(b);
    MonthStarts(a.year);
    if a.year < b.year {
      YearStartIncreases(a.year, b.year);
    } else if b.year < a.year {
      YearStartIncreases(b.year, a.year);
    }
  }

  /** Both directions of the round trip: `CivilDate` is the inverse of `DayNumber`, and orders days
      as days are ordered. */
  lemma CivilDateInvertsDayNumber(d: Date, days: int)
    requires ValidDate(d)
    ensures CivilDate(DayNumber(d)) == d
    ensures CivilDate(days) == d <==> days == DayNumber(d)
    ensures Before(CivilDate(days), d) <==> days < DayNumber(d)
  {
    DayNumberIncreases(CivilDate(DayNumber(d)), d);
    DayNumberIncreases(d, CivilDate(DayNumber(d)));
    DayNumberIncreases(CivilDate(days), d);
  }

  lemma CivilDateOfEpoch()
    ensures CivilDate(0) == Date(1970, 1, 1)
  {
    CivilDateInvertsDayNumber(Date(1970, 1, 1), 0);
  }

  lemma NextDayIsOneLater(d: Date)
    requires ValidDate(d)
    ensures ValidDate(NextDay(d)) && DayNumber(NextDay(d)) == DayNumber(d) + 1
  {
    if d.day == DaysInMonth(d.year, d.month) {
      if d.month == 12 {
        YearStartStep(d.year);
        MonthStarts(d.year);
      } else {
        assert MonthStart(d.year, d.month + 1) == MonthStart(d.year, d.month) + DaysInMonth(d.year, d.month);
      }
    }
  }

  /** Consecutive day numbers are consecutive calendar days, before 1970 as after it. */
  lemma CivilDateOfTheNextDay(days: int)
    ensures CivilDate(days + 1) == NextDay(CivilDate(days))
  {
    var d := CivilDate(days);
    NextDayIsOneLater(d);
    CivilDateInvertsDayNumber(NextDay(d), days + 1);
  }

  // ---- Whole timestamps ----

  const I64_MAX: int := 0x7fff_ffff_ffff_ffff
  const I64_MIN: int := -0x8000_0000_0000_0000

  datatype Moment = Moment(date: Date, hour: int, minute: int, second: int, millis: int)

  predicate InRange(m: Moment) {
    ValidDate(m.date) && 0 <= m.hour < 24 && 0 <= m.minute < 60 && 0 <= m.second < 60 && 0 <= m.millis < 1000
  }

  /** Milliseconds from the epoch, put back together from the calendar fields. */
  function Recompose(m: Moment): int
    requires InRange(m)
  {
    (((DayNumber(m.date) * 24 + m.hour) * 60 + m.minute) * 60 + m.second) * 1000 + m.millis
  }

  /** Whole seconds, held at the largest signed 64-bit value. */
  function WholeSeconds(unixMicros: nat): nat {
    if unixMicros / 1_000_000 <= I64_MAX then unixMicros / 1_000_000 else I64_MAX
  }

  /** The split loses only what is below a millisecond, until the seconds no longer fit. */
  function UtcParts(unixMicros: nat): (m: Moment)
    ensures InRange(m)
    ensures unixMicros / 1_000_000 <= I64_MAX ==> Recompose(m) == unixMicros / 1_000
    ensures unixMicros / 1_000_000 > I64_MAX ==> Recompose(m) / 1_000 == I64_MAX
  {
    var seconds := WholeSeconds(unixMicros);
    var millis := unixMicros % 1_000_000 / 1_000;
    var days := seconds / 86_400;
    var secondsOfDay := seconds % 86_400;
    var m := Moment(CivilDate(days), secondsOfDay / 3_600, secondsOfDay % 3_600 / 60, secondsOfDay % 60, millis);
    SplitLosesNothing(unixMicros, m);
    m
  }

  lemma SplitLosesNothing(unixMicros: nat, m: Moment)
    requires ValidDate(m.date)
    requires DayNumber(m.date) == WholeSeconds(unixMicros) / 86_400
    requires m.hour == WholeSeconds(unixMicros) % 86_400 / 3_600
    requires m.minute == WholeSeconds(unixMicros) % 86_400 % 3_600 / 60
    requires m.second == WholeSeconds(unixMicros) % 86_400 % 60
    requires m.millis == unixMicros % 1_000_000 / 1_000
    ensures InRange(m)
    ensures unixMicros / 1_000_000 <= I64_MAX ==> Recompose(m) == unixMicros / 1_000
    ensures unixMicros / 1_000_000 > I64_MAX ==> Recompose(m) / 1_000 == I64_MAX
  {
    var s := WholeSeconds(unixMicros);
    var ofDay := s % 86_400;
    RemainderOf(ofDay % 3_600, 60, ofDay % 3_600 / 60, ofDay % 3_600 % 60);
    RemainderOf(ofDay, 60, 60 * (ofDay / 3_600) + ofDay % 3_600 / 60, ofDay % 3_600 % 60);
    assert Recompose(m) == s * 1_000 + m.millis;
    RemainderOf(Recompose(m), 1_000, s, m.millis);
    var seconds := unixMicros / 1_000_000;
    var rest := unixMicros % 1_000_000;
    RemainderOf(unixMicros, 1_000, seconds * 1_000 + rest / 1_000, rest % 1_000);
  }

  predicate Earlier(a: Moment, b: Moment) {
    Before(a.date, b.date)
    || (a.date == b.date && (a.hour < b.hour
    || (a.hour == b.hour && (a.minute < b.minute
    || (a.minute == b.minute && (a.second < b.second
    || (a.second == b.second && a.millis < b.millis)))))))
  }

  lemma RecomposeOrders(a: Moment, b: Moment)
    requires InRange(a) && InRange(b)
    ensures Earlier(a, b) <==> Recompose(a) < Recompose(b)
    ensures a == b <==> Recompose(a) == Recompose(b)
  {
    DayNumberIncreases(a.date, b.date);
    DayNumberIncreases(b.date, a.date);
    assert DayNumber(a.date) == DayNumber(b.date) ==> a.date == b.date;
  }

  /** Moments are ordered field by field exactly as their timestamps are, at millisecond grain. */
  lemma UtcPartsOrders(a: nat, b: nat)
    requires a / 1_000_000 <= I64_MAX && b / 1_000_000 <= I64_MAX
    ensures Earlier(UtcParts(a), UtcParts(b)) <==> a / 1_000 < b / 1_000
    ensures UtcParts(a) == UtcParts(b) <==> a / 1_000 == b / 1_000
  {
    RecomposeOrders(UtcParts(a), UtcParts(b));
  }

  lemma DaysBeforeEpochAreNegative(m: Moment)
    requires InRange(m)
    ensures Recompose(m) >= 0 ==> DayNumber(m.date) >= 0
  {
    var hours := DayNumber(m.date) * 24 + m.hour;
    var minutes := hours * 60 + m.minute;
    var seconds := minutes * 60 + m.second;
    assert Recompose(m) == seconds * 1000 + m.millis;
    assert seconds >= 0 ==> minutes >= 0;
    assert minutes >= 0 ==> hours >= 0;
  }

  lemma DatesFromTheEpochOn(d: Date)
    requires ValidDate(d) && DayNumber(d) >= 0
    ensures d.year >= 1970
  {
    DayOfYearFits(d);
    if d.year < 1970 {
      YearStartIncreases(d.year, 1970);
    }
  }

  /** Timestamps count forward from 1970. */
  lemma UtcPartsYear(unixMicros: nat)
    ensures UtcParts(unixMicros).date.year >= 1970
  {
    DaysBeforeEpochAreNegative(UtcParts(unixMicros));
    DatesFromTheEpochOn(UtcParts(unixMicros).date);
  }

  predicate FitsI64(n: int) {
    I64_MIN <= n <= I64_MAX
  }

  /** No step of the algorithm leaves signed 64-bit arithmetic, for any day a 64-bit count of
      seconds can name. */
  lemma CivilDateDoesNotOverflow(seconds: int)
    requires FitsI64(seconds)
    ensures var days := seconds / 86_400;
      var shifted := days + 719_468;
      var era := Era(shifted);
      FitsI64(shifted) && FitsI64(shifted - 146_096) && FitsI64(era) && FitsI64(era * 146_097)
      && FitsI64(era * 400) && FitsI64(CivilDate(days).year)
      && 0 <= shifted - era * 146_097 < 146_097
  {
    var days := seconds / 86_400;
    var shifted := days + 719_468;
    assert -106_751_991_167_301 <= days <= 106_751_991_167_300;
    YearOfEraIsRight(shifted - Era(shifted) * 146_097);
  }
}
