/**
 * The proleptic Gregorian calendar at a fixed offset, as time.Date and AddDate use it. Instants count nanoseconds
 * from 1 January of year 1, months count from that January, and days of a month start at 1.
 */
module Calendar {
  import opened Prelude

  predicate Leap(year: int) { year % 4 == 0 && (year % 100 != 0 || year % 400 == 0) }

  function MonthLength(month: int): (n: nat)
    ensures 28 <= n <= 31
  {
    match month % 12
    case 1 => if Leap(1 + month / 12) then 29 else 28
    case 3 => 30
    case 5 => 30
    case 8 => 30
    case 10 => 30
    case _ => 31
  }

  /** Days before the first day of a month. */
  function MonthStart(month: int): int
    decreases Abs(month)
  {
    if month == 0 then 0
    else if month > 0 then MonthStart(month - 1) + MonthLength(month - 1)
    else MonthStart(month + 1) - MonthLength(month)
  }

  lemma MonthStartNext(month: int)
    ensures MonthStart(month + 1) == MonthStart(month) + MonthLength(month)
  {
  }

  lemma {:induction false} MonthStartIncreasing(m: int, n: int)
    requires m < n
    ensures MonthStart(m) + MonthLength(m) <= MonthStart(n)
    decreases n - m
  {
    MonthStartNext(n - 1);
    if m < n - 1 {
      MonthStartIncreasing(m, n - 1);
    }
  }

  lemma MonthOfYear(year: int, i: nat)
    requires i < 12
    ensures (12 * year + i) % 12 == i && (12 * year + i) / 12 == year
  {
  }

  lemma QuarterLength(year: int, i: nat)
    requires i in {0, 3, 6, 9}
    ensures var m := 12 * year + i;
      MonthStart(m + 3) == MonthStart(m) +
        if i == 0 then (if Leap(year + 1) then 91 else 90) else if i == 3 then 91 else 92
  {
    var m := 12 * year + i;
    MonthOfYear(year, i);
    MonthOfYear(year, i + 1);
    MonthOfYear(year, i + 2);
    MonthStartNext(m);
    MonthStartNext(m + 1);
    MonthStartNext(m + 2);
  }

  /** The four quarters of one year. */
  lemma YearLength(year: int)
    ensures MonthStart(12 * year + 12) == MonthStart(12 * year) + if Leap(year + 1) then 366 else 365
  {
    QuarterLength(year, 0);
    QuarterLength(year, 3);
    QuarterLength(year, 6);
    QuarterLength(year, 9);
  }

  lemma EveryFourth(y: int)
    ensures (y + 1) / 4 == y / 4 + if (y + 1) % 4 == 0 then 1 else 0
  {
  }

  lemma EveryHundredth(y: int)
    ensures (y + 1) / 100 == y / 100 + if (y + 1) % 100 == 0 then 1 else 0
    ensures y % 100 == 0 ==> y % 4 == 0
  {
    assert y % 100 == 0 ==> y == 4 * (y / 100 * 25);
  }

  lemma EveryFourHundredth(y: int)
    ensures (y + 1) / 400 == y / 400 + if (y + 1) % 400 == 0 then 1 else 0
    ensures y % 400 == 0 ==> y % 100 == 0
  {
    assert y % 400 == 0 ==> y == 100 * (y / 400 * 4);
  }

  lemma LeapStep(year: int)
    ensures (year + 1) / 4 - (year + 1) / 100 + (year + 1) / 400 ==
      year / 4 - year / 100 + year / 400 + if Leap(year + 1) then 1 else 0
  {
    EveryFourth(year);
    EveryHundredth(year);
    EveryHundredth(year + 1);
    EveryFourHundredth(year);
    EveryFourHundredth(year + 1);
  }

  /** Month by month and by the leap-year rule one counts the same days before a year. */
  lemma {:induction false} DaysBeforeYear(year: int)
    ensures MonthStart(12 * year) == 365 * year + year / 4 - year / 100 + year / 400
    decreases Abs(year)
  {
    if year > 0 {
      DaysBeforeYear(year - 1);
      YearLength(year - 1);
      LeapStep(year - 1);
    } else if year < 0 {
      DaysBeforeYear(year + 1);
      YearLength(year);
      LeapStep(year);
    }
  }

  /** The steps of the closed form are the lengths of the months from March on. */
  lemma MonthSteps(i: nat)
    requires 2 <= i < 11
    ensures (153 * (i - 1) + 2) / 5 - (153 * (i - 2) + 2) / 5 ==
      if i == 3 || i == 5 || i == 8 || i == 10 then 30 else 31
  {
    assert i == 2 || i == 3 || i == 4 || i == 5 || i == 6 || i == 7 || i == 8 || i == 9 || i == 10;
  }

  /** What the first months of a year come to. */
  lemma MonthInYear(year: int, i: nat)
    requires i < 12
    ensures MonthStart(12 * year + i) == MonthStart(12 * year)
      + (if i < 2 then 31 * i else 59 + (153 * (i - 2) + 2) / 5) + (if i >= 2 && Leap(year + 1) then 1 else 0)
    decreases i
  {
    if i > 0 {
      MonthInYear(year, i - 1);
      MonthOfYear(year, i - 1);
      MonthStartNext(12 * year + i - 1);
      if i > 2 {
        MonthSteps(i - 1);
      }
    }
  }

  /** From March on the leap day of the year is behind. */
  lemma DaysBeforeLateMonth(year: int, i: nat)
    requires 2 <= i < 12
    ensures MonthStart(12 * year + i) ==
      365 * year + (year + 1) / 4 - (year + 1) / 100 + (year + 1) / 400 + 59 + (153 * (i - 2) + 2) / 5
  {
    MonthInYear(year, i);
    DaysBeforeYear(year);
    LeapStep(year);
  }

  lemma DaysBeforeEarlyMonth(year: int, i: nat)
    requires i < 2
    ensures MonthStart(12 * year + i) ==
      365 * (year - 1) + year / 4 - year / 100 + year / 400 + 59 + (153 * (i + 10) + 2) / 5
  {
    MonthInYear(year, i);
    DaysBeforeYear(year);
  }

  /** Counting the years from March, the day number of every first of a month in closed form. */
  lemma DaysBeforeMonth(month: int)
    ensures var i := month % 12;
      var year, k := if i >= 2 then 1 + month / 12 else month / 12, if i >= 2 then i - 2 else i + 10;
      MonthStart(month) == 365 * (year - 1) + year / 4 - year / 100 + year / 400 + 59 + (153 * k + 2) / 5
  {
    if month % 12 >= 2 {
      DaysBeforeLateMonth(month / 12, month % 12);
    } else {
      DaysBeforeEarlyMonth(month / 12, month % 12);
    }
  }

  /** How far the day is from the month, in days outside it. */
  function DaysOutside(month: int, day: int): nat {
    if day < MonthStart(month) then MonthStart(month) - day
    else if day >= MonthStart(month + 1) then day - MonthStart(month + 1) + 1
    else 0
  }

  function FindMonth(month: int, day: int): (r: int)
    ensures MonthStart(r) <= day < MonthStart(r + 1)
    decreases DaysOutside(month, day)
  {
    MonthStartNext(month - 1);
    MonthStartNext(month);
    MonthStartNext(month + 1);
    if day < MonthStart(month) then FindMonth(month - 1, day)
    else if day >= MonthStart(month + 1) then FindMonth(month + 1, day)
    else month
  }

  datatype Civil = Civil(month: int, day: int, timeOfDay: Time)

  predicate ValidCivil(c: Civil) { 1 <= c.day <= MonthLength(c.month) && 0 <= c.timeOfDay < DAY }

  /** time.Date: a day outside the month runs over into its neighbours. */
  function Date(month: int, day: int, timeOfDay: Time): Time { (MonthStart(month) + day - 1) * DAY + timeOfDay }

  function CivilOf(t: Time): (c: Civil) {
    var month := FindMonth(0, t / DAY);
    Civil(month, t / DAY - MonthStart(month) + 1, t % DAY)
  }

  function AddDate(t: Time, years: int, months: int, days: int): Time {
    var c := CivilOf(t);
    Date(c.month + 12 * years + months, c.day + days, c.timeOfDay)
  }

  lemma CivilRoundTrip(t: Time)
    ensures ValidCivil(CivilOf(t))
    ensures Date(CivilOf(t).month, CivilOf(t).day, CivilOf(t).timeOfDay) == t
  {
    MonthStartNext(CivilOf(t).month);
  }

  lemma DateRoundTrip(c: Civil)
    requires ValidCivil(c)
    ensures CivilOf(Date(c.month, c.day, c.timeOfDay)) == c
  {
    var d := MonthStart(c.month) + c.day - 1;
    DayOfInstant(d, c.timeOfDay);
    var month := FindMonth(0, d);
    MonthStartNext(c.month);
    if month < c.month { MonthStartIncreasing(month, c.month); MonthStartNext(month); }
    if c.month < month { MonthStartIncreasing(c.month, month); }
  }

  lemma DayOfInstant(d: int, timeOfDay: Time)
    requires 0 <= timeOfDay < DAY
    ensures (d * DAY + timeOfDay) / DAY == d && (d * DAY + timeOfDay) % DAY == timeOfDay
  {
  }

  /** Adding days is adding multiples of 24 hours at a fixed offset. */
  lemma AddDays(t: Time, days: int)
    ensures AddDate(t, 0, 0, days) == t + days * DAY
  {
    CivilRoundTrip(t);
  }

  /** Three years before a leap year there was none. */
  lemma MonthThreeYearsBefore(month: int)
    ensures MonthLength(month - 36) ==
      if month % 12 == 1 && Leap(1 + month / 12) then 28
      else if month % 12 == 1 && Leap(month / 12 - 2) then 29 else MonthLength(month)
    ensures (month - 36) % 12 == month % 12
  {
    assert (month - 36) % 12 == month % 12 && (month - 36) / 12 == month / 12 - 3;
  }

  function CivilThreeYearsBefore(now: Civil): Civil {
    if now.month % 12 == 1 && now.day == 29 then Civil(now.month - 35, 1, now.timeOfDay)
    else Civil(now.month - 36, now.day, now.timeOfDay)
  }

  lemma DateThreeYearsBefore(now: Civil)
    requires ValidCivil(now)
    ensures CivilOf(Date(now.month - 36, now.day, now.timeOfDay)) == CivilThreeYearsBefore(now)
  {
    MonthThreeYearsBefore(now.month);
    MonthStartNext(now.month - 36);
    DateRoundTrip(CivilThreeYearsBefore(now));
  }

  /** Three years before the last of February in a leap year there was no such day, so it is the first of March. */
  lemma ThreeYearsBefore(t: Time)
    ensures var was, now := CivilOf(AddDate(t, -3, 0, 0)), CivilOf(t);
      was == if now.month % 12 == 1 && now.day == 29 then Civil(now.month - 35, 1, now.timeOfDay)
             else Civil(now.month - 36, now.day, now.timeOfDay)
  {
    CivilRoundTrip(t);
    DateThreeYearsBefore(CivilOf(t));
  }

  // ---------- Month boundaries ----------

  /** finance/cash_flow_series.go:85-110, for a start given by its civil fields. */
  function MonthBoundary(start: Civil, monthIndex: int): Time {
    var firstOfTargetMonth := Date(start.month + monthIndex, 1, start.timeOfDay);
    var lastOfTargetMonth := CivilOf(AddDate(firstOfTargetMonth, 0, 1, -1)).day;
    Date(CivilOf(firstOfTargetMonth).month, Min(start.day, lastOfTargetMonth), start.timeOfDay)
  }

  /** Adding an interval of whole months to a local timestamp, the day clamped to the month's end. */
  function PlusMonths(start: Civil, months: int): Time {
    var month := start.month + months;
    Date(month, if start.day <= MonthLength(month) then start.day else MonthLength(month), start.timeOfDay)
  }

  /** The civil fields some months later. */
  lemma PlusMonthsCivil(start: Civil, months: int)
    requires ValidCivil(start)
    ensures var later := CivilOf(PlusMonths(start, months));
      && later.month == start.month + months && later.timeOfDay == start.timeOfDay
      && later.day == if start.day <= MonthLength(later.month) then start.day else MonthLength(later.month)
  {
    var month := start.month + months;
    DateRoundTrip(Civil(
      month, if start.day <= MonthLength(month) then start.day else MonthLength(month), start.timeOfDay));
  }

  /** The two month additions agree. */
  lemma MonthBoundaryIsPlusMonths(start: Civil, monthIndex: int)
    requires ValidCivil(start)
    ensures MonthBoundary(start, monthIndex) == PlusMonths(start, monthIndex)
  {
    var month := start.month + monthIndex;
    var first := Date(month, 1, start.timeOfDay);
    DateRoundTrip(Civil(month, 1, start.timeOfDay));
    assert AddDate(first, 0, 1, -1) == Date(month + 1, 0, start.timeOfDay);
    MonthStartNext(month);
    assert Date(month + 1, 0, start.timeOfDay) == Date(month, MonthLength(month), start.timeOfDay);
    DateRoundTrip(Civil(month, MonthLength(month), start.timeOfDay));
  }

  lemma DaysApart(d: int, e: int, timeOfDay: Time)
    requires d < e
    ensures d * DAY + timeOfDay + DAY <= e * DAY + timeOfDay
  {
  }

  lemma PlusMonthsIncreasing(start: Civil, i: int, j: int)
    requires ValidCivil(start) && i < j
    ensures PlusMonths(start, i) + DAY <= PlusMonths(start, j)
  {
    var m, n := start.month + i, start.month + j;
    MonthStartIncreasing(m, n);
    var d := MonthStart(m) + (if start.day <= MonthLength(m) then start.day else MonthLength(m)) - 1;
    var e := MonthStart(n) + (if start.day <= MonthLength(n) then start.day else MonthLength(n)) - 1;
    DaysApart(d, e, start.timeOfDay);
  }

  /** Boundaries are strictly increasing in the month index, whatever the clamping. */
  lemma MonthBoundaryIncreasing(start: Civil, i: int, j: int)
    requires ValidCivil(start) && i < j
    ensures MonthBoundary(start, i) + DAY <= MonthBoundary(start, j)
  {
    MonthBoundaryIsPlusMonths(start, i);
    MonthBoundaryIsPlusMonths(start, j);
    PlusMonthsIncreasing(start, i, j);
  }
}
