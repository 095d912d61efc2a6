/**
 The Gregorian calendar as the billing tick uses it, and the billing periods built on it.

 A day is counted from 0000-01-01 (day 0). A month is counted from January of year 0, so that
 month arithmetic that leaves 1..12 normalises by itself, as it does for the constructor of dates
 in the modelled program.
 */
module Calendar {
  import opened Base

  /** The leap-year rule of Appendix C of RFC 3339. */
  predicate IsLeap(year: int) {
    year % 4 == 0 && (year % 100 != 0 || year % 400 == 0)
  }

  /** The days in a month, by section 5.7 of RFC 3339. */
  function MonthLength(month: int): (days: int)
    ensures 28 <= days <= 31
  {
    var m := month % 12;
    if m == 1 then (if IsLeap(month / 12) then 29 else 28)
    else if m == 3 || m == 5 || m == 8 || m == 10 then 30
    else 31
  }

  /** The day number of the first of a month: the lengths of all months between it and January of year 0. */
  function MonthStart(month: int): int
    decreases if month < 0 then -month else month
  {
    if month == 0 then 0
    else if month > 0 then MonthStart(month - 1) + MonthLength(month - 1)
    else MonthStart(month + 1) - MonthLength(month)
  }

  lemma MonthsAbut(month: int)
    ensures MonthStart(month + 1) == MonthStart(month) + MonthLength(month)
  {
  }

  /** Days from 1 January of year 0 to 1 January of the given year. */
  function YearStart(year: int): int {
    365 * year + MultiplesBefore(year, 4) - MultiplesBefore(year, 100) + MultiplesBefore(year, 400)
  }

  /** How many multiples of `d` lie in 0..year, the year itself left out. */
  function MultiplesBefore(year: int, d: int): int
    requires d > 0
  {
    (year + d - 1) / d
  }

  lemma YearLength(year: int)
    ensures YearStart(year + 1) == YearStart(year) + if IsLeap(year) then 366 else 365
  {
    Step4(year);
    Step100(year);
    Step400(year);
    hide MultiplesBefore;
    MultiplesNest(year);
  }

  lemma Step4(year: int)
    ensures MultiplesBefore(year + 1, 4) == MultiplesBefore(year, 4) + if year % 4 == 0 then 1 else 0
  {
  }

  lemma Step100(year: int)
    ensures MultiplesBefore(year + 1, 100) == MultiplesBefore(year, 100) + if year % 100 == 0 then 1 else 0
  {
  }

  lemma Step400(year: int)
    ensures MultiplesBefore(year + 1, 400) == MultiplesBefore(year, 400) + if year % 400 == 0 then 1 else 0
  {
  }

  lemma MultiplesNest(year: int)
    ensures year % 400 == 0 ==> year % 100 == 0
    ensures year % 100 == 0 ==> year % 4 == 0
  {
    Hundreds(year, year / 400);
    Fours(year, year / 100);
  }

  lemma Hundreds(year: int, q: int)
    ensures year == 400 * q ==> year % 100 == 0
  {
    if year == 400 * q {
      assert year == 100 * (4 * q);
    }
  }

  lemma Fours(year: int, q: int)
    ensures year == 100 * q ==> year % 4 == 0
  {
    if year == 100 * q {
      assert year == 4 * (25 * q);
    }
  }

  lemma MonthOfYear(year: int, m: int)
    requires 0 <= m < 12
    ensures (12 * year + m) / 12 == year && (12 * year + m) % 12 == m
  {
  }

  lemma TwelveMonths(year: int)
    ensures MonthStart(12 * year + 12) == MonthStart(12 * year) + if IsLeap(year) then 366 else 365
  {
    SomeMonths(year, 0); SomeMonths(year, 3); SomeMonths(year, 6); SomeMonths(year, 9);
  }

  lemma SomeMonths(year: int, m: int)
    requires m == 0 || m == 3 || m == 6 || m == 9
    ensures MonthStart(12 * year + m + 3) == MonthStart(12 * year + m) +
      if m == 0 then (if IsLeap(year) then 91 else 90) else if m == 3 then 91 else 92
  {
    var n := 12 * year + m;
    MonthOfYear(year, m); MonthOfYear(year, m + 1); MonthOfYear(year, m + 2);
    MonthsAbut(n); MonthsAbut(n + 1); MonthsAbut(n + 2);
  }

  /** Counting month lengths one by one agrees with the closed form that counts leap years. */
  lemma {:induction false} YearsAbut(year: int)
    ensures MonthStart(12 * year) == YearStart(year)
    decreases if year < 0 then -year else year
  {
    if year > 0 {
      YearsAbut(year - 1);
      TwelveMonths(year - 1);
      YearLength(year - 1);
    } else if year < 0 {
      YearsAbut(year + 1);
      TwelveMonths(year);
      YearLength(year);
    }
  }

  lemma {:induction false} MonthsAscend(a: int, b: int)
    requires a <= b
    ensures MonthStart(a) + 28 * (b - a) <= MonthStart(b)
    decreases b - a
  {
    if a < b {
      MonthsAscend(a, b - 1);
      MonthsAbut(b - 1);
    }
  }

  /** The month a day falls in. */
  function MonthOf(day: int): (month: int)
    ensures MonthStart(month) <= day < MonthStart(month + 1)
  {
    Search(day, 0)
  }

  /** Walks month by month, forward or back, to the one that holds the day. */
  function Search(day: int, from: int): (month: int)
    ensures MonthStart(month) <= day < MonthStart(month + 1)
    decreases if day < MonthStart(from) then 2 * (MonthStart(from) - day) + 64 else 2 * (day - MonthStart(from))
  {
    MonthsAbut(from);
    MonthsAbut(from - 1);
    if day < MonthStart(from) then Search(day, from - 1)
    else if MonthStart(from + 1) <= day then Search(day, from + 1)
    else from
  }

  lemma MonthUnique(day: int, month: int)
    requires MonthStart(month) <= day < MonthStart(month + 1)
    ensures MonthOf(day) == month
  {
    var found := MonthOf(day);
    if found < month {
      MonthsAscend(found + 1, month);
    } else if month < found {
      MonthsAscend(month + 1, found);
    }
  }

  function DayOfMonth(day: int): (d: int)
    ensures 1 <= d <= 31
  {
    MonthsAbut(MonthOf(day));
    day - MonthStart(MonthOf(day)) + 1
  }

  /** The day with this month and day of month; either may lie outside its usual range. */
  function Date(month: int, d: int): int {
    MonthStart(month) + d - 1
  }

  /** Adds months and then days to a date, normalising the result. */
  function AddDate(day: int, months: int, days: int): int {
    Date(MonthOf(day) + months, DayOfMonth(day) + days)
  }

  /** Every date is the pair of its month and its day of month, and only that pair in range. */
  lemma DateRoundTrip(day: int, month: int, d: int)
    ensures Date(MonthOf(day), DayOfMonth(day)) == day
    ensures AddDate(day, 0, d) == day + d
    ensures 1 <= d <= MonthLength(month) ==> MonthOf(Date(month, d)) == month && DayOfMonth(Date(month, d)) == d
  {
    if 1 <= d <= MonthLength(month) {
      MonthsAbut(month);
      MonthUnique(Date(month, d), month);
    }
  }

  /** The day of an instant. */
  function DayNumber(t: Time): (day: int)
    ensures day * DAY <= t < (day + 1) * DAY
  {
    t / DAY
  }

  // ------------------------------------------------------------------
  // Billing periods
  // ------------------------------------------------------------------

  /** The anchor date of a month: the wanted day, moved back to the last day of a shorter month. */
  function Anchor(month: int, day: int): int {
    var first := Date(month, 1);
    var maxDay := DayOfMonth(AddDate(first, 1, -1));
    var capped := if day > maxDay then maxDay else day;
    Date(MonthOf(first), if capped < 1 then 1 else capped)
  }

  /** The first day of the billing period that holds `now`, and its last day. */
  function CyclePeriod(now: Time, activatedAt: Option<Time>, anchorDay: int): (Time, Time) {
    var month := MonthOf(DayNumber(now));
    if anchorDay <= 0 && activatedAt.None? then
      var start := Date(month, 1);
      (start * DAY, AddDate(start, 1, 0) * DAY - DAY)
    else
      var day := if anchorDay <= 0 then DayOfMonth(DayNumber(activatedAt.value)) else anchorDay;
      var thisMonth := Anchor(month, day);
      var candidate := if thisMonth * DAY > now then Anchor(month - 1, day) else thisMonth;
      var next := Anchor(MonthOf(candidate) + 1, day);
      (candidate * DAY, next * DAY - DAY)
  }

  /** The day of month a customer's periods are anchored on. */
  function AnchorDayOf(activatedAt: Option<Time>, anchorDay: int): int {
    if anchorDay > 0 then anchorDay
    else if activatedAt.None? then 1
    else DayOfMonth(DayNumber(activatedAt.value))
  }

  lemma AnchorClamps(month: int, day: int)
    ensures Anchor(month, day) == Date(month, Max(1, Min(day, MonthLength(month))))
    ensures MonthOf(Anchor(month, day)) == month
  {
    hide MonthOf, MonthStart;
    var first := Date(month, 1);
    DateRoundTrip(first, month, 1);
    DateRoundTrip(first, month, MonthLength(month));
    MonthsAbut(month);
    assert AddDate(first, 1, -1) == Date(month, MonthLength(month));
    DateRoundTrip(first, month, Max(1, Min(day, MonthLength(month))));
  }

  lemma AnchorsAscend(a: int, b: int, day: int)
    requires a < b
    ensures Anchor(a, day) < Anchor(b, day)
  {
    AnchorClamps(a, day);
    AnchorClamps(b, day);
    MonthsAbut(a);
    MonthsAscend(a + 1, b);
  }

  /** The month that starts the period holding `now`. */
  function PeriodMonth(now: Time, day: int): int {
    var month := MonthOf(DayNumber(now));
    if Anchor(month, day) * DAY > now then month - 1 else month
  }

  lemma AnchorInMonth(month: int, day: int)
    ensures MonthStart(month) <= Anchor(month, day) < MonthStart(month + 1)
  {
    AnchorClamps(month, day);
    MonthsAbut(month);
  }

  lemma PeriodHoldsNow(now: Time, day: int)
    ensures Anchor(PeriodMonth(now, day), day) * DAY <= now < Anchor(PeriodMonth(now, day) + 1, day) * DAY
  {
    hide Anchor, MonthStart, DayNumber, MonthOf;
    var month := MonthOf(DayNumber(now));
    AnchorInMonth(month - 1, day);
    AnchorInMonth(month, day);
    AnchorInMonth(month + 1, day);
  }

  /**
   A period runs from one anchor to the next and holds `now`; legacy rows without an activation date bill
   from the 1st.
   */
  lemma PeriodSpansAnchors(now: Time, activatedAt: Option<Time>, anchorDay: int)
    ensures
      var (start, end) := CyclePeriod(now, activatedAt, anchorDay);
      var day := AnchorDayOf(activatedAt, anchorDay);
      var k := PeriodMonth(now, day);
      start == Anchor(k, day) * DAY && end + DAY == Anchor(k + 1, day) * DAY && start <= now < end + DAY
  {
    hide Anchor, MonthStart, DayNumber, MonthOf, DayOfMonth;
    var day := AnchorDayOf(activatedAt, anchorDay);
    var month := MonthOf(DayNumber(now));
    PeriodHoldsNow(now, day);
    AnchorClamps(month - 1, day);
    AnchorClamps(month, day);
    if anchorDay <= 0 && activatedAt.None? {
      FirstOfMonth(month);
      FirstOfMonth(month + 1);
    }
  }

  lemma FirstOfMonth(month: int)
    ensures Anchor(month, 1) == Date(month, 1)
    ensures AddDate(Date(month, 1), 1, 0) == Date(month + 1, 1)
  {
    AnchorClamps(month, 1);
    DateRoundTrip(Date(month, 1), month, 1);
  }

  /** For one anchor day, the periods of any two instants are the same period or do not overlap. */
  lemma PeriodsTile(
    t: Time, u: Time, activatedAt: Option<Time>, anchorDay: int, activatedAt': Option<Time>, anchorDay': int)
    requires AnchorDayOf(activatedAt, anchorDay) == AnchorDayOf(activatedAt', anchorDay')
    ensures
      var (start, end) := CyclePeriod(t, activatedAt, anchorDay);
      var (start', end') := CyclePeriod(u, activatedAt', anchorDay');
      (start == start' && end == end') || end + DAY <= start' || end' + DAY <= start
  {
    hide Anchor, CyclePeriod, PeriodMonth, MonthStart;
    var day := AnchorDayOf(activatedAt, anchorDay);
    PeriodSpansAnchors(t, activatedAt, anchorDay);
    PeriodSpansAnchors(u, activatedAt', anchorDay');
    var k, k' := PeriodMonth(t, day), PeriodMonth(u, day);
    if k + 1 < k' {
      AnchorsAscend(k + 1, k', day);
    } else if k' + 1 < k {
      AnchorsAscend(k' + 1, k, day);
    }
  }

  /** An instant lies in exactly the period it is billed under: every instant of a period yields that period. */
  lemma PeriodStable(t: Time, u: Time, activatedAt: Option<Time>, anchorDay: int)
    ensures
      var (start, end) := CyclePeriod(t, activatedAt, anchorDay);
      CyclePeriod(u, activatedAt, anchorDay) == (start, end) <==> start <= u < end + DAY
  {
    PeriodsTile(t, u, activatedAt, anchorDay, activatedAt, anchorDay);
    PeriodSpansAnchors(u, activatedAt, anchorDay);
  }

  /** The instant a period ends, the next period starts: no day is billed twice and none is skipped. */
  lemma NextPeriodAbuts(now: Time, activatedAt: Option<Time>, anchorDay: int)
    ensures
      var end := CyclePeriod(now, activatedAt, anchorDay).1;
      CyclePeriod(end + DAY, activatedAt, anchorDay).0 == end + DAY
  {
    hide Anchor, CyclePeriod, PeriodMonth, MonthStart;
    var day := AnchorDayOf(activatedAt, anchorDay);
    var end := CyclePeriod(now, activatedAt, anchorDay).1;
    PeriodSpansAnchors(now, activatedAt, anchorDay);
    PeriodSpansAnchors(end + DAY, activatedAt, anchorDay);
    var k, k' := PeriodMonth(now, day), PeriodMonth(end + DAY, day);
    if k' < k + 1 {
      if k' + 1 < k + 1 { AnchorsAscend(k' + 1, k + 1, day); }
      assert false;
    } else if k + 1 < k' {
      AnchorsAscend(k + 1, k', day);
      assert false;
    }
  }

  /** Month-end clamping never makes a period shorter than February or longer than a long month. */
  lemma PeriodLength(now: Time, activatedAt: Option<Time>, anchorDay: int)
    ensures
      var (start, end) := CyclePeriod(now, activatedAt, anchorDay);
      28 * DAY <= end + DAY - start <= 31 * DAY
  {
    hide Anchor, CyclePeriod, PeriodMonth, MonthStart, MonthOf, MonthLength, DayNumber, AnchorDayOf;
    var day := AnchorDayOf(activatedAt, anchorDay);
    PeriodSpansAnchors(now, activatedAt, anchorDay);
    var k := PeriodMonth(now, day);
    AnchorClamps(k, day);
    AnchorClamps(k + 1, day);
    MonthsAbut(k);
  }
}
