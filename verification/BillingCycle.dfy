/** Billing cycles on the civil calendar (src/hw_radar/acquisition/apify/budget.py:661-691). */
module BillingCycle {
  import opened Prelude

  // ── The proleptic Gregorian calendar ──────────────────────────────────────

  predicate Leap(year: int) {
    year % 4 == 0 && (year % 100 != 0 || year % 400 == 0)
  }

  function DaysInMonth(year: int, month: int): (d: int)
    ensures 28 <= d <= 31
  {
    if month == 2 then (if Leap(year) then 29 else 28)
    else if month == 4 || month == 6 || month == 9 || month == 11 then 30
    else 31
  }

  /** The length of the month with this index, counted from January of year 0. */
  function MonthDays(index: int): (d: int)
    ensures 28 <= d <= 31
  {
    DaysInMonth(index / 12, index % 12 + 1)
  }

  const EPOCH_MONTH := 12

  /** Days from 1 January of year 1 to the first of a month: each month follows the one before. */
  function FirstOfMonth(index: int): int
    decreases if index >= EPOCH_MONTH then index - EPOCH_MONTH else EPOCH_MONTH - index
  {
    if index == EPOCH_MONTH then 0
    else if index > EPOCH_MONTH then FirstOfMonth(index - 1) + MonthDays(index - 1)
    else FirstOfMonth(index + 1) - MonthDays(index)
  }

  lemma MonthLength(index: int)
    ensures FirstOfMonth(index + 1) == FirstOfMonth(index) + MonthDays(index)
  {
  }

  /** Days before 1 January of a year, in closed form: a leap day every fourth year, except every hundredth, but every four hundredth. */
  function DaysBeforeYear(year: int): int {
    365 * (year - 1) + (year - 1) / 4 - (year - 1) / 100 + (year - 1) / 400
  }

  /** Days of a common year before the first of each month. */
  const DAYS_BEFORE_MONTH: seq<int> := [0, 31, 59, 90, 120, 151, 181, 212, 243, 273, 304, 334, 365]

  lemma LeapDays(year: int)
    ensures DaysBeforeYear(year + 1) - DaysBeforeYear(year) == if Leap(year) then 366 else 365
  {
    Quotient(year, 4);
    Quotient(year, 100);
    Quotient(year, 400);
    Multiples(year);
  }

  lemma Multiples(year: int)
    ensures year % 400 == 0 ==> year % 100 == 0
    ensures year % 100 == 0 ==> year % 4 == 0
  {
  }

  lemma Quotient(year: int, n: int)
    requires n > 1
    ensures year / n - (year - 1) / n == if year % n == 0 then 1 else 0
  {
    var q, r := year / n, year % n;
    assert year == q * n + r && 0 <= r < n;
    if r == 0 {
      assert year - 1 == (q - 1) * n + (n - 1);
      Divided(year - 1, n, q - 1, n - 1);
    } else {
      Divided(year - 1, n, q, r - 1);
    }
  }

  lemma Divided(x: int, n: int, q: int, r: int)
    requires n > 0 && x == q * n + r && 0 <= r < n
    ensures x / n == q
  {
    var d := x / n - q;
    assert x == (x / n) * n + x % n;
    assert d * n == r - x % n;
    assert d >= 1 ==> d * n >= n;
    assert d <= -1 ==> d * n <= -n;
  }

  /** Within a year each month starts where the table says, a day later after February of a leap year. */
  lemma {:induction false} MonthStarts(year: int, m: nat)
    requires m <= 12
    ensures FirstOfMonth(12 * year + m) == FirstOfMonth(12 * year) + DAYS_BEFORE_MONTH[m] + if m >= 2 && Leap(year) then 1 else 0
  {
    if m > 0 {
      MonthStarts(year, m - 1);
      MonthLength(12 * year + m - 1);
      Divided(12 * year + m - 1, 12, year, m - 1);
      assert (12 * year + m - 1) % 12 == m - 1;
    }
  }

  lemma {:induction false} YearStarts(year: int)
    ensures FirstOfMonth(12 * year) == DaysBeforeYear(year)
    decreases if year >= 1 then year - 1 else 1 - year
  {
    if year > 1 {
      YearStarts(year - 1);
      MonthStarts(year - 1, 12);
      LeapDays(year - 1);
    } else if year < 1 {
      YearStarts(year + 1);
      MonthStarts(year, 12);
      LeapDays(year);
    }
  }

  /** The calendar against its closed form: the first of every month of every year is the day the Gregorian rules give. */
  lemma FirstOfMonthIs(year: int, month: int)
    requires 1 <= month <= 12
    ensures FirstOfMonth(12 * year + month - 1)
            == 365 * (year - 1) + (year - 1) / 4 - (year - 1) / 100 + (year - 1) / 400 + DAYS_BEFORE_MONTH[month - 1]
               + if month >= 3 && year % 4 == 0 && (year % 100 != 0 || year % 400 == 0) then 1 else 0
  {
    YearStarts(year);
    MonthStarts(year, month - 1);
  }

  const DAY: Duration := 86_400 * SECOND
  const HOUR: Duration := 3_600 * SECOND
  const MILLISECOND: Duration := 1_000
  const CYCLE_END_EPSILON: Duration := MILLISECOND
  const FULL_CYCLE_HOURS := 744

  /** A UTC date and time of day. */
  datatype DateTime = DateTime(year: int, month: int, day: int, timeOfDay: Duration) {
    predicate Valid() {
      1 <= month <= 12 && 1 <= day <= DaysInMonth(year, month) && 0 <= timeOfDay < DAY
    }

    function MonthIndex(): int {
      12 * year + month - 1
    }

    /** The day number. */
    function Date(): int {
      FirstOfMonth(MonthIndex()) + day - 1
    }

    function Instant(): Time {
      Date() * DAY + timeOfDay
    }
  }

  // ── Cycles ────────────────────────────────────────────────────────────────

  /** A configured anchor: UTC midnight on a day every month has. */
  predicate IsAnchor(a: DateTime) {
    1 <= a.month <= 12 && 1 <= a.day <= 28 && a.timeOfDay == 0
  }

  /** UTC midnight on the anchor's day, `k` months after the anchor's month. */
  function CycleStart(anchor: DateTime, k: int): DateTime {
    var months := anchor.month - 1 + k;
    DateTime(anchor.year + months / 12, months % 12 + 1, anchor.day, 0)
  }

  datatype Cycle = Cycle(start: Time, end: Time)

  /** The cycle that contains an instant, by one correction step; None before the anchor. */
  function BillingCycleBounds(anchor: DateTime, at: DateTime): Option<Cycle> {
    if at.Instant() < anchor.Instant() then None
    else
      var guess := 12 * (at.year - anchor.year) + (at.month - anchor.month);
      var k := if CycleStart(anchor, guess).Instant() > at.Instant() then guess - 1 else guess;
      Some(Cycle(CycleStart(anchor, k).Instant(), CycleStart(anchor, k + 1).Instant() - CYCLE_END_EPSILON))
  }

  /** The day a cycle starts on. */
  function StartDay(anchor: DateTime, k: int): int {
    FirstOfMonth(anchor.MonthIndex() + k) + anchor.day - 1
  }

  lemma StartIsItsDay(anchor: DateTime, k: int)
    requires IsAnchor(anchor)
    ensures CycleStart(anchor, k).Instant() == StartDay(anchor, k) * DAY
  {
    assert CycleStart(anchor, k).MonthIndex() == anchor.MonthIndex() + k;
  }

  /** Starts strictly increase, a cycle being 28 to 31 days, across year ends and leap years alike. */
  lemma CyclesAreMonths(anchor: DateTime, k: int)
    requires IsAnchor(anchor)
    ensures 28 <= StartDay(anchor, k + 1) - StartDay(anchor, k) <= 31
  {
    MonthLength(anchor.MonthIndex() + k);
  }

  lemma {:induction false} StartsIncrease(anchor: DateTime, j: int, k: int)
    requires IsAnchor(anchor) && j < k
    ensures StartDay(anchor, j) < StartDay(anchor, k)
    decreases k - j
  {
    CyclesAreMonths(anchor, j);
    if j + 1 < k { StartsIncrease(anchor, j + 1, k); }
  }

  /** The cycle of index k holds an instant. */
  predicate Holds(anchor: DateTime, k: int, at: Time) {
    CycleStart(anchor, k).Instant() <= at < CycleStart(anchor, k + 1).Instant()
  }

  predicate HoldsDay(anchor: DateTime, k: int, date: int) {
    StartDay(anchor, k) <= date < StartDay(anchor, k + 1)
  }

  lemma MidnightOrder(midnight: int, date: int, timeOfDay: Duration)
    requires 0 <= timeOfDay < DAY
    ensures midnight * DAY <= date * DAY + timeOfDay <==> midnight <= date
  {
    if midnight <= date {
      assert (date - midnight) * DAY >= 0;
    } else {
      assert (midnight - date - 1) * DAY >= 0;
    }
  }

  /** A start falls on midnight, so it has come exactly when its day has. */
  lemma StartedByDay(anchor: DateTime, k: int, at: DateTime)
    requires IsAnchor(anchor) && at.Valid()
    ensures CycleStart(anchor, k).Instant() <= at.Instant() <==> StartDay(anchor, k) <= at.Date()
  {
    StartIsItsDay(anchor, k);
    MidnightOrder(StartDay(anchor, k), at.Date(), at.timeOfDay);
  }

  lemma HoldsByDay(anchor: DateTime, k: int, at: DateTime)
    requires IsAnchor(anchor) && at.Valid()
    ensures Holds(anchor, k, at.Instant()) <==> HoldsDay(anchor, k, at.Date())
  {
    StartedByDay(anchor, k, at);
    StartedByDay(anchor, k + 1, at);
  }

  /** No two cycles hold the same day. */
  lemma OneCycleHolds(anchor: DateTime, j: int, k: int, date: int)
    requires IsAnchor(anchor) && HoldsDay(anchor, j, date) && HoldsDay(anchor, k, date)
    ensures j == k
  {
    if j < k && j + 1 != k { StartsIncrease(anchor, j + 1, k); }
    if k < j && k + 1 != j { StartsIncrease(anchor, k + 1, j); }
  }

  /** The month guess is right or one too far. */
  lemma GuessIsClose(anchor: DateTime, at: DateTime)
    requires IsAnchor(anchor) && at.Valid()
    ensures var guess := at.MonthIndex() - anchor.MonthIndex();
            HoldsDay(anchor, if StartDay(anchor, guess) > at.Date() then guess - 1 else guess, at.Date())
  {
    var m := at.MonthIndex();
    assert m / 12 == at.year && m % 12 + 1 == at.month;
    MonthLength(m - 1);
    MonthLength(m);
  }

  /** The chosen index holds the instant, and is not before the anchor's own cycle. */
  lemma ChosenHolds(anchor: DateTime, at: DateTime, k: int)
    requires IsAnchor(anchor) && at.Valid()
    requires var guess := at.MonthIndex() - anchor.MonthIndex();
             k == if StartDay(anchor, guess) > at.Date() then guess - 1 else guess
    ensures Holds(anchor, k, at.Instant())
    ensures at.Instant() >= anchor.Instant() ==> k >= 0
    ensures forall j :: Holds(anchor, j, at.Instant()) ==> j == k
  {
    GuessIsClose(anchor, at);
    HoldsByDay(anchor, k, at);
    MidnightOrder(anchor.Date(), at.Date(), at.timeOfDay);
    if k + 1 < 0 { StartsIncrease(anchor, k + 1, 0); }
    forall j | Holds(anchor, j, at.Instant()) ensures j == k {
      HoldsByDay(anchor, j, at);
      OneCycleHolds(anchor, j, k, at.Date());
    }
  }

  lemma CycleLength(anchor: DateTime, k: int)
    requires IsAnchor(anchor)
    ensures 28 * DAY <= CycleStart(anchor, k + 1).Instant() - CycleStart(anchor, k).Instant() <= FULL_CYCLE_HOURS * HOUR
  {
    StartIsItsDay(anchor, k);
    StartIsItsDay(anchor, k + 1);
    CyclesAreMonths(anchor, k);
    DaysSpan(StartDay(anchor, k), StartDay(anchor, k + 1));
  }

  lemma DaysSpan(from: int, to: int)
    requires 28 <= to - from <= 31
    ensures 28 * DAY <= to * DAY - from * DAY <= FULL_CYCLE_HOURS * HOUR
  {
    assert to * DAY - from * DAY == (to - from) * DAY;
  }

  /** The index the bounds are taken at. */
  function ChosenIndex(anchor: DateTime, at: DateTime): int {
    var guess := at.MonthIndex() - anchor.MonthIndex();
    if CycleStart(anchor, guess).Instant() > at.Instant() then guess - 1 else guess
  }

  lemma BoundsAreAtTheIndex(anchor: DateTime, at: DateTime)
    ensures var k := ChosenIndex(anchor, at);
            BillingCycleBounds(anchor, at)
            == if at.Instant() < anchor.Instant() then None
               else Some(Cycle(CycleStart(anchor, k).Instant(), CycleStart(anchor, k + 1).Instant() - CYCLE_END_EPSILON))
  {
    assert 12 * (at.year - anchor.year) + (at.month - anchor.month) == at.MonthIndex() - anchor.MonthIndex();
  }

  lemma IndexByDay(anchor: DateTime, at: DateTime)
    requires IsAnchor(anchor) && at.Valid()
    ensures var guess := at.MonthIndex() - anchor.MonthIndex();
            ChosenIndex(anchor, at) == if StartDay(anchor, guess) > at.Date() then guess - 1 else guess
  {
    StartedByDay(anchor, at.MonthIndex() - anchor.MonthIndex(), at);
  }

  lemma ChosenIs(anchor: DateTime, at: DateTime)
    requires IsAnchor(anchor) && at.Valid()
    ensures var k := ChosenIndex(anchor, at);
            && Holds(anchor, k, at.Instant()) && (at.Instant() >= anchor.Instant() ==> k >= 0)
            && forall j :: Holds(anchor, j, at.Instant()) ==> j == k
  {
    IndexByDay(anchor, at);
    ChosenHolds(anchor, at, ChosenIndex(anchor, at));
  }

  /**
   * Cycles tile time: for every instant at or after the anchor the bounds are those of the one cycle
   * that holds it, at most 744 hours long, ending a millisecond before its successor starts; before
   * the anchor there is none.
   */
  lemma CyclesTileTime(anchor: DateTime, at: DateTime) returns (k: int)
    requires IsAnchor(anchor) && at.Valid()
    ensures BillingCycleBounds(anchor, at).None? <==> at.Instant() < anchor.Instant()
    ensures at.Instant() >= anchor.Instant() ==>
              var cycle := BillingCycleBounds(anchor, at).value;
              && k >= 0 && Holds(anchor, k, at.Instant())
              && (forall j :: Holds(anchor, j, at.Instant()) ==> j == k)
              && cycle.start == CycleStart(anchor, k).Instant()
              && cycle.end == CycleStart(anchor, k + 1).Instant() - MILLISECOND
              && cycle.start < cycle.end && cycle.end - cycle.start <= FULL_CYCLE_HOURS * HOUR
  {
    k := ChosenIndex(anchor, at);
    BoundsAreAtTheIndex(anchor, at);
    ChosenIs(anchor, at);
    CycleLength(anchor, k);
  }
}
