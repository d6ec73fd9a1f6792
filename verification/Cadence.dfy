/** The four cadences: how far each moves the schedule, the slowdown ladder that links them, and
    how far back each looks for a login. */
module Cadence {
  import opened Common
  import opened Calendar

  /** A moment in whole seconds since 1970-01-01T00:00:00Z. */
  type Instant = int

  const DAY_SECONDS := 86400

  function DayOf(t: Instant): Day {
    t / DAY_SECONDS
  }

  function TimeOfDay(t: Instant): (s: int)
    ensures 0 <= s < DAY_SECONDS && t == DayOf(t) * DAY_SECONDS + s
  {
    t % DAY_SECONDS
  }

  function Midnight(d: Day): Instant {
    d * DAY_SECONDS
  }

  datatype Periodicity = Daily | Weekly | Monthly | Quarterly

  // ---- the whitelist ----------------------------------------------------------------------

  function ParsePeriodicity(value: string): Option<Periodicity> {
    if value == "daily" then Some(Daily)
    else if value == "weekly" then Some(Weekly)
    else if value == "monthly" then Some(Monthly)
    else if value == "quarterly" then Some(Quarterly)
    else None
  }

  function PeriodicityName(p: Periodicity): string {
    match p
    case Daily => "daily"
    case Weekly => "weekly"
    case Monthly => "monthly"
    case Quarterly => "quarterly"
  }

  /** The verb accepts a value exactly when some cadence prints as it. */
  lemma WhitelistIsExact(value: string, p: Periodicity)
    ensures ParsePeriodicity(value) == Some(p) <==> value == PeriodicityName(p)
    ensures ParsePeriodicity(value).Some? <==> value in {"daily", "weekly", "monthly", "quarterly"}
  {
    assert "daily"[0] == 'd' && "weekly"[0] == 'w' && "monthly"[0] == 'm' && "quarterly"[0] == 'q';
  }

  // ---- the schedule -----------------------------------------------------------------------

  /** The schedule's delta, in calendar units. */
  function Advance(p: Periodicity, from: Date): (r: Date)
    requires Valid(from)
    ensures Valid(r)
  {
    match p
    case Daily => PlusDays(from, 1)
    case Weekly => PlusDays(from, 7)
    case Monthly => AddMonths(from, 1)
    case Quarterly => AddMonths(from, 3)
  }

  /** `Advance` on day numbers: the next due day of a digest mailed or set on day `from`. */
  function NextRun(p: Periodicity, from: Day): Day {
    DayNumber(Advance(p, FromDays(from)))
  }

  /** Every gap in real days: 1, 7, 28 to 31, or 89 to 92. */
  lemma GapBounds(p: Periodicity, from: Day)
    ensures var gap := NextRun(p, from) - from;
            match p
            case Daily => gap == 1
            case Weekly => gap == 7
            case Monthly => 28 <= gap <= 31
            case Quarterly => 89 <= gap <= 92
  {
    match p
    case Daily =>
    case Weekly =>
    case Monthly => MonthGap(FromDays(from));
    case Quarterly => QuarterGap(FromDays(from));
  }

  /** Where each cadence lands: a day or a week on, or one or three calendar months on, on the same day of
      the month unless that month is shorter. */
  lemma NextRunLands(p: Periodicity, from: Day)
    ensures var a, b := FromDays(from), FromDays(NextRun(p, from));
            match p
            case Daily => NextRun(p, from) == from + 1
            case Weekly => NextRun(p, from) == from + 7
            case Monthly => MonthIndex(b) == MonthIndex(a) + 1 && b.day == Min(a.day, LengthOf(MonthIndex(b)))
            case Quarterly => MonthIndex(b) == MonthIndex(a) + 3 && b.day == Min(a.day, LengthOf(MonthIndex(b)))
  {
    hide AddMonths, LengthOf;
    var a := FromDays(from);
    match p
    case Daily =>
    case Weekly =>
    case Monthly =>
      AddMonthsLands(a, 1);
      DateOfNumber(AddMonths(a, 1));
    case Quarterly =>
      AddMonthsLands(a, 3);
      DateOfNumber(AddMonths(a, 3));
  }

  /** The month `n` months after (year, month), as year and month. */
  lemma LaterMonth(year: int, month: int, n: nat) returns (y: int, m: int)
    requires 1 <= month <= 12 && n <= 3
    ensures 1 <= m <= 12 && y * 12 + (m - 1) == year * 12 + (month - 1) + n
    ensures m == if month + n > 12 then month + n - 12 else month + n
    ensures y == if month + n > 12 then year + 1 else year
    ensures LengthOf(year * 12 + (month - 1) + n) == MonthLength(y, m)
  {
    y, m := if month + n > 12 then year + 1 else year, if month + n > 12 then month + n - 12 else month + n;
    IndexParts(y, m);
  }

  lemma MonthGap(d: Date)
    requires Valid(d)
    ensures 28 <= DayNumber(AddMonths(d, 1)) - DayNumber(d) <= 31
  {
    hide AddMonths;
    AddMonthsLands(d, 1);
    MonthStep(MonthIndex(d));
    var y0, m0 := LaterMonth(d.year, d.month, 0);
    var y1, m1 := LaterMonth(d.year, d.month, 1);
  }

  lemma ThreeMonths(i: int)
    ensures MonthStart(i + 3) == MonthStart(i) + LengthOf(i) + LengthOf(i + 1) + LengthOf(i + 2)
  {
    MonthStep(i);
    MonthStep(i + 1);
    MonthStep(i + 2);
  }

  lemma QuarterGap(d: Date)
    requires Valid(d)
    ensures 89 <= DayNumber(AddMonths(d, 3)) - DayNumber(d) <= 92
  {
    hide AddMonths, LengthOf;
    var i := MonthIndex(d);
    AddMonthsLands(d, 3);
    ThreeMonths(i);
    IndexParts(d.year, d.month);
    QuarterLengths(d.year, d.month, d.day);
  }

  lemma QuarterLengths(year: int, month: int, day: int)
    requires 1 <= month <= 12 && 1 <= day <= LengthOf(year * 12 + (month - 1))
    ensures var i := year * 12 + (month - 1);
            89 <= LengthOf(i) + LengthOf(i + 1) + LengthOf(i + 2) + Min(day, LengthOf(i + 3)) - day <= 92
  {
    var y0, m0 := LaterMonth(year, month, 0);
    var y1, m1 := LaterMonth(year, month, 1);
    var y2, m2 := LaterMonth(year, month, 2);
    var y3, m3 := LaterMonth(year, month, 3);
  }

  /** A slower cadence is always due later. */
  lemma SlowerIsLater(p: Periodicity, q: Periodicity, from: Day)
    requires Rung(p) < Rung(q)
    ensures from < NextRun(p, from) < NextRun(q, from)
  {
    GapBounds(p, from);
    GapBounds(q, from);
  }

  // ---- the ladder -------------------------------------------------------------------------

  function NextRung(p: Periodicity): Option<Periodicity> {
    match p
    case Daily => Some(Weekly)
    case Weekly => Some(Monthly)
    case Monthly => Some(Quarterly)
    case Quarterly => None
  }

  /** How many rungs down the ladder a cadence is; quarterly is the floor. */
  function Rung(p: Periodicity): (r: int)
    ensures 0 <= r <= 3
  {
    match p
    case Daily => 0
    case Weekly => 1
    case Monthly => 2
    case Quarterly => 3
  }

  /** The ladder goes down one rung at a time and stops exactly at quarterly. */
  lemma LadderStep(p: Periodicity)
    ensures NextRung(p) == None <==> p == Quarterly
    ensures NextRung(p).Some? ==> Rung(NextRung(p).value) == Rung(p) + 1
    ensures forall q: Periodicity :: Rung(q) == Rung(p) ==> q == p
  {
  }

  /** How far back a batch at `now` looks for a login. */
  function LoginWindowSince(p: Periodicity, now: Instant): Instant {
    match p
    case Daily => now - 2 * DAY_SECONDS
    case Weekly => now - 7 * DAY_SECONDS
    case Monthly => Midnight(DayNumber(AddMonths(FromDays(DayOf(now)), -1)))
    case Quarterly => Midnight(DayNumber(AddMonths(FromDays(DayOf(now)), -3)))
  }

  /** The windows in real days: 2, 7, 28 to 31, or 89 to 92, the last two from a midnight. */
  lemma WindowLength(p: Periodicity, now: Instant)
    ensures var since := LoginWindowSince(p, now);
            var days := DayOf(now) - DayOf(since);
            match p
            case Daily => days == 2 && TimeOfDay(since) == TimeOfDay(now)
            case Weekly => days == 7 && TimeOfDay(since) == TimeOfDay(now)
            case Monthly => 28 <= days <= 31 && TimeOfDay(since) == 0
            case Quarterly => 89 <= days <= 92 && TimeOfDay(since) == 0
  {
    var d := FromDays(DayOf(now));
    match p
    case Daily =>
    case Weekly =>
    case Monthly =>
      MonthBackGap(d);
      MidnightOf(DayNumber(AddMonths(d, -1)));
    case Quarterly =>
      QuarterBackGap(d);
      MidnightOf(DayNumber(AddMonths(d, -3)));
  }

  /** Where the calendar windows begin: one or three calendar months back, clamped like the schedule. */
  lemma WindowLands(p: Periodicity, now: Instant)
    requires p == Monthly || p == Quarterly
    ensures var a, b := FromDays(DayOf(now)), FromDays(DayOf(LoginWindowSince(p, now)));
            && MonthIndex(b) == MonthIndex(a) - (if p == Monthly then 1 else 3)
            && b.day == Min(a.day, LengthOf(MonthIndex(b)))
  {
    hide AddMonths, LengthOf;
    var a, back := FromDays(DayOf(now)), if p == Monthly then -1 else -3;
    AddMonthsLands(a, back);
    DateOfNumber(AddMonths(a, back));
    MidnightOf(DayNumber(AddMonths(a, back)));
  }

  lemma MidnightOf(d: Day)
    ensures DayOf(Midnight(d)) == d && TimeOfDay(Midnight(d)) == 0
  {
  }

  lemma MonthBackGap(d: Date)
    requires Valid(d)
    ensures 28 <= DayNumber(d) - DayNumber(AddMonths(d, -1)) <= 31
  {
    hide AddMonths;
    var landed := AddMonths(d, -1);
    AddMonthsLands(d, -1);
    MonthStep(MonthIndex(landed));
    var y0, m0 := LaterMonth(landed.year, landed.month, 0);
    IndexParts(d.year, d.month);
  }

  lemma QuarterBackGap(d: Date)
    requires Valid(d)
    ensures 89 <= DayNumber(d) - DayNumber(AddMonths(d, -3)) <= 92
  {
    hide AddMonths, LengthOf;
    var landed := AddMonths(d, -3);
    var i := MonthIndex(landed);
    AddMonthsLands(d, -3);
    ThreeMonths(i);
    IndexParts(d.year, d.month);
    QuarterLengthsBack(landed.year, landed.month, d.day);
  }

  lemma QuarterLengthsBack(year: int, month: int, day: int)
    requires 1 <= month <= 12
    requires 1 <= day <= LengthOf(year * 12 + (month - 1) + 3)
    ensures var i := year * 12 + (month - 1);
            89 <= LengthOf(i) + LengthOf(i + 1) + LengthOf(i + 2) + day - Min(day, LengthOf(i)) <= 92
  {
    var y0, m0 := LaterMonth(year, month, 0);
    var y1, m1 := LaterMonth(year, month, 1);
    var y2, m2 := LaterMonth(year, month, 2);
    var y3, m3 := LaterMonth(year, month, 3);
  }

  /** Going back by the cadence from the due day never lands after the day it was set from. */
  lemma MonthsBack(from: Day, months: int)
    ensures DayNumber(AddMonths(FromDays(DayNumber(AddMonths(FromDays(from), months))), -months)) <= from
  {
    var d := FromDays(from);
    AddMonthsForthAndBack(d, months);
    DayOrder(AddMonths(d, months), FromDays(DayNumber(AddMonths(d, months))));
  }

  /** A batch on the due day looks back as far as the previous send, whatever their times of
      day, except for a weekly digest whose batch runs later in the day than the last one did. */
  lemma WindowReachesPreviousSend(p: Periodicity, previous: Instant, now: Instant)
    requires DayOf(now) == NextRun(p, DayOf(previous))
    ensures LoginWindowSince(p, now) <= previous <==> p != Weekly || TimeOfDay(now) <= TimeOfDay(previous)
  {
    var a, b := TimeOfDay(previous), TimeOfDay(now);
    match p
    case Daily =>
    case Weekly =>
    case Monthly => MonthsBack(DayOf(previous), 1);
    case Quarterly => MonthsBack(DayOf(previous), 3);
  }

  /** A batch that retries on the same day or the day after an unsuccessful one always looks back
      past it. */
  lemma WindowReachesRetry(p: Periodicity, previous: Instant, now: Instant)
    requires DayOf(previous) <= DayOf(now) <= DayOf(previous) + 1
    ensures LoginWindowSince(p, now) <= previous
  {
    var a, b := TimeOfDay(previous), TimeOfDay(now);
    match p
    case Daily =>
    case Weekly =>
    case Monthly => MonthsBackEarlier(DayOf(now), 1);
    case Quarterly => MonthsBackEarlier(DayOf(now), 3);
  }

  predicate LastDayThenNextMonth(from: Day, later: Day) {
    var a, b := FromDays(from), FromDays(later);
    a.day == MonthLength(a.year, a.month) && MonthIndex(b) == MonthIndex(a) + 1
  }

  /** A month back from a day past the due day lands on or before the day it was set from only by the
      clamping to a shorter month. */
  lemma MonthBackReaches(from: Day, later: Day)
    requires NextRun(Monthly, from) < later
    ensures DayNumber(AddMonths(FromDays(later), -1)) <= from <==> LastDayThenNextMonth(from, later)
  {
    hide AddMonths, LengthOf;
    var a, b := FromDays(from), FromDays(later);
    var due, back := AddMonths(a, 1), AddMonths(b, -1);
    AddMonthsLands(a, 1);
    AddMonthsLands(b, -1);
    DayOrder(due, b);
    DayOrder(a, back);
    IndexParts(a.year, a.month);
    IndexParts(b.year, b.month);
  }

  lemma MonthsBackEarlier(from: Day, months: int)
    requires months > 0
    ensures DayNumber(AddMonths(FromDays(from), -months)) < from
  {
    var d := FromDays(from);
    AddMonthsLands(d, -months);
    DayOrder(AddMonths(d, -months), d);
  }
}
