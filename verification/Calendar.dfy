/** The proleptic Gregorian calendar of `chrono::NaiveDate`, and the calendar-month arithmetic
    the schedule rests on. Month lengths and the leap rule are those of section 5.7 and
    Appendix C of RFC 3339.

    A day is also a number: days since 1970-01-01, so that a day number times 86400 is a Unix
    timestamp. */
module Calendar {

  type Day = int

  datatype Date = Date(year: int, month: int, day: int)

  predicate IsLeap(year: int) {
    year % 4 == 0 && (year % 100 != 0 || year % 400 == 0)
  }

  /** The table in section 5.7 of RFC 3339. */
  function MonthLength(year: int, month: int): (len: int)
    requires 1 <= month <= 12
    ensures 28 <= len <= 31
  {
    match month
    case 2 => if IsLeap(year) then 29 else 28
    case 4 => 30
    case 6 => 30
    case 9 => 30
    case 11 => 30
    case _ => 31
  }

  predicate Valid(d: Date) {
    1 <= d.month <= 12 && 1 <= d.day <= MonthLength(d.year, d.month)
  }

  // ---- months as consecutive integers -----------------------------------------------------

  /** Months counted from January of year 0. */
  function MonthIndex(d: Date): int {
    d.year * 12 + (d.month - 1)
  }

  /** The length of the month with index `i`. */
  function LengthOf(i: int): (len: int)
    ensures 28 <= len <= 31
  {
    MonthLength(i / 12, i % 12 + 1)
  }

  const EPOCH_MONTH := 1970 * 12

  /** The day number of the first day of the month with index `i`: the lengths of the months
      between it and January 1970. */
  function MonthStart(i: int): Day
    decreases if i < EPOCH_MONTH then EPOCH_MONTH - i else i - EPOCH_MONTH
  {
    if i == EPOCH_MONTH then 0
    else if i > EPOCH_MONTH then MonthStart(i - 1) + LengthOf(i - 1)
    else MonthStart(i + 1) - LengthOf(i)
  }

  lemma MonthStep(i: int)
    ensures MonthStart(i + 1) == MonthStart(i) + LengthOf(i)
  {
  }

  lemma IndexParts(year: int, month: int)
    requires 1 <= month <= 12
    ensures (year * 12 + (month - 1)) / 12 == year && (year * 12 + (month - 1)) % 12 == month - 1
    ensures LengthOf(year * 12 + (month - 1)) == MonthLength(year, month)
  {
  }

  /** 365 days a year and one for each leap year since 1970: the usual closed form. */
  function YearOffset(year: int): int {
    365 * (year - 1970) + (year + 3) / 4 - (year + 99) / 100 + (year + 399) / 400 - 478
  }

  lemma YearOffsetStep(year: int)
    ensures YearOffset(year + 1) == YearOffset(year) + if IsLeap(year) then 366 else 365
  {
    LeapDays(year);
  }

  lemma {:induction false} YearStart(year: int)
    ensures MonthStart(year * 12) == YearOffset(year)
    decreases if year < 1970 then 1970 - year else year - 1970
  {
    if year > 1970 {
      YearStart(year - 1);
      YearSpan(year - 1);
      YearOffsetStep(year - 1);
    } else if year < 1970 {
      YearStart(year + 1);
      YearSpan(year);
      YearOffsetStep(year);
    }
  }

  lemma YearSpan(year: int)
    ensures MonthStart(year * 12 + 12) == MonthStart(year * 12) + if IsLeap(year) then 366 else 365
  {
    MonthStepIn(year, 1); MonthStepIn(year, 2); MonthStepIn(year, 3); MonthStepIn(year, 4);
    MonthStepIn(year, 5); MonthStepIn(year, 6); MonthStepIn(year, 7); MonthStepIn(year, 8);
    MonthStepIn(year, 9); MonthStepIn(year, 10); MonthStepIn(year, 11); MonthStepIn(year, 12);
  }

  lemma MonthStepIn(year: int, month: int)
    requires 1 <= month <= 12
    ensures MonthStart(year * 12 + month) == MonthStart(year * 12 + (month - 1)) + MonthLength(year, month)
  {
    IndexParts(year, month);
    MonthStep(year * 12 + (month - 1));
  }

  /** Days of a year before a month, by the usual closed form: 30 days a month and the rest spread by 367/12,
      with February's deficit after it. */
  function MonthOffset(year: int, month: int): int {
    (367 * month - 362) / 12 + if month <= 2 then 0 else if IsLeap(year) then -1 else -2
  }

  lemma OffsetStep(year: int, month: int)
    requires 1 <= month < 12
    ensures MonthOffset(year, month + 1) == MonthOffset(year, month) + MonthLength(year, month)
  {
    hide IsLeap;
  }

  /** Every month begins, and so every date lies, on the day the Gregorian closed form says. */
  lemma {:induction false} ClosedForm(year: int, month: int)
    requires 1 <= month <= 12
    ensures MonthStart(year * 12 + (month - 1)) == YearOffset(year) + MonthOffset(year, month)
    ensures forall day :: Valid(Date(year, month, day)) ==>
              DayNumber(Date(year, month, day)) == YearOffset(year) + MonthOffset(year, month) + day - 1
    decreases month
  {
    if month == 1 {
      YearStart(year);
    } else {
      hide YearOffset, MonthStart, MonthOffset, MonthLength;
      ClosedForm(year, month - 1);
      OffsetStep(year, month - 1);
      MonthStepIn(year, month - 1);
    }
  }

  lemma LeapDays(year: int)
    ensures (year + 4) / 4 - (year + 3) / 4 == if year % 4 == 0 then 1 else 0
    ensures (year + 100) / 100 - (year + 99) / 100 == if year % 100 == 0 then 1 else 0
    ensures (year + 400) / 400 - (year + 399) / 400 == if year % 400 == 0 then 1 else 0
    ensures year % 100 == 0 ==> year % 4 == 0
    ensures year % 400 == 0 ==> year % 100 == 0
  {
    Ceiling4(year);
    Ceiling100(year);
    Ceiling400(year);
    Divides(year);
  }

  lemma Divides(year: int)
    ensures year % 100 == 0 ==> year % 4 == 0
    ensures year % 400 == 0 ==> year % 100 == 0
  {
    var century, cycle := year / 100, year / 400;
    assert year == 100 * century + year % 100 && year == 400 * cycle + year % 400;
    assert year % 100 == 0 ==> year == 4 * (25 * century);
    assert year % 400 == 0 ==> year == 100 * (4 * cycle);
  }

  lemma Ceiling4(y: int)
    ensures (y + 4) / 4 - (y + 3) / 4 == if y % 4 == 0 then 1 else 0
  {
    var q, r := y / 4, y % 4;
    assert y == 4 * q + r;
  }

  lemma Ceiling100(y: int)
    ensures (y + 100) / 100 - (y + 99) / 100 == if y % 100 == 0 then 1 else 0
  {
    var q, r := y / 100, y % 100;
    assert y == 100 * q + r;
  }

  lemma Ceiling400(y: int)
    ensures (y + 400) / 400 - (y + 399) / 400 == if y % 400 == 0 then 1 else 0
  {
    var q, r := y / 400, y % 400;
    assert y == 400 * q + r;
  }

  lemma {:induction false} MonthStartOrder(i: int, j: int)
    requires i < j
    ensures MonthStart(i) + LengthOf(i) <= MonthStart(j)
    decreases j - i
  {
    MonthStep(i);
    if i + 1 < j {
      MonthStartOrder(i + 1, j);
    }
  }

  // ---- dates as consecutive integers ------------------------------------------------------

  function DayNumber(d: Date): Day
    requires Valid(d)
  {
    MonthStart(MonthIndex(d)) + d.day - 1
  }

  /** The index of the month that holds day `n`, searched from month `i`. */
  function MonthHolding(i: int, n: Day): (m: int)
    ensures MonthStart(m) <= n < MonthStart(m) + LengthOf(m)
    decreases if n < MonthStart(i) then MonthStart(i) - n
              else if n >= MonthStart(i) + LengthOf(i) then n - MonthStart(i) - LengthOf(i) + 1
              else 0
  {
    if n < MonthStart(i) then
      MonthStep(i - 1);
      MonthHolding(i - 1, n)
    else if n >= MonthStart(i) + LengthOf(i) then
      MonthStep(i);
      MonthHolding(i + 1, n)
    else i
  }

  /** The date with day number `n`. */
  function FromDays(n: Day): (d: Date)
    ensures Valid(d) && DayNumber(d) == n
  {
    var m := MonthHolding(EPOCH_MONTH, n);
    Date(m / 12, m % 12 + 1, n - MonthStart(m) + 1)
  }

  /** `date + Duration::days(k)`. */
  function PlusDays(d: Date, k: int): (r: Date)
    requires Valid(d)
    ensures Valid(r) && DayNumber(r) == DayNumber(d) + k
  {
    FromDays(DayNumber(d) + k)
  }

  lemma EarlierMonth(a: Date, b: Date)
    requires Valid(a) && Valid(b) && MonthIndex(a) < MonthIndex(b)
    ensures DayNumber(a) < DayNumber(b)
  {
    IndexParts(a.year, a.month);
    MonthStartOrder(MonthIndex(a), MonthIndex(b));
  }

  lemma SameMonth(a: Date, b: Date)
    requires Valid(a) && Valid(b) && MonthIndex(a) == MonthIndex(b)
    ensures DayNumber(b) - DayNumber(a) == b.day - a.day
    ensures a == b <==> a.day == b.day
    ensures a.day <= LengthOf(MonthIndex(a))
  {
    IndexParts(a.year, a.month);
    IndexParts(b.year, b.month);
  }

  /** Day numbers order dates by month, then by day of month; so they tell dates apart. */
  lemma DayOrder(a: Date, b: Date)
    requires Valid(a) && Valid(b)
    ensures DayNumber(a) < DayNumber(b)
       <==> MonthIndex(a) < MonthIndex(b) || (MonthIndex(a) == MonthIndex(b) && a.day < b.day)
    ensures DayNumber(a) == DayNumber(b) <==> a == b
  {
    if MonthIndex(a) < MonthIndex(b) {
      EarlierMonth(a, b);
    } else if MonthIndex(b) < MonthIndex(a) {
      EarlierMonth(b, a);
    } else {
      SameMonth(a, b);
    }
  }

  lemma DateOfNumber(d: Date)
    requires Valid(d)
    ensures FromDays(DayNumber(d)) == d
  {
    DayOrder(FromDays(DayNumber(d)), d);
  }

  // ---- calendar-month arithmetic ----------------------------------------------------------

  /** The day of month of the day before the first of the next month. */
  function DaysInMonth(year: int, month: int): int
    requires 1 <= month <= 12
  {
    var (y, m) := if month == 12 then (year + 1, 1) else (year, month + 1);
    PlusDays(Date(y, m, 1), -1).day
  }

  lemma DaysInMonthIsTable(year: int, month: int)
    requires 1 <= month <= 12
    ensures DaysInMonth(year, month) == MonthLength(year, month)
  {
    var last := Date(year, month, MonthLength(year, month));
    var next := if month == 12 then Date(year + 1, 1, 1) else Date(year, month + 1, 1);
    assert MonthIndex(next) == year * 12 + month;
    MonthStepIn(year, month);
    assert DayNumber(last) == DayNumber(next) - 1;
    DateOfNumber(last);
  }

  /** Add calendar months, clamping the day to the target month. */
  function AddMonths(from: Date, months: int): (r: Date)
    requires Valid(from)
    ensures Valid(r)
  {
    var total := from.year * 12 + (from.month - 1) + months;
    var year := total / 12;
    var month0 := total % 12;
    DaysInMonthIsTable(year, month0 + 1);
    var longest := DaysInMonth(year, month0 + 1);
    var day := if from.day <= longest then from.day else longest;
    Date(year, month0 + 1, day)
  }

  function Min(a: int, b: int): int {
    if a <= b then a else b
  }

  lemma TwelveParts(total: int)
    ensures 1 <= total % 12 + 1 <= 12
    ensures total / 12 * 12 + total % 12 == total
  {
  }

  lemma LongestOfIndex(total: int)
    ensures DaysInMonth(total / 12, total % 12 + 1) == LengthOf(total)
  {
    DaysInMonthIsTable(total / 12, total % 12 + 1);
  }

  /** The result lies exactly `months` month-indices away, on the same day of month unless the
      target month is shorter. */
  lemma AddMonthsLands(d: Date, months: int)
    requires Valid(d)
    ensures MonthIndex(AddMonths(d, months)) == MonthIndex(d) + months
    ensures AddMonths(d, months).day == Min(d.day, LengthOf(MonthIndex(d) + months))
  {
    hide DaysInMonth, LengthOf;
    TwelveParts(MonthIndex(d) + months);
    LongestOfIndex(MonthIndex(d) + months);
  }

  lemma AddMonthsMonotone(a: Date, b: Date, months: int)
    requires Valid(a) && Valid(b) && DayNumber(a) <= DayNumber(b)
    ensures DayNumber(AddMonths(a, months)) <= DayNumber(AddMonths(b, months))
  {
    hide AddMonths, LengthOf;
    AddMonthsLands(a, months);
    AddMonthsLands(b, months);
    DayOrder(a, b);
    DayOrder(b, a);
    DayOrder(AddMonths(b, months), AddMonths(a, months));
  }

  /** Going forth and back never lands later, and returns to the start exactly when no clamping
      took place on the way out. */
  lemma AddMonthsForthAndBack(d: Date, months: int)
    requires Valid(d)
    ensures DayNumber(AddMonths(AddMonths(d, months), -months)) <= DayNumber(d)
    ensures AddMonths(AddMonths(d, months), -months) == d <==> d.day <= LengthOf(MonthIndex(d) + months)
  {
    hide AddMonths, LengthOf;
    var out := AddMonths(d, months);
    AddMonthsLands(d, months);
    AddMonthsLands(out, -months);
    SameMonth(d, AddMonths(out, -months));
  }

  /** `n` monthly steps. */
  function MonthlySteps(d: Date, n: nat): (r: Date)
    requires Valid(d)
    ensures Valid(r)
  {
    if n == 0 then d else AddMonths(MonthlySteps(d, n - 1), 1)
  }

  /** The shortest of the months with index `i + 1` to `i + n`. */
  function ShortestLanded(i: int, n: nat): int
    requires n > 0
  {
    if n == 1 then LengthOf(i + 1) else Min(ShortestLanded(i, n - 1), LengthOf(i + n))
  }

  /** A monthly schedule drifts to the shortest month it ever landed in and stays there. */
  lemma {:induction false} MonthlyStepsDrift(d: Date, n: nat)
    requires Valid(d) && n > 0
    ensures MonthIndex(MonthlySteps(d, n)) == MonthIndex(d) + n
    ensures MonthlySteps(d, n).day == Min(d.day, ShortestLanded(MonthIndex(d), n))
  {
    hide AddMonths, LengthOf;
    var before := MonthlySteps(d, n - 1);
    var landed := MonthIndex(d) + n;
    AddMonthsLands(before, 1);
    if n > 1 {
      MonthlyStepsDrift(d, n - 1);
      assert MonthlySteps(d, n).day == Min(before.day, LengthOf(landed));
      assert ShortestLanded(MonthIndex(d), n) == Min(ShortestLanded(MonthIndex(d), n - 1), LengthOf(landed));
    }
  }
}
