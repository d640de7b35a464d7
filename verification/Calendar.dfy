/** Civil time in one fixed zone, and month arithmetic as Go's AddDate does it: an out-of-range day rolls
    over into the next month. An instant counts nanoseconds from 1 January of year 0. */
module Calendar {
  const DAY: nat := 86_400_000_000_000

  /** The zero value of a Go time, which is read as "no time": the start of year 1. */
  const ZERO: int := 366 * DAY

  predicate Leap(year: int) {
    year % 4 == 0 && (year % 100 != 0 || year % 400 == 0)
  }

  /** Months are numbered from January of year 0. */
  function DaysIn(month: int): (days: nat)
    ensures 28 <= days <= 31
  {
    var m := month % 12;
    if m == 1 then (if Leap(month / 12) then 29 else 28)
    else if m == 3 || m == 5 || m == 8 || m == 10 then 30
    else 31
  }

  /** Days from the start of year 0 to the start of a month. */
  function MonthStart(month: int): int
    decreases if month < 0 then -month else month
  {
    if month == 0 then 0
    else if month > 0 then MonthStart(month - 1) + DaysIn(month - 1)
    else MonthStart(month + 1) - DaysIn(month)
  }

  lemma MonthLength(month: int)
    ensures MonthStart(month + 1) == MonthStart(month) + DaysIn(month)
  {
    hide DaysIn;
  }

  /** Days from the start of year 0 to the start of a year. */
  function YearStart(year: int): int {
    365 * year + (year + 3) / 4 - (year + 99) / 100 + (year + 399) / 400
  }

  const DAYS_BEFORE: seq<int> := [0, 31, 59, 90, 120, 151, 181, 212, 243, 273, 304, 334]

  lemma YearLength(year: int)
    ensures YearStart(year + 1) == YearStart(year) + if Leap(year) then 366 else 365
  {
    assert (year + 4) / 4 - (year + 3) / 4 == if year % 4 == 0 then 1 else 0;
    assert (year + 100) / 100 - (year + 99) / 100 == if year % 100 == 0 then 1 else 0;
    assert (year + 400) / 400 - (year + 399) / 400 == if year % 400 == 0 then 1 else 0;
  }

  function DirectStart(year: int, m: int): int
    requires 0 <= m < 12
  {
    YearStart(year) + DAYS_BEFORE[m] + if m > 1 && Leap(year) then 1 else 0
  }

  lemma DirectLength(year: int, m: int)
    requires 0 <= m < 12
    ensures m < 11 ==> DirectStart(year, m + 1) == DirectStart(year, m) + DaysIn(12 * year + m)
    ensures m == 11 ==> DirectStart(year + 1, 0) == DirectStart(year, m) + DaysIn(12 * year + m)
  {
    YearLength(year);
    assert (12 * year + m) / 12 == year && (12 * year + m) % 12 == m;
  }

  /** Counting month by month agrees with the direct count from the leap-year rule. */
  lemma {:induction false} DirectCount(year: int, m: int)
    requires 0 <= m < 12
    ensures MonthStart(12 * year + m) == DirectStart(year, m)
    decreases if 12 * year + m < 0 then -(12 * year + m) else 12 * year + m
  {
    hide DirectStart, DaysIn;
    var month := 12 * year + m;
    if month > 0 {
      if m > 0 {
        DirectCount(year, m - 1);
        DirectLength(year, m - 1);
      } else {
        DirectCount(year - 1, 11);
        DirectLength(year - 1, 11);
      }
      MonthLength(month - 1);
    } else if month < 0 {
      if m < 11 {
        DirectCount(year, m + 1);
      } else {
        DirectCount(year + 1, 0);
      }
      DirectLength(year, m);
      MonthLength(month);
    } else {
      assert DirectStart(0, 0) == 0 by { DirectOrigin(); }
    }
  }

  lemma DirectOrigin()
    ensures DirectStart(0, 0) == 0
  {
  }

  lemma {:induction false} MonthsAscend(a: int, b: int)
    requires a < b
    ensures MonthStart(a) + DaysIn(a) <= MonthStart(b)
    decreases b - a
  {
    MonthLength(a);
    if a + 1 < b {
      MonthsAscend(a + 1, b);
    }
  }

  // ----- reading an instant -----

  /** Day counts from 1 within a month. */
  datatype Civil = Civil(month: int, day: int, nanos: int)

  predicate ValidCivil(c: Civil) {
    1 <= c.day <= DaysIn(c.month) && 0 <= c.nanos < DAY
  }

  /** The instant of a date whose day may lie outside its month. */
  function Date(c: Civil): int {
    (MonthStart(c.month) + c.day - 1) * DAY + c.nanos
  }

  function SearchUp(day: int, month: int): (r: int)
    requires MonthStart(month) <= day
    ensures MonthStart(r) <= day < MonthStart(r + 1)
    decreases day - MonthStart(month)
  {
    MonthLength(month);
    if day < MonthStart(month + 1) then month else SearchUp(day, month + 1)
  }

  function SearchDown(day: int, month: int): (r: int)
    requires day < MonthStart(month + 1)
    ensures MonthStart(r) <= day < MonthStart(r + 1)
    decreases MonthStart(month + 1) - day
  {
    MonthLength(month);
    if MonthStart(month) <= day then month else SearchDown(day, month - 1)
  }

  function MonthOf(day: int): (month: int)
    ensures MonthStart(month) <= day < MonthStart(month + 1)
  {
    if MonthStart(0) <= day then SearchUp(day, 0) else SearchDown(day, -1)
  }

  /** The civil reading of an instant. */
  function CivilOf(t: int): (c: Civil)
    ensures ValidCivil(c)
  {
    var day := t / DAY;
    var month := MonthOf(day);
    MonthLength(month);
    Civil(month, day - MonthStart(month) + 1, t % DAY)
  }

  lemma DateOrder(a: Civil, b: Civil)
    requires ValidCivil(a) && ValidCivil(b) && a.month < b.month
    ensures Date(a) < Date(b)
  {
    MonthsAscend(a.month, b.month);
    var x, y := MonthStart(a.month) + a.day - 1, MonthStart(b.month) + b.day - 1;
    assert x + 1 <= y;
    assert x * DAY + DAY <= y * DAY;
  }

  /** Instants and civil readings correspond one to one. */
  lemma CivilRoundTrip(t: int, c: Civil)
    requires ValidCivil(c)
    ensures Date(CivilOf(t)) == t
    ensures CivilOf(Date(c)) == c
  {
    ReadsBack(t);
    var d := CivilOf(Date(c));
    ReadsBack(Date(c));
    if d.month < c.month {
      DateOrder(d, c);
    } else if c.month < d.month {
      DateOrder(c, d);
    }
  }

  /** The zero time is midnight on 1 January of year 1. */
  lemma ZeroIsYearOne()
    ensures CivilOf(ZERO) == Civil(12, 1, 0)
  {
    hide MonthStart, DaysIn, CivilOf;
    assert 12 * 1 + 0 == 12;
    DirectCount(1, 0);
    assert ZERO == Date(Civil(12, 1, 0));
    FirstOfMonth(12);
    CivilRoundTrip(0, Civil(12, 1, 0));
  }

  lemma FirstOfMonth(month: int)
    ensures ValidCivil(Civil(month, 1, 0))
  {
  }

  lemma ReadsBack(t: int)
    ensures Date(CivilOf(t)) == t
  {
    assert t == (t / DAY) * DAY + t % DAY;
  }

  /** The instants of a month are exactly those from its first midnight up to that of the next month. */
  lemma MonthMembership(t: int, month: int)
    ensures Date(Civil(month, 1, 0)) <= t < Date(Civil(month + 1, 1, 0)) <==> CivilOf(t).month == month
  {
    var first, next := Civil(month, 1, 0), Civil(month + 1, 1, 0);
    var c := CivilOf(t);
    ReadsBack(t);
    if c.month < month {
      DateOrder(c, first);
    } else if c.month > month + 1 {
      DateOrder(next, c);
    } else if c.month == month {
      MonthLength(month);
    }
  }

  // ----- adding months -----

  /** AddDate(0, months, 0). */
  function AddMonths(t: int, months: int): int {
    var c := CivilOf(t);
    Date(c.(month := c.month + months))
  }

  /** A monthly window lasts as long as the month it starts in. */
  lemma MonthlyWindow(t: int)
    ensures AddMonths(t, 1) == t + DaysIn(CivilOf(t).month) * DAY
    ensures t + 28 * DAY <= AddMonths(t, 1) <= t + 31 * DAY
  {
    ReadsBack(t);
    MonthLength(CivilOf(t).month);
  }

  /** Whether the twelve months from a month hold a 29 February. */
  predicate LeapAhead(month: int) {
    if month % 12 <= 1 then Leap(month / 12) else Leap(month / 12 + 1)
  }

  lemma DirectYear(year: int, m: int)
    requires 0 <= m < 12
    ensures DirectStart(year + 1, m) == DirectStart(year, m) + if LeapAhead(12 * year + m) then 366 else 365
  {
    hide YearStart;
    YearLength(year);
    assert (12 * year + m) / 12 == year && (12 * year + m) % 12 == m;
  }

  lemma TwelveMonths(month: int)
    ensures MonthStart(month + 12) == MonthStart(month) + if LeapAhead(month) then 366 else 365
  {
    hide MonthStart, DirectStart, LeapAhead;
    var year, m := month / 12, month % 12;
    assert 12 * year + m == month && 12 * (year + 1) + m == month + 12;
    DirectCount(year, m);
    DirectCount(year + 1, m);
    DirectYear(year, m);
  }

  /** A yearly window lasts 366 days when a 29 February lies in the twelve months from its starting
      month, and 365 otherwise. */
  lemma YearlyWindow(t: int)
    ensures AddMonths(t, 12) == t + (if LeapAhead(CivilOf(t).month) then 366 else 365) * DAY
  {
    ReadsBack(t);
    TwelveMonths(CivilOf(t).month);
  }

  // ----- twelve monthly windows against one yearly window -----

  /** The end of n monthly windows back to back. */
  function Chain(t: int, n: nat): int {
    if n == 0 then t else AddMonths(Chain(t, n - 1), 1)
  }

  /** The day still exists after each of the first n months. */
  predicate DayExists(c: Civil, n: nat) {
    n == 0 || (DayExists(c, n - 1) && c.day <= DaysIn(c.month + n))
  }

  /** One month later: the same day, or early in the month after when the day does not exist. */
  function Rolled(c: Civil): Civil {
    if c.day <= DaysIn(c.month + 1) then c.(month := c.month + 1)
    else Civil(c.month + 2, c.day - DaysIn(c.month + 1), c.nanos)
  }

  lemma AddOneMonth(c: Civil)
    requires ValidCivil(c)
    ensures ValidCivil(Rolled(c)) && AddMonths(Date(c), 1) == Date(Rolled(c))
  {
    hide MonthStart, DaysIn, CivilOf;
    CivilRoundTrip(0, c);
    MonthLength(c.month + 1);
    assert MonthStart(c.month + 2) == MonthStart(c.month + 1) + DaysIn(c.month + 1);
  }

  /** A chain keeps its day until a month is too short for it; from then on it stays early in the month
      after. */
  ghost predicate ChainAt(c: Civil, n: nat, end: Civil) {
    && ValidCivil(end) && end.nanos == c.nanos
    && (DayExists(c, n) ==> end.month == c.month + n && end.day == c.day)
    && (!DayExists(c, n) ==> end.month == c.month + n + 1 && end.day <= 3)
    && (n > 0 && !DayExists(c, n) && DayExists(c, n - 1) ==> end.day == c.day - DaysIn(c.month + n))
  }

  lemma {:induction false} ChainForm(c: Civil, n: nat)
    requires ValidCivil(c)
    ensures ChainAt(c, n, CivilOf(Chain(Date(c), n))) && Date(CivilOf(Chain(Date(c), n))) == Chain(Date(c), n)
  {
    hide Date, CivilOf, DaysIn, AddMonths;
    ReadsBack(Chain(Date(c), n));
    if n == 0 {
      CivilRoundTrip(0, c);
    } else {
      ChainForm(c, n - 1);
      var before := CivilOf(Chain(Date(c), n - 1));
      AddOneMonth(before);
      CivilRoundTrip(0, Rolled(before));
    }
  }

  lemma DayExistsStep(c: Civil, n: nat)
    requires n > 0
    ensures DayExists(c, n) <==> DayExists(c, n - 1) && c.day <= DaysIn(c.month + n)
  {
  }

  lemma {:induction false} EarlyDayExists(c: Civil, n: nat)
    requires c.day <= 28
    ensures DayExists(c, n)
  {
    hide DaysIn;
    if n > 0 {
      EarlyDayExists(c, n - 1);
    }
  }

  /** After 29 February the 29th exists until the next February. */
  lemma {:induction false} LeapDayExists(c: Civil, n: nat)
    requires c.day <= 30 && c.month % 12 == 1 && n <= 11
    ensures DayExists(c, n)
  {
    if n > 0 {
      LeapDayExists(c, n - 1);
      assert (c.month + n) % 12 != 1;
    }
  }

  /** A year later the month is at most one day shorter, and then it is February. */
  lemma YearLater(c: Civil)
    requires ValidCivil(c)
    ensures DaysIn(c.month + 12) + 1 >= DaysIn(c.month)
    ensures DaysIn(c.month + 12) < c.day ==> c.day == 29 && c.month % 12 == 1
    ensures DaysIn(c.month + 12) == 28 ==> c.month % 12 == 1
  {
    assert (c.month + 12) % 12 == c.month % 12;
  }

  lemma ChainYear(c: Civil, end: Civil)
    requires ValidCivil(c) && ChainAt(c, 12, end)
    ensures Date(end) >= Date(c.(month := c.month + 12))
    ensures Date(end) == Date(c.(month := c.month + 12)) <==> DayExists(c, 11)
  {
    hide DaysIn, MonthStart, DayExists;
    YearLater(c);
    MonthLength(c.month + 12);
    DayExistsStep(c, 12);
    if DaysIn(c.month + 12) < c.day {
      LeapDayExists(c, 11);
    }
  }

  /** Twelve monthly renewals never end before one yearly window from the same start, and end with it
      exactly when the starting day exists in each of the eleven months between. */
  lemma MonthlyAgainstYearly(t: int)
    ensures Chain(t, 12) >= AddMonths(t, 12)
    ensures Chain(t, 12) == AddMonths(t, 12) <==> DayExists(CivilOf(t), 11)
  {
    hide DaysIn, MonthStart, Chain, Date, DayExists;
    ReadsBack(t);
    ChainForm(CivilOf(t), 12);
    ChainYear(CivilOf(t), CivilOf(Chain(t, 12)));
  }

  /** Up to the 28th the two always end together. */
  lemma EarlyDaysAgree(t: int)
    requires CivilOf(t).day <= 28
    ensures Chain(t, 12) == AddMonths(t, 12)
  {
    hide *;
    EarlyDayExists(CivilOf(t), 11);
    MonthlyAgainstYearly(t);
  }
}
