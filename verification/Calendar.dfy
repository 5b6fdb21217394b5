/**
 The proleptic Gregorian calendar over day numbers: day 0 is Thursday, 1 January 1970. Months
 are numbered from January 1970.
 */
module Calendar {

  const DAY: int := 86_400

  predicate IsLeap(year: int) {
    year % 4 == 0 && (year % 100 != 0 || year % 400 == 0)
  }

  function MonthLength(m: nat): (n: nat)
    ensures 28 <= n <= 31
  {
    var month := m % 12 + 1;
    if month == 2 then (if IsLeap(1970 + m / 12) then 29 else 28)
    else if month == 4 || month == 6 || month == 9 || month == 11 then 30 else 31
  }

  /** The number of the first day of month `m`. */
  function MonthStart(m: nat): nat {
    if m == 0 then 0 else MonthStart(m - 1) + MonthLength(m - 1)
  }

  function MonthFrom(day: nat, m: nat): (r: nat)
    requires MonthStart(m) <= day
    ensures MonthStart(r) <= day < MonthStart(r + 1)
    decreases day - MonthStart(m)
  {
    if day < MonthStart(m + 1) then m else MonthFrom(day, m + 1)
  }

  function MonthOf(day: nat): (r: nat)
    ensures MonthStart(r) <= day < MonthStart(r + 1)
  {
    MonthFrom(day, 0)
  }

  /** `date +%d`, from 1. */
  function DayOfMonth(day: nat): nat {
    day - MonthStart(MonthOf(day)) + 1
  }

  /** `date +%u`: 1 is Monday, 7 is Sunday. */
  function Weekday(day: nat): nat {
    (day + 3) % 7 + 1
  }

  predicate IsSunday(day: nat) {
    Weekday(day) == 7
  }

  predicate IsFirstSunday(day: nat) {
    IsSunday(day) && DayOfMonth(day) <= 7
  }

  // ---- the calendar against closed forms

  lemma {:induction false} MonthStartMonotone(i: nat, j: nat)
    requires i < j
    ensures MonthStart(i) + 28 * (j - i) <= MonthStart(j)
  {
    if i + 1 < j { MonthStartMonotone(i, j - 1); }
  }

  lemma MonthOfIs(day: nat, m: nat)
    requires MonthStart(m) <= day < MonthStart(m + 1)
    ensures MonthOf(day) == m
  {
    var r := MonthOf(day);
    if r < m {
      if r + 1 < m { MonthStartMonotone(r + 1, m); }
    } else if m < r {
      if m + 1 < r { MonthStartMonotone(m + 1, r); }
    }
  }

  /** Leap years from year 1 through `year`. */
  function LeapYearsThrough(year: nat): int {
    year / 4 - year / 100 + year / 400
  }

  lemma LeapYearCounts(year: nat)
    requires year > 0
    ensures LeapYearsThrough(year) == LeapYearsThrough(year - 1) + if IsLeap(year) then 1 else 0
  {
    DivStep(year, 4);
    DivStep(year, 100);
    DivStep(year, 400);
  }

  lemma DivStep(n: nat, k: nat)
    requires n > 0 && k > 1
    ensures n / k == (n - 1) / k + if n % k == 0 then 1 else 0
  {
    var q, r := n / k, n % k;
    assert n == q * k + r;
    if r == 0 {
      assert n - 1 == (q - 1) * k + (k - 1);
      DivUnique(n - 1, k, q - 1, k - 1);
    } else {
      DivUnique(n - 1, k, q, r - 1);
    }
  }

  lemma DivUnique(n: int, k: int, q: int, r: int)
    requires k > 0 && n == q * k + r && 0 <= r < k
    ensures n / k == q
  {
    var d := n / k - q;
    assert n == (n / k) * k + n % k;
    assert d * k == r - n % k;
    assert (d >= 1 ==> d * k >= k) && (d <= -1 ==> d * k <= -k);
  }

  /** A year starts where 365-day years and the leap days before it put it. */
  lemma {:induction false} YearStart(y: nat)
    ensures MonthStart(12 * y) == 365 * y + LeapYearsThrough(1969 + y) - LeapYearsThrough(1969)
  {
    if y > 0 {
      YearStart(y - 1);
      YearLength(y - 1);
      LeapYearCounts(1969 + y);
    }
  }

  lemma MonthStep(y: nat, k: nat)
    requires k < 12
    ensures MonthStart(12 * y + k + 1) == MonthStart(12 * y + k) + MonthLength(12 * y + k)
    ensures (12 * y + k) / 12 == y && (12 * y + k) % 12 == k
  {
  }

  lemma YearLength(y: nat)
    ensures MonthStart(12 * y + 12) == MonthStart(12 * y) + if IsLeap(1970 + y) then 366 else 365
  {
    MonthInYear(y, 11);
    MonthStep(y, 11);
    MarchDaysValues();
    assert 12 * y + 11 + 1 == 12 * y + 12;
  }

  // ---- civil dates

  /** Days of a civil year before its month, counted from March as month 0. */
  function MarchDays(month: nat): int {
    (153 * ((month + 9) % 12) + 2) / 5
  }

  /** The day number of a date in a year counted from March, before which there were so many leap days. */
  function MarchDay(y: int, leapDays: int, month: nat, dom: nat): int {
    365 * y + leapDays + MarchDays(month) + dom - 1 - 719_468
  }

  /** The day number of a civil date; January and February belong to the year before. */
  function CivilDay(year: nat, month: nat, dom: nat): int
    requires year > 0
  {
    if month <= 2 then MarchDay(year - 1, LeapYearsThrough(year - 1), month, dom)
    else MarchDay(year, LeapYearsThrough(year), month, dom)
  }

  lemma MarchDaysValues()
    ensures MarchDays(1) == 306 && MarchDays(2) == 337 && MarchDays(3) == 0 && MarchDays(4) == 31
    ensures MarchDays(5) == 61 && MarchDays(6) == 92 && MarchDays(7) == 122 && MarchDays(8) == 153
    ensures MarchDays(9) == 184 && MarchDays(10) == 214 && MarchDays(11) == 245 && MarchDays(12) == 275
  {
  }

  /** Days of the year before month k, from 0. */
  function Offset(k: nat, leap: bool): int {
    if k == 0 then 0 else if k == 1 then 31 else 59 + (if leap then 1 else 0) + MarchDays(k + 1)
  }

  lemma OffsetStep(y: nat, k: nat)
    requires k < 11
    ensures Offset(k + 1, IsLeap(1970 + y)) == Offset(k, IsLeap(1970 + y)) + MonthLength(12 * y + k)
  {
    MarchDaysValues();
    assert (12 * y + k) % 12 == k && (12 * y + k) / 12 == y;
  }

  lemma {:induction false} MonthInYear(y: nat, k: nat)
    requires k <= 11
    ensures MonthStart(12 * y + k) == MonthStart(12 * y) + Offset(k, IsLeap(1970 + y))
  {
    if k > 0 {
      MonthInYear(y, k - 1);
      MonthStep(y, k - 1);
      OffsetStep(y, k - 1);
      assert 12 * y + (k - 1) + 1 == 12 * y + k;
    }
  }

  lemma LeapYearsBefore1970()
    ensures LeapYearsThrough(1969) == 477
  {
  }

  /** The two ways to count a month from the first of January, in numbers. */
  lemma CivilArithmetic(y: nat, before: int, leap: bool, month: nat)
    requires 1 <= month <= 12
    ensures 365 * y + before - 477 + Offset(month - 1, leap)
         == if month <= 2 then MarchDay(1969 + y, before, month, 1)
            else MarchDay(1970 + y, before + if leap then 1 else 0, month, 1)
  {
    MarchDaysValues();
  }

  /** Every month starts where the formula puts its first day. */
  lemma MonthStartIsCivil(y: nat, month: nat)
    requires 1 <= month <= 12
    ensures MonthStart(12 * y + (month - 1)) == CivilDay(1970 + y, month, 1)
  {
    YearStart(y);
    LeapYearsBefore1970();
    MonthInYear(y, month - 1);
    LeapYearCounts(1970 + y);
    CivilArithmetic(y, LeapYearsThrough(1969 + y), IsLeap(1970 + y), month);
  }

  /** The civil date is a day of its month: it comes before the first of the next month. */
  predicate IsCivilDate(year: nat, month: nat, dom: nat)
    requires year > 0
  {
    && 1 <= month <= 12 && 1 <= dom
    && CivilDay(year, month, dom) < if month == 12 then CivilDay(year + 1, 1, 1) else CivilDay(year, month + 1, 1)
  }

  lemma NextMonthStart(y: nat, month: nat)
    requires 1 <= month <= 12
    ensures MonthStart(12 * y + (month - 1) + 1)
         == if month == 12 then CivilDay(1970 + y + 1, 1, 1) else CivilDay(1970 + y, month + 1, 1)
  {
    if month == 12 {
      MonthStartIsCivil(y + 1, 1);
      assert 12 * (y + 1) + 0 == 12 * y + (month - 1) + 1;
    } else {
      MonthStartIsCivil(y, month + 1);
    }
  }

  lemma DaysOfMonth(year: nat, month: nat, dom: nat)
    requires year > 0
    ensures CivilDay(year, month, dom) == CivilDay(year, month, 1) + dom - 1
  {
  }

  /** `date` prints the civil date: month and day of the month of a day number are those of the formula. */
  lemma CivilDate(year: nat, month: nat, dom: nat)
    requires 1970 <= year && IsCivilDate(year, month, dom)
    ensures var day := CivilDay(year, month, dom);
            0 <= day && MonthOf(day) == 12 * (year - 1970) + (month - 1) && DayOfMonth(day) == dom
  {
    var y := year - 1970;
    MonthStartIsCivil(y, month);
    NextMonthStart(y, month);
    DaysOfMonth(year, month, dom);
    MonthOfIs(CivilDay(year, month, dom), 12 * y + (month - 1));
  }

  lemma ModUnique(n: int, k: int, q: int, r: int)
    requires k > 0 && n == q * k + r && 0 <= r < k
    ensures n % k == r
  {
    DivUnique(n, k, q, r);
  }

  /** Day 0 is a Thursday, and the days of the week follow each other. */
  lemma WeekdaysFollow(day: nat)
    ensures Weekday(0) == 4
    ensures Weekday(day + 1) == if Weekday(day) == 7 then 1 else Weekday(day) + 1
  {
    var q, r := (day + 3) / 7, (day + 3) % 7;
    assert day + 3 == q * 7 + r;
    if r < 6 { ModUnique(day + 1 + 3, 7, q, r + 1); } else { ModUnique(day + 1 + 3, 7, q + 1, 0); }
  }

  /** Two Sundays in a row: 31 March 2024 is not promoted to monthly, 7 April 2024 is. */
  lemma TwoSundays()
    ensures CivilDay(2024, 3, 31) == 19_813 && IsSunday(19_813) && !IsFirstSunday(19_813)
    ensures CivilDay(2024, 4, 7) == 19_820 && IsFirstSunday(19_820)
  {
    assert LeapYearsThrough(2024) == 491;
    MarchDaysValues();
    CivilDate(2024, 3, 31);
    CivilDate(2024, 4, 7);
  }

  // ---- Sundays

  /** The first Sunday of month `m`. */
  function FirstSundayOf(m: nat): nat {
    MonthStart(m) + 6 - (MonthStart(m) + 3) % 7
  }

  lemma SundayInWeek(s: nat, day: nat)
    requires s <= day < s + 7
    ensures IsSunday(day) <==> day == s + 6 - (s + 3) % 7
  {
    var q, r, d := (s + 3) / 7, (s + 3) % 7, day - s;
    assert day + 3 == q * 7 + (r + d);
    if r + d < 7 { ModUnique(day + 3, 7, q, r + d); } else { ModUnique(day + 3, 7, q + 1, r + d - 7); }
  }

  /** Every month has exactly one Sunday among its first seven days. */
  lemma OneFirstSundayPerMonth(m: nat, day: nat)
    ensures IsFirstSunday(day) && MonthOf(day) == m <==> day == FirstSundayOf(m)
  {
    var s := MonthStart(m);
    if s <= day < s + 7 {
      MonthOfIs(day, m);
      SundayInWeek(s, day);
    }
  }

  /** First Sundays follow each other at distances of four or five weeks. */
  lemma FirstSundaySpacing(m: nat)
    ensures FirstSundayOf(m + 1) == FirstSundayOf(m) + 28 || FirstSundayOf(m + 1) == FirstSundayOf(m) + 35
  {
  }

  lemma {:induction false} FirstSundaysIncrease(i: nat, j: nat)
    requires i < j
    ensures FirstSundayOf(i) + 28 * (j - i) <= FirstSundayOf(j) <= FirstSundayOf(i) + 35 * (j - i)
  {
    FirstSundaySpacing(j - 1);
    if i + 1 < j { FirstSundaysIncrease(i, j - 1); }
  }
}
