/** The proleptic Gregorian calendar: days are counted from 1 January of year 1, months from
    that January, instants are microseconds since its midnight, all in UTC. */
module Calendar {
  const DAY: nat := 86_400_000_000

  predicate Leap(year: nat) { year % 4 == 0 && (year % 100 != 0 || year % 400 == 0) }

  function DaysIn(month: nat): (days: nat)
    ensures 28 <= days <= 31
  {
    var year, inYear := month / 12 + 1, month % 12 + 1;
    if inYear == 2 then (if Leap(year) then 29 else 28)
    else if inYear == 4 || inYear == 6 || inYear == 9 || inYear == 11 then 30
    else 31
  }

  function FirstDay(month: nat): (day: nat) {
    if month == 0 then 0 else FirstDay(month - 1) + DaysIn(month - 1)
  }

  /** First and last day, both inclusive, as a close stores them. */
  function MonthBounds(month: nat): (bounds: (nat, nat))
    ensures bounds.0 <= bounds.1
  {
    (FirstDay(month), FirstDay(month) + DaysIn(month) - 1)
  }

  predicate Within(day: nat, month: nat) { MonthBounds(month).0 <= day <= MonthBounds(month).1 }

  function DayOf(instant: nat): nat { instant / DAY }

  lemma {:induction false} MonthsAscend(a: nat, b: nat)
    requires a < b
    ensures MonthBounds(a).1 < FirstDay(b)
    decreases b
  {
    if a < b - 1 {
      MonthsAscend(a, b - 1);
    }
  }

  /** Distinct months share no day. */
  lemma MonthsAreDisjoint(day: nat, a: nat, b: nat)
    requires Within(day, a) && Within(day, b)
    ensures a == b
  {
    if a < b {
      MonthsAscend(a, b);
    } else if b < a {
      MonthsAscend(b, a);
    }
  }

  /** The month a day falls in, searched upwards from a month that starts no later. */
  function MonthFrom(day: nat, month: nat): (m: nat)
    requires FirstDay(month) <= day
    ensures Within(day, m)
    decreases day - FirstDay(month)
  {
    if day < FirstDay(month) + DaysIn(month) then month
    else
      assert FirstDay(month + 1) == FirstDay(month) + DaysIn(month);
      MonthFrom(day, month + 1)
  }

  function MonthOf(day: nat): (m: nat)
    ensures Within(day, m)
  {
    MonthFrom(day, 0)
  }

  /** Every day lies in exactly one month. */
  lemma MonthIsUnique(day: nat, month: nat)
    ensures Within(day, month) <==> month == MonthOf(day)
  {
    if Within(day, month) {
      MonthsAreDisjoint(day, month, MonthOf(day));
    }
  }

  // Days of a common year that precede each of its months, and the whole year.
  const ELAPSED: seq<nat> := [0, 31, 59, 90, 120, 151, 181, 212, 243, 273, 304, 334, 365]

  /** Days before a year: one more for every fourth year, less the centuries, but for every
      fourth century. */
  function DaysBefore(years: nat): int { 365 * years + years / 4 - years / 100 + years / 400 }

  function Elapsed(year: nat, months: nat): nat
    requires months <= 12
  {
    ELAPSED[months] + if months >= 2 && Leap(year + 1) then 1 else 0
  }

  lemma InYear(year: nat, inYear: nat)
    requires inYear < 12
    ensures (12 * year + inYear) / 12 == year && (12 * year + inYear) % 12 == inYear
  {
  }

  lemma MonthLength(year: nat, inYear: nat)
    requires inYear < 12
    ensures DaysIn(12 * year + inYear) == Elapsed(year, inYear + 1) - Elapsed(year, inYear)
  {
    InYear(year, inYear);
  }

  lemma DivideByFour(n: nat)
    ensures (n + 1) / 4 == n / 4 + if (n + 1) % 4 == 0 then 1 else 0
  {
  }

  lemma DivideByHundred(n: nat)
    ensures (n + 1) / 100 == n / 100 + if (n + 1) % 100 == 0 then 1 else 0
  {
  }

  lemma DivideByFourHundred(n: nat)
    ensures (n + 1) / 400 == n / 400 + if (n + 1) % 400 == 0 then 1 else 0
  {
  }

  lemma Multiples(n: nat)
    ensures n % 400 == 0 ==> n % 100 == 0
    ensures n % 100 == 0 ==> n % 4 == 0
  {
    if n % 400 == 0 {
      assert n == 100 * (4 * (n / 400));
    }
    if n % 100 == 0 {
      assert n == 4 * (25 * (n / 100));
    }
  }

  lemma LeapDays(years: nat)
    ensures DaysBefore(years + 1) == DaysBefore(years) + Elapsed(years, 12)
  {
    DivideByFour(years);
    DivideByHundred(years);
    DivideByFourHundred(years);
    Multiples(years + 1);
  }

  lemma NextMonth(month: nat)
    ensures FirstDay(month + 1) == FirstDay(month) + DaysIn(month)
  {
  }

  lemma {:induction false} WithinYear(january: nat, year: nat, months: nat)
    requires months <= 12 && january == 12 * year
    ensures FirstDay(january + months) == FirstDay(january) + Elapsed(year, months)
    decreases months
  {
    if months > 0 {
      WithinYear(january, year, months - 1);
      MonthLength(year, months - 1);
      NextMonth(january + (months - 1));
    }
  }

  lemma {:induction false} YearStart(january: nat, year: nat)
    requires january == 12 * year
    ensures FirstDay(january) == DaysBefore(year)
    decreases year
  {
    if year > 0 {
      var last := year - 1;
      YearStart(january - 12, last);
      WithinYear(january - 12, last, 12);
      LeapDays(last);
      assert DaysBefore(year) == DaysBefore(last) + Elapsed(last, 12);
    }
  }

  /** Counting month by month agrees with the closed form: whole years by the leap rule,
      then the table of the year. */
  lemma FirstDayIsGregorian(year: nat, months: nat)
    requires months <= 12
    ensures FirstDay(12 * year + months) == DaysBefore(year) + Elapsed(year, months)
  {
    YearStart(12 * year, year);
    WithinYear(12 * year, year, months);
  }
}
