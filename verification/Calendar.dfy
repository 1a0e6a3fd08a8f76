/** The calendar behind the date check of the release approval (scripts/release/verify-approval.ts):
    its dates are numbered without a gap. */
module Calendar {

  datatype Date = Date(year: nat, month: nat, day: nat)

  predicate IsLeapYear(year: nat) {
    year % 4 == 0 && (year % 100 != 0 || year % 400 == 0)
  }

  function DaysInMonth(year: nat, month: nat): (n: nat)
    requires 1 <= month <= 12
    ensures 28 <= n <= 31
  {
    [31, if IsLeapYear(year) then 29 else 28, 31, 30, 31, 30, 31, 31, 30, 31, 30, 31][month - 1]
  }

  predicate IsDate(d: Date) {
    d.year >= 1 && 1 <= d.month <= 12 && 1 <= d.day <= DaysInMonth(d.year, d.month)
  }

  // --- Day numbers ---

  /** The days before the first of January of a year, from year 1 on. */
  function DaysBeforeYear(year: nat): int
    requires year >= 1
  {
    var y := year - 1;
    365 * y + y / 4 - y / 100 + y / 400
  }

  function DaysBeforeMonth(year: nat, month: nat): nat
    requires 1 <= month <= 13
  {
    if month == 1 then 0 else DaysBeforeMonth(year, month - 1) + DaysInMonth(year, month - 1)
  }

  function DayNumber(d: Date): int
    requires IsDate(d)
  {
    DaysBeforeYear(d.year) + DaysBeforeMonth(d.year, d.month) + d.day - 1
  }

  function NextDay(d: Date): Date
    requires IsDate(d)
  {
    if d.day < DaysInMonth(d.year, d.month) then d.(day := d.day + 1)
    else if d.month < 12 then Date(d.year, d.month + 1, 1)
    else Date(d.year + 1, 1, 1)
  }

  function FromDayNumber(n: nat): (d: Date)
    ensures IsDate(d)
  {
    if n == 0 then Date(1, 1, 1) else NextDay(FromDayNumber(n - 1))
  }

  // --- Years and months ---

  lemma YearLength(year: nat)
    requires year >= 1
    ensures DaysBeforeYear(year + 1) == DaysBeforeYear(year) + (if IsLeapYear(year) then 366 else 365)
  {
    QuartersOfYears(year - 1);
    CenturiesOfYears(year - 1);
    CyclesOfYears(year - 1);
    Multiples(year);
  }

  lemma QuartersOfYears(y: nat)
    ensures (y + 1) / 4 == y / 4 + if (y + 1) % 4 == 0 then 1 else 0
  {
  }

  lemma CenturiesOfYears(y: nat)
    ensures (y + 1) / 100 == y / 100 + if (y + 1) % 100 == 0 then 1 else 0
  {
  }

  lemma CyclesOfYears(y: nat)
    ensures (y + 1) / 400 == y / 400 + if (y + 1) % 400 == 0 then 1 else 0
  {
  }

  lemma Multiples(year: nat)
    ensures year % 400 == 0 ==> year % 100 == 0
    ensures year % 100 == 0 ==> year % 4 == 0
  {
    assert year % 400 == 0 ==> year == 100 * (4 * (year / 400));
    assert year % 100 == 0 ==> year == 4 * (25 * (year / 100));
  }

  lemma MonthsFillTheYear(year: nat)
    ensures DaysBeforeMonth(year, 13) == if IsLeapYear(year) then 366 else 365
  {
    var feb := DaysBeforeMonth(year, 3);
    assert DaysBeforeMonth(year, 2) == 31;
    assert feb == 31 + DaysInMonth(year, 2);
    assert DaysBeforeMonth(year, 5) == feb + 61;
    assert DaysBeforeMonth(year, 7) == feb + 122;
    assert DaysBeforeMonth(year, 9) == feb + 184;
    assert DaysBeforeMonth(year, 11) == feb + 245;
    assert DaysBeforeMonth(year, 13) == feb + 306;
  }

  lemma {:induction false} MonthsGrow(year: nat, m: nat, n: nat)
    requires 1 <= m < n <= 13
    ensures DaysBeforeMonth(year, m) + DaysInMonth(year, m) <= DaysBeforeMonth(year, n)
  {
    if m + 1 < n {
      MonthsGrow(year, m, n - 1);
    }
  }

  lemma {:induction false} YearsGrow(y: nat, z: nat)
    requires 1 <= y < z
    ensures DaysBeforeYear(y + 1) <= DaysBeforeYear(z)
  {
    if y + 1 < z {
      YearsGrow(y, z - 1);
      YearLength(z - 1);
    }
  }

  // --- Consecutive days have consecutive numbers ---

  lemma NextMonthIsNext(year: nat, month: nat)
    requires year >= 1 && 1 <= month < 12
    ensures DaysBeforeMonth(year, month + 1) == DaysBeforeMonth(year, month) + DaysInMonth(year, month)
  {
  }

  lemma LastDayOfYear(year: nat)
    requires year >= 1
    ensures DaysBeforeMonth(year, 12) + 31 == DaysBeforeYear(year + 1) - DaysBeforeYear(year)
    ensures DaysInMonth(year, 12) == 31
  {
    YearLength(year);
    MonthsFillTheYear(year);
    assert DaysBeforeMonth(year, 13) == DaysBeforeMonth(year, 12) + DaysInMonth(year, 12);
  }

  lemma NextDayIsNext(d: Date)
    requires IsDate(d)
    ensures IsDate(NextDay(d)) && DayNumber(NextDay(d)) == DayNumber(d) + 1
  {
    if d.day == DaysInMonth(d.year, d.month) {
      if d.month < 12 {
        NextMonthIsNext(d.year, d.month);
      } else {
        LastDayOfYear(d.year);
        assert DaysBeforeMonth(d.year + 1, 1) == 0;
      }
    }
  }

  /** A date lies in its year. */
  lemma WithinYear(d: Date)
    requires IsDate(d)
    ensures DaysBeforeYear(d.year) <= DayNumber(d) < DaysBeforeYear(d.year + 1)
  {
    YearLength(d.year);
    MonthsFillTheYear(d.year);
    if d.month < 13 {
      MonthsGrow(d.year, d.month, 13);
    }
  }

  /** No two dates share a number. */
  lemma DayNumberIdentifies(d: Date, e: Date)
    requires IsDate(d) && IsDate(e) && DayNumber(d) == DayNumber(e)
    ensures d == e
  {
    WithinYear(d);
    WithinYear(e);
    if d.year < e.year {
      YearsGrow(d.year, e.year);
    } else if e.year < d.year {
      YearsGrow(e.year, d.year);
    } else if d.month < e.month {
      MonthsGrow(d.year, d.month, e.month);
    } else if e.month < d.month {
      MonthsGrow(d.year, e.month, d.month);
    }
  }

  lemma {:induction false} FromDayNumberIsRight(n: nat)
    ensures DayNumber(FromDayNumber(n)) == n
  {
    if n > 0 {
      FromDayNumberIsRight(n - 1);
      NextDayIsNext(FromDayNumber(n - 1));
    }
  }

  /** Dates and the numbers from 0 on correspond one to one. */
  lemma DayNumbersRoundTrip(d: Date)
    requires IsDate(d)
    ensures DayNumber(d) >= 0 && FromDayNumber(DayNumber(d)) == d
  {
    WithinYear(d);
    if d.year > 1 {
      YearsGrow(1, d.year);
      YearLength(1);
    }
    FromDayNumberIsRight(DayNumber(d));
    DayNumberIdentifies(FromDayNumber(DayNumber(d)), d);
  }

  /** The dates of the years up to 9999 are the first 3 652 059 ones. */
  lemma FourDigitYears(d: Date)
    requires IsDate(d)
    ensures d.year <= 9999 <==> DayNumber(d) < 3_652_059
  {
    assert DaysBeforeYear(10000) == 3_652_059;
    WithinYear(d);
    if d.year < 9999 {
      YearsGrow(d.year, 10000);
    }
    if d.year > 10000 {
      YearsGrow(10000, d.year);
      YearLength(10000);
    }
  }

  /** Which months have a 29th, a 30th and a 31st. */
  lemma LastDays(year: nat, month: nat)
    requires year >= 1 && 1 <= month <= 12
    ensures IsDate(Date(year, month, 28)) && !IsDate(Date(year, month, 32)) && !IsDate(Date(year, month, 0))
    ensures IsDate(Date(year, month, 31)) <==> month in {1, 3, 5, 7, 8, 10, 12}
    ensures IsDate(Date(year, month, 30)) <==> month != 2
    ensures IsDate(Date(year, month, 29)) <==> month != 2 || IsLeapYear(year)
  {
  }

  /** Every fourth year has a leap day, except three of four centuries. */
  lemma LeapYears(fourCenturies: nat, century: nat, fourYears: nat, year: nat)
    requires century < 4 && fourYears < 25 && year < 4
    ensures IsLeapYear(400 * fourCenturies + 100 * century + 4 * fourYears + year) <==> year == 0 && (fourYears != 0 || century == 0)
  {
  }
}
