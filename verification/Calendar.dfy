/** The civil calendar behind every timestamp of the command-line client.

    `main.rs` turns a day number into a date with a closed form and `codex.rs`
    turns a date into a day number with another one.  The specification below
    knows neither: it only knows which day comes next (RFC 3339, section 5.7 and
    Appendix C), and counts from 1970-01-01. */
module Calendar {

  datatype Date = Date(year: int, month: int, day: int)

  predicate LeapYear(year: int) {
    year % 400 == 0 || (year % 4 == 0 && year % 100 != 0)
  }

  function DaysInMonth(year: int, month: int): int {
    if month == 2 then
      if LeapYear(year) then 29 else 28
    else if month in {4, 6, 9, 11} then 30
    else 31
  }

  predicate ValidDate(d: Date) {
    1 <= d.month <= 12 && 1 <= d.day <= DaysInMonth(d.year, d.month)
  }

  function NextDay(d: Date): (r: Date)
    requires ValidDate(d)
    ensures ValidDate(r)
  {
    if d.day < DaysInMonth(d.year, d.month) then d.(day := d.day + 1)
    else if d.month < 12 then Date(d.year, d.month + 1, 1)
    else Date(d.year + 1, 1, 1)
  }

  function PreviousDay(d: Date): (r: Date)
    requires ValidDate(d)
    ensures ValidDate(r) && NextDay(r) == d
  {
    if d.day > 1 then d.(day := d.day - 1)
    else if d.month > 1 then Date(d.year, d.month - 1, DaysInMonth(d.year, d.month - 1))
    else Date(d.year - 1, 12, 31)
  }

  /** The specification: walk one day at a time from 1970-01-01. */
  function DateOfDay(n: int): (d: Date)
    ensures ValidDate(d)
    decreases if n < 0 then -n else n
  {
    if n == 0 then Date(1970, 1, 1)
    else if n > 0 then NextDay(DateOfDay(n - 1))
    else PreviousDay(DateOfDay(n + 1))
  }

  /** Rust's `/` on signed integers drops the fraction. */
  function TruncatedQuotient(a: int, b: int): int
    requires b > 0
  {
    if a >= 0 then a / b else -((-a) / b)
  }

  /** `civil_date`: the date of a day number, in closed form. */
  function CivilDate(daysSinceEpoch: int): Date {
    var shifted := daysSinceEpoch + 719_468;
    var era := TruncatedQuotient(if shifted >= 0 then shifted else shifted - 146_096, 146_097);
    DateInEra(era, shifted - era * 146_097)
  }

  function YearOfEra(dayOfEra: int): int {
    (dayOfEra - dayOfEra / 1_460 + dayOfEra / 36_524 - dayOfEra / 146_096) / 365
  }

  function DateInEra(era: int, dayOfEra: int): Date {
    var yearOfEra := YearOfEra(dayOfEra);
    var dayOfYear := dayOfEra - (365 * yearOfEra + yearOfEra / 4 - yearOfEra / 100);
    var monthPrime := (5 * dayOfYear + 2) / 153;
    var day := dayOfYear - (153 * monthPrime + 2) / 5 + 1;
    var month := monthPrime + if monthPrime < 10 then 3 else -9;
    Date(yearOfEra + era * 400 + (if month <= 2 then 1 else 0), month, day)
  }

  /** The day number of a date, as `unix_seconds_from_rfc3339` computes it. */
  function DaysSinceEpoch(d: Date): int {
    var adjustedYear := d.year - if d.month <= 2 then 1 else 0;
    var era := adjustedYear / 400;
    var yearOfEra := adjustedYear - era * 400;
    var adjustedMonth := d.month + if d.month > 2 then -3 else 9;
    var dayOfYear := (153 * adjustedMonth + 2) / 5 + d.day - 1;
    var dayOfEra := yearOfEra * 365 + yearOfEra / 4 - yearOfEra / 100 + dayOfYear;
    era * 146_097 + dayOfEra - 719_468
  }

  // ---- The parser's formula counts days ----

  /** Days from the epoch of the formula to 1 March of a year. */
  function DaysToMarch(year: int): int {
    365 * year + year / 4 - year / 100 + year / 400
  }

  lemma EraSumsToYears(year: int)
    ensures var era := year / 400;
            var yearOfEra := year - era * 400;
            era * 146_097 + yearOfEra * 365 + yearOfEra / 4 - yearOfEra / 100 == DaysToMarch(year)
  {
    var era := year / 400;
    var yearOfEra := year - era * 400;
    assert year / 4 == era * 100 + yearOfEra / 4;
    assert year / 100 == era * 4 + yearOfEra / 100;
  }

  lemma YearLength(year: int)
    ensures DaysToMarch(year + 1) == DaysToMarch(year) + if LeapYear(year + 1) then 366 else 365
  {
    assert (year + 1) / 4 == year / 4 + if (year + 1) % 4 == 0 then 1 else 0;
    assert (year + 1) / 100 == year / 100 + if (year + 1) % 100 == 0 then 1 else 0;
    assert (year + 1) / 400 == year / 400 + if (year + 1) % 400 == 0 then 1 else 0;
  }

  /** The year that begins in March of which a date is a day. */
  function MarchYear(d: Date): int {
    d.year - if d.month <= 2 then 1 else 0
  }

  function DayOfMarchYear(d: Date): int {
    (153 * (d.month + if d.month > 2 then -3 else 9) + 2) / 5 + d.day - 1
  }

  lemma DaysFromMarch(d: Date)
    ensures DaysSinceEpoch(d) == DaysToMarch(MarchYear(d)) + DayOfMarchYear(d) - 719_468
  {
    EraSumsToYears(MarchYear(d));
  }

  lemma NextDayWithinYear(d: Date)
    requires ValidDate(d)
    ensures var next := NextDay(d);
            if MarchYear(next) == MarchYear(d) then DayOfMarchYear(next) == DayOfMarchYear(d) + 1
            else MarchYear(next) == MarchYear(d) + 1 == d.year && DayOfMarchYear(next) == 0
                 && DayOfMarchYear(d) == if LeapYear(d.year) then 365 else 364
  {
  }

  lemma NextDayAddsOne(d: Date)
    requires ValidDate(d)
    ensures DaysSinceEpoch(NextDay(d)) == DaysSinceEpoch(d) + 1
  {
    var next := NextDay(d);
    var days, nextDays := DaysSinceEpoch(d), DaysSinceEpoch(next);
    assert days == DaysToMarch(MarchYear(d)) + DayOfMarchYear(d) - 719_468 by { DaysFromMarch(d); }
    assert nextDays == DaysToMarch(MarchYear(next)) + DayOfMarchYear(next) - 719_468 by { DaysFromMarch(next); }
    NextDayWithinYear(d);
    YearLength(MarchYear(d));
  }

  // ---- The printer's formula undoes it ----

  /** Every day of a 400-year era lies in one century, one four-year block, one
      year and one day of a year that begins in March. */
  lemma YearOfEraIsExact(century: int, block: int, year: int, dayOfYear: int)
    requires 0 <= century <= 3 && 0 <= block <= 24 && 0 <= year <= 3
    requires 0 <= dayOfYear <= 365
    requires dayOfYear == 365 ==> year == 3 && (block != 24 || century == 3)
    ensures YearOfEra(36_524 * century + 1_461 * block + 365 * year + dayOfYear)
            == 100 * century + 4 * block + year
  {
    var rest := 1_461 * block + 365 * year + dayOfYear;
    var dayOfEra := 36_524 * century + rest;
    assert 0 <= rest <= 36_524;
    var last := if dayOfEra == 146_096 then 1 else 0;
    assert dayOfEra / 146_096 == last;
    assert dayOfEra / 36_524 == century + last;
    FourYearBlocks(century, block, year, dayOfYear);
  }

  lemma FourYearBlocks(century: int, block: int, year: int, dayOfYear: int)
    requires 0 <= century <= 3 && 0 <= block <= 24 && 0 <= year <= 3
    requires 0 <= dayOfYear <= 365
    requires dayOfYear == 365 ==> year == 3 && (block != 24 || century == 3)
    ensures var dayOfEra := 36_524 * century + 1_461 * block + 365 * year + dayOfYear;
            var whole := 100 * century + 4 * block + year;
            365 * whole <= dayOfEra - dayOfEra / 1_460 + century < 365 * whole + 365
  {
    var dayOfEra := 36_524 * century + 1_461 * block + 365 * year + dayOfYear;
    // 36,524 = 25 * 1,460 + 24 and 1,461 = 1,460 + 1
    var within := 24 * century + block + 365 * year + dayOfYear;
    assert dayOfEra == 1_460 * (25 * century + block) + within;
    var carry := if within >= 1_460 then 1 else 0;
    assert dayOfEra / 1_460 == 25 * century + block + carry;
  }

  lemma MonthIsExact(adjustedMonth: int, day: int)
    requires 0 <= adjustedMonth <= 11
    requires 1 <= day
    requires (153 * adjustedMonth + 2) / 5 + day <= (153 * (adjustedMonth + 1) + 2) / 5
    ensures (5 * ((153 * adjustedMonth + 2) / 5 + day - 1) + 2) / 153 == adjustedMonth
  {
  }

  lemma CivilDateUndoesDays(d: Date)
    requires ValidDate(d)
    ensures CivilDate(DaysSinceEpoch(d)) == d
  {
    hide CivilDate, DateInEra, DaysSinceEpoch, YearOfEra;
    var era, yearOfEra := MarchYear(d) / 400, MarchYear(d) % 400;
    var dayOfEra := yearOfEra * 365 + yearOfEra / 4 - yearOfEra / 100 + DayOfMarchYear(d);
    DaysInEras(d);
    LeapDayIsLast(d);
    assert 0 <= dayOfEra < 146_097 && YearOfEra(dayOfEra) == yearOfEra by {
      DayWithinEra(yearOfEra, DayOfMarchYear(d));
    }
    EraOfShiftedDay(era, dayOfEra);
    DateFromMarch(d, era, dayOfEra);
  }

  lemma DaysInEras(d: Date)
    ensures var yearOfEra := MarchYear(d) % 400;
            DaysSinceEpoch(d) == MarchYear(d) / 400 * 146_097
                                 + (yearOfEra * 365 + yearOfEra / 4 - yearOfEra / 100 + DayOfMarchYear(d)) - 719_468
  {
  }

  lemma DateFromMarch(d: Date, era: int, dayOfEra: int)
    requires ValidDate(d)
    requires era * 400 + YearOfEra(dayOfEra) == MarchYear(d)
    requires var y := YearOfEra(dayOfEra);
             dayOfEra == y * 365 + y / 4 - y / 100 + DayOfMarchYear(d)
    ensures DateInEra(era, dayOfEra) == d
  {
    hide YearOfEra;
    MonthIsExact(d.month + if d.month > 2 then -3 else 9, d.day);
  }

  lemma DayWithinEra(yearOfEra: int, dayOfYear: int)
    requires 0 <= yearOfEra < 400 && 0 <= dayOfYear <= 365
    requires dayOfYear == 365 ==> yearOfEra % 4 == 3 && (yearOfEra % 100 != 99 || yearOfEra == 399)
    ensures var dayOfEra := yearOfEra * 365 + yearOfEra / 4 - yearOfEra / 100 + dayOfYear;
            0 <= dayOfEra < 146_097 && YearOfEra(dayOfEra) == yearOfEra
  {
    var century, block, year := yearOfEra / 100, yearOfEra % 100 / 4, yearOfEra % 4;
    assert yearOfEra == 100 * century + 4 * block + year;
    assert yearOfEra / 4 == 25 * century + block;
    YearOfEraIsExact(century, block, year, dayOfYear);
  }

  lemma LeapDayIsLast(d: Date)
    requires ValidDate(d)
    ensures 0 <= DayOfMarchYear(d) <= 365
    ensures DayOfMarchYear(d) == 365 ==>
              var yearOfEra := MarchYear(d) % 400;
              yearOfEra % 4 == 3 && (yearOfEra % 100 != 99 || yearOfEra == 399)
  {
    assert DayOfMarchYear(d) == 365 ==> LeapYear(MarchYear(d) + 1);
    BeforeLeapYear(MarchYear(d));
  }

  lemma BeforeLeapYear(year: int)
    ensures var yearOfEra := year % 400;
            LeapYear(year + 1) <==> yearOfEra % 4 == 3 && (yearOfEra % 100 != 99 || yearOfEra == 399)
  {
    var era, yearOfEra := year / 400, year % 400;
    Remainders(era, yearOfEra + 1, year + 1);
    LeapYearOfEra(yearOfEra);
  }

  lemma LeapYearOfEra(yearOfEra: int)
    requires 0 <= yearOfEra < 400
    ensures LeapYear(yearOfEra + 1) <==> yearOfEra % 4 == 3 && (yearOfEra % 100 != 99 || yearOfEra == 399)
  {
  }

  lemma Remainders(era: int, yearOfEra: nat, year: int)
    requires year == 400 * era + yearOfEra
    ensures year % 4 == yearOfEra % 4 && year % 100 == yearOfEra % 100 && year % 400 == yearOfEra % 400
  {
    ModFour(100 * era, yearOfEra);
    ModHundred(4 * era, yearOfEra);
    ModFourHundred(era, yearOfEra);
  }

  lemma ModFour(q: int, n: nat) ensures (4 * q + n) % 4 == n % 4 {}

  lemma ModHundred(q: int, n: nat) ensures (100 * q + n) % 100 == n % 100 {}

  lemma ModFourHundred(q: int, n: nat) ensures (400 * q + n) % 400 == n % 400 {}

  lemma EraOfShiftedDay(era: int, dayOfEra: int)
    requires 0 <= dayOfEra < 146_097
    ensures CivilDate(era * 146_097 + dayOfEra - 719_468) == DateInEra(era, dayOfEra)
  {
    var shifted := era * 146_097 + dayOfEra;
    TruncationIsFloor(shifted);
    assert shifted / 146_097 == era;
  }

  lemma TruncationIsFloor(shifted: int)
    ensures TruncatedQuotient(if shifted >= 0 then shifted else shifted - 146_096, 146_097)
            == shifted / 146_097
  {
  }

  // ---- Main results ----

  lemma EpochIsDayZero()
    ensures DaysSinceEpoch(Date(1970, 1, 1)) == 0
  {
  }

  lemma {:induction false} DaysOfDateOfDay(n: int)
    ensures DaysSinceEpoch(DateOfDay(n)) == n
    decreases if n < 0 then -n else n
  {
    hide DaysSinceEpoch;
    if n == 0 {
      EpochIsDayZero();
    } else if n > 0 {
      DaysOfDateOfDay(n - 1);
      NextDayAddsOne(DateOfDay(n - 1));
    } else {
      DaysOfDateOfDay(n + 1);
      NextDayAddsOne(DateOfDay(n));
    }
  }

  /** The closed form of `main.rs` is the day-by-day walk, in both directions. */
  lemma CivilDateRefinesWalk(n: int)
    ensures CivilDate(n) == DateOfDay(n)
  {
    DaysOfDateOfDay(n);
    CivilDateUndoesDays(DateOfDay(n));
  }

  /** The two closed forms are inverse to each other: on every day number, and on
      exactly the dates that exist. */
  lemma ClosedFormsAreInverse(n: int, d: Date)
    ensures ValidDate(CivilDate(n)) && DaysSinceEpoch(CivilDate(n)) == n
    ensures CivilDate(DaysSinceEpoch(d)) == d <==> ValidDate(d)
  {
    CivilDateRefinesWalk(n);
    DaysOfDateOfDay(n);
    CivilDateRefinesWalk(DaysSinceEpoch(d));
    if ValidDate(d) {
      CivilDateUndoesDays(d);
    }
  }

  predicate Before(a: Date, b: Date) {
    || a.year < b.year
    || (a.year == b.year && (a.month < b.month || (a.month == b.month && a.day < b.day)))
  }

  lemma NextDayIsLater(d: Date)
    requires ValidDate(d)
    ensures Before(d, NextDay(d))
  {
  }

  lemma WalkForward(n: int)
    ensures DateOfDay(n) == NextDay(DateOfDay(n - 1))
  {
    hide NextDay, PreviousDay;
  }

  lemma {:induction false} WalkIsIncreasing(n: int, m: int)
    requires n < m
    ensures Before(DateOfDay(n), DateOfDay(m))
    decreases m - n
  {
    hide NextDay, DateOfDay;
    WalkForward(m);
    NextDayIsLater(DateOfDay(m - 1));
    if n < m - 1 {
      WalkIsIncreasing(n, m - 1);
    }
  }

  /** Day numbers order dates as the calendar does. */
  lemma DaysOrderDates(a: Date, b: Date)
    requires ValidDate(a) && ValidDate(b)
    ensures Before(a, b) <==> DaysSinceEpoch(a) < DaysSinceEpoch(b)
  {
    hide DaysSinceEpoch, CivilDate;
    var n, m := DaysSinceEpoch(a), DaysSinceEpoch(b);
    CivilDateUndoesDays(a);
    CivilDateUndoesDays(b);
    CivilDateRefinesWalk(n);
    CivilDateRefinesWalk(m);
    if n < m {
      WalkIsIncreasing(n, m);
    } else if m < n {
      WalkIsIncreasing(m, n);
    }
  }
}
