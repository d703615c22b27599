/** Calendar dates as day numbers: 1 is Monday 1 January of year 1 in the proleptic Gregorian calendar,
    with the range of dates chrono can represent. */
module GregorianDates {
  import opened Optional

  const MIN_YEAR: int := -262143
  const MAX_YEAR: int := 262142

  predicate IsLeap(y: int) {
    y % 4 == 0 && (y % 100 != 0 || y % 400 == 0)
  }

  /** 1 January. */
  function YearStart(y: int): int {
    365 * (y - 1) + (y - 1) / 4 - (y - 1) / 100 + (y - 1) / 400 + 1
  }

  lemma CenturiesNest(y: int)
    ensures y % 400 == 0 ==> y % 100 == 0
    ensures y % 100 == 0 ==> y % 4 == 0
  {
  }

  lemma FourthYear(y: int)
    ensures y / 4 - (y - 1) / 4 == if y % 4 == 0 then 1 else 0
  {
  }

  lemma HundredthYear(y: int)
    ensures y / 100 - (y - 1) / 100 == if y % 100 == 0 then 1 else 0
  {
  }

  lemma FourHundredthYear(y: int)
    ensures y / 400 - (y - 1) / 400 == if y % 400 == 0 then 1 else 0
  {
  }

  lemma YearLength(y: int)
    ensures YearStart(y + 1) - YearStart(y) == if IsLeap(y) then 366 else 365
  {
    CenturiesNest(y);
    FourthYear(y);
    HundredthYear(y);
    FourHundredthYear(y);
  }

  lemma {:induction false} YearsIncrease(y: int, z: int)
    requires y <= z
    ensures YearStart(y) <= YearStart(z)
    ensures y < z ==> YearStart(y) < YearStart(z)
    decreases z - y
  {
    if y < z {
      YearLength(y);
      YearsIncrease(y + 1, z);
    }
  }

  function YearOf(d: int): (y: int)
    ensures YearStart(y) <= d < YearStart(y + 1)
  {
    var guess := (400 * (d - 1)) / 146097 + 1;
    if d < YearStart(guess) then guess - 1
    else if d >= YearStart(guess + 1) then guess + 1
    else guess
  }

  /** A date lies in exactly one year. */
  lemma YearOfIs(d: int, y: int)
    requires YearStart(y) <= d < YearStart(y + 1)
    ensures YearOf(d) == y
  {
    var z := YearOf(d);
    if z < y {
      YearsIncrease(z + 1, y);
    } else if y < z {
      YearsIncrease(y + 1, z);
    }
  }

  predicate Weekend(d: int) {
    d % 7 == 6 || d % 7 == 0
  }

  function DaysInMonth(y: int, m: int): int {
    if m == 2 then (if IsLeap(y) then 29 else 28)
    else if m == 4 || m == 6 || m == 9 || m == 11 then 30 else 31
  }

  function DaysBeforeMonth(y: int, m: int): int
    requires 1 <= m <= 12
  {
    if m == 1 then 0 else DaysBeforeMonth(y, m - 1) + DaysInMonth(y, m - 1)
  }

  /** `NaiveDate::from_ymd_opt`. */
  function FromYmd(y: int, m: int, d: int): Option<int> {
    if MIN_YEAR <= y <= MAX_YEAR && 1 <= m <= 12 && 1 <= d <= DaysInMonth(y, m)
    then Some(YearStart(y) + DaysBeforeMonth(y, m) + d - 1) else None
  }
}
