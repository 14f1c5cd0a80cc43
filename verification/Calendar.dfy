/** The proleptic Gregorian calendar from 0000-01-01 on: day numbers and civil dates. */
module Calendar {
  datatype Date = Date(year: nat, month: nat, day: nat)

  predicate IsLeap(y: nat) { y % 4 == 0 && (y % 100 != 0 || y % 400 == 0) }

  function YearLength(y: nat): nat { if IsLeap(y) then 366 else 365 }

  function MonthLength(y: nat, m: nat): nat {
    if m == 2 then (if IsLeap(y) then 29 else 28)
    else if m == 4 || m == 6 || m == 9 || m == 11 then 30
    else 31
  }

  function DaysBeforeYear(y: nat): nat {
    if y == 0 then 0 else DaysBeforeYear(y - 1) + YearLength(y - 1)
  }

  function DaysBeforeMonth(y: nat, m: nat): nat
    requires 1 <= m <= 13
  {
    if m == 1 then 0 else DaysBeforeMonth(y, m - 1) + MonthLength(y, m - 1)
  }

  predicate ValidDate(d: Date) {
    1 <= d.month <= 12 && 1 <= d.day <= MonthLength(d.year, d.month)
  }

  function DayNumber(d: Date): nat
    requires ValidDate(d)
  {
    DaysBeforeYear(d.year) + DaysBeforeMonth(d.year, d.month) + d.day - 1
  }

  predicate DateLess(a: Date, b: Date) {
    a.year < b.year || (a.year == b.year && (a.month < b.month || (a.month == b.month && a.day < b.day)))
  }

  lemma MonthsFillYear(y: nat)
    ensures DaysBeforeMonth(y, 13) == YearLength(y)
  {
    assert DaysBeforeMonth(y, 2) == 31;
    assert DaysBeforeMonth(y, 3) == 31 + MonthLength(y, 2);
    assert DaysBeforeMonth(y, 5) == DaysBeforeMonth(y, 3) + 61;
    assert DaysBeforeMonth(y, 7) == DaysBeforeMonth(y, 5) + 61;
    assert DaysBeforeMonth(y, 9) == DaysBeforeMonth(y, 7) + 62;
    assert DaysBeforeMonth(y, 11) == DaysBeforeMonth(y, 9) + 61;
  }

  lemma Fourths(z: nat)
    ensures (z + 4) / 4 == (z + 3) / 4 + if z % 4 == 0 then 1 else 0
  {
  }

  lemma Hundredths(z: nat)
    ensures (z + 100) / 100 == (z + 99) / 100 + if z % 100 == 0 then 1 else 0
  {
  }

  lemma FourHundredths(z: nat)
    ensures (z + 400) / 400 == (z + 399) / 400 + if z % 400 == 0 then 1 else 0
  {
  }

  lemma Multiples(z: nat)
    ensures z % 400 == 0 ==> z % 100 == 0
    ensures z % 100 == 0 ==> z % 4 == 0
  {
    if z % 400 == 0 { assert z == 100 * (4 * (z / 400)); }
    if z % 100 == 0 { assert z == 4 * (25 * (z / 100)); }
  }

  /** Every fourth year before `y` but every hundredth, and every four hundredth. */
  function LeapsBefore(y: nat): int { (y + 3) / 4 - (y + 99) / 100 + (y + 399) / 400 }

  lemma LeapsStep(y: nat)
    ensures LeapsBefore(y + 1) == LeapsBefore(y) + YearLength(y) - 365
  {
    Fourths(y);
    Hundredths(y);
    FourHundredths(y);
    Multiples(y);
  }

  lemma {:induction false} YearsCounted(y: nat)
    ensures DaysBeforeYear(y) == 365 * y + LeapsBefore(y)
  {
    hide LeapsBefore, YearLength;
    if y > 0 {
      YearsCounted(y - 1);
      LeapsStep(y - 1);
    } else {
      NoLeaps();
    }
  }

  lemma NoLeaps()
    ensures LeapsBefore(0) == 0
  {
  }

  /** From March on the months take 153 days every five; January and February take 31 and the rest of 59 or 60. */
  lemma MonthsCounted(y: nat, m: nat)
    requires 1 <= m <= 13
    ensures DaysBeforeMonth(y, m)
            == if m <= 2 then 31 * (m - 1)
               else 59 + (DaysBeforeYear(y + 1) - DaysBeforeYear(y) - 365) + (153 * (m - 3) + 2) / 5
  {
    if m > 1 { MonthsCounted(y, m - 1); }
  }

  lemma {:induction false} YearsMonotone(y: nat, z: nat)
    requires y <= z
    ensures DaysBeforeYear(y) <= DaysBeforeYear(z)
  {
    if y < z { YearsMonotone(y, z - 1); }
  }

  lemma {:induction false} MonthsMonotone(y: nat, m: nat, n: nat)
    requires 1 <= m <= n <= 13
    ensures DaysBeforeMonth(y, m) <= DaysBeforeMonth(y, n)
  {
    if m < n { MonthsMonotone(y, m, n - 1); }
  }

  /** The day number of a date lies inside its own year. */
  lemma DayInYear(d: Date)
    requires ValidDate(d)
    ensures DaysBeforeYear(d.year) <= DayNumber(d) < DaysBeforeYear(d.year + 1)
  {
    MonthsMonotone(d.year, d.month + 1, 13);
    MonthsFillYear(d.year);
  }

  /** Calendar order is day order, both ways. */
  lemma DateOrder(a: Date, b: Date)
    requires ValidDate(a) && ValidDate(b)
    ensures DateLess(a, b) <==> DayNumber(a) < DayNumber(b)
  {
    DayInYear(a);
    DayInYear(b);
    if a.year < b.year {
      YearsMonotone(a.year + 1, b.year);
    } else if b.year < a.year {
      YearsMonotone(b.year + 1, a.year);
    } else if a.month < b.month {
      MonthsMonotone(a.year, a.month + 1, b.month);
    } else if b.month < a.month {
      MonthsMonotone(a.year, b.month + 1, a.month);
    }
  }

  function YearFrom(n: nat, y: nat): (r: nat)
    requires DaysBeforeYear(y) <= n
    ensures DaysBeforeYear(r) <= n < DaysBeforeYear(r + 1)
    decreases n - DaysBeforeYear(y)
  {
    if n < DaysBeforeYear(y + 1) then y else YearFrom(n, y + 1)
  }

  function MonthFrom(y: nat, n: nat, m: nat): (r: nat)
    requires 1 <= m <= 12 && DaysBeforeMonth(y, m) <= n < DaysBeforeMonth(y, 13)
    ensures 1 <= r <= 12 && DaysBeforeMonth(y, r) <= n < DaysBeforeMonth(y, r + 1)
    decreases 12 - m
  {
    if n < DaysBeforeMonth(y, m + 1) then m else MonthFrom(y, n, m + 1)
  }

  /** The civil date of day `n`; DayNumber is its inverse. */
  function CivilDate(n: nat): (d: Date)
    ensures ValidDate(d) && DayNumber(d) == n
  {
    var y := YearFrom(n, 0);
    var k := n - DaysBeforeYear(y);
    MonthsFillYear(y);
    var m := MonthFrom(y, k, 1);
    Date(y, m, k - DaysBeforeMonth(y, m) + 1)
  }
}
