/** The calendar that a stamp's date-time is checked against, by its closed forms
    (internal/changelog/hlc.go:104-107). */
module Calendar {
  import opened HlcText

  /** The leap years among the years 0 to `year` - 1. */
  function LeapsBefore(year: nat): nat {
    if year == 0 then 0 else LeapsBefore(year - 1) + if IsLeap(year - 1) then 1 else 0
  }

  /** Every fourth year is one, but not every hundredth, but every four hundredth. */
  lemma {:induction false} LeapCount(year: nat)
    ensures LeapsBefore(year) == (year + 3) / 4 - (year + 99) / 100 + (year + 399) / 400
  {
    if year > 0 {
      LeapCount(year - 1);
      CountStep(year - 1);
    }
  }

  lemma CountStep(y: nat)
    ensures (y + 4) / 4 == (y + 3) / 4 + (if y % 4 == 0 then 1 else 0)
    ensures (y + 100) / 100 == (y + 99) / 100 + (if y % 100 == 0 then 1 else 0)
    ensures (y + 400) / 400 == (y + 399) / 400 + (if y % 400 == 0 then 1 else 0)
    ensures (y % 400 == 0 ==> y % 100 == 0) && (y % 100 == 0 ==> y % 4 == 0)
  {
    EveryFour(y);
    EveryHundred(y);
    EveryFourHundred(y);
    Multiples(y);
  }

  lemma EveryFour(y: nat)
    ensures (y + 4) / 4 == (y + 3) / 4 + (if y % 4 == 0 then 1 else 0)
  {
  }

  lemma EveryHundred(y: nat)
    ensures (y + 100) / 100 == (y + 99) / 100 + (if y % 100 == 0 then 1 else 0)
  {
  }

  lemma EveryFourHundred(y: nat)
    ensures (y + 400) / 400 == (y + 399) / 400 + (if y % 400 == 0 then 1 else 0)
  {
  }

  lemma Multiples(y: nat)
    ensures (y % 400 == 0 ==> y % 100 == 0) && (y % 100 == 0 ==> y % 4 == 0)
  {
    var k := 4 * (y / 400);
    if y % 400 == 0 { OfHundred(k); }
    var l := 25 * (y / 100);
    if y % 100 == 0 { OfFour(l); }
  }

  lemma OfHundred(k: nat)
    ensures 100 * k % 100 == 0
  {
  }

  lemma OfFour(k: nat)
    ensures 4 * k % 4 == 0
  {
  }

  /** The days of the year before the given month; month 13 stands for the whole year. */
  function DaysBefore(year: nat, month: nat): nat {
    if month <= 1 then 0 else DaysBefore(year, month - 1) + DaysIn(year, month - 1)
  }

  const DAYS_BEFORE: seq<nat> := [0, 31, 59, 90, 120, 151, 181, 212, 243, 273, 304, 334, 365]

  lemma MonthTable(year: nat, month: nat)
    requires 1 <= month <= 13
    ensures DaysBefore(year, month) == DAYS_BEFORE[month - 1] + if month > 2 && IsLeap(year) then 1 else 0
  {
    var leap := if IsLeap(year) then 1 else 0;
    assert DaysBefore(year, 3) == 59 + leap && DaysBefore(year, 2) == 31;
    assert DaysBefore(year, 6) == 151 + leap && DaysBefore(year, 5) == 120 + leap && DaysBefore(year, 4) == 90 + leap;
    assert DaysBefore(year, 7) == 181 + leap && DaysBefore(year, 8) == 212 + leap && DaysBefore(year, 9) == 243 + leap;
    assert DaysBefore(year, 10) == 273 + leap && DaysBefore(year, 11) == 304 + leap;
    assert DaysBefore(year, 12) == 334 + leap && DaysBefore(year, 13) == 365 + leap;
  }

  /** A month has the days by which the table grows. */
  lemma DaysOfMonth(year: nat, month: nat)
    requires 1 <= month <= 12
    ensures DaysIn(year, month)
      == DAYS_BEFORE[month] - DAYS_BEFORE[month - 1]
         + if month == 2 && LeapsBefore(year + 1) > LeapsBefore(year) then 1 else 0
  {
    MonthTable(year, month);
    MonthTable(year, month + 1);
  }
}
