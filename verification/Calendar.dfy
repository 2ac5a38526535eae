/** Trading dates and calendar-month arithmetic (scripts/audit_study_return.py:46-50). */
module Calendar {

  datatype Option<+T> = None | Some(value: T)

  /**
   An ISO date. Its month is held as one number (twelve times the year, plus the month
   counted from zero), so that lexicographic order of the pair is the order of the strings.
   */
  datatype Date = Date(month: int, day: int) {
    function Year(): int {
      month / 12
    }

    predicate Before(other: Date) {
      month < other.month || (month == other.month && day < other.day)
    }

    predicate AtMost(other: Date) {
      this == other || Before(other)
    }
  }

  function DaysOfMonth(year: int, number: int): nat {
    if number == 2 then (if year % 4 == 0 && (year % 100 != 0 || year % 400 == 0) then 29 else 28)
    else if number == 4 || number == 6 || number == 9 || number == 11 then 30
    else 31
  }

  function DaysIn(month: int): nat {
    DaysOfMonth(month / 12, month % 12 + 1)
  }

  predicate IsDay(d: Date) {
    1 <= d.day <= DaysIn(d.month)
  }

  function DayBefore(d: Date): Date {
    if d.day > 1 then Date(d.month, d.day - 1) else Date(d.month - 1, DaysIn(d.month - 1))
  }

  /** The previous calendar day is a day, lies before, and no day lies between. */
  lemma DayBeforeIsPrevious(d: Date, e: Date)
    requires IsDay(d) && IsDay(e)
    ensures IsDay(DayBefore(d)) && DayBefore(d).Before(d)
    ensures e.Before(d) ==> e.AtMost(DayBefore(d))
  {
  }

  /** Month lengths; February has 29 days every fourth year, save in centuries that 400 does not divide. */
  lemma MonthLengths(m: Month)
    requires m.Valid()
    ensures m.number in {1, 3, 5, 7, 8, 10, 12} ==> DaysIn(m.Ordinal()) == 31
    ensures m.number in {4, 6, 9, 11} ==> DaysIn(m.Ordinal()) == 30
    ensures m.number == 2 && m.year % 4 != 0 ==> DaysIn(m.Ordinal()) == 28
    ensures m.number == 2 && m.year % 4 == 0 && m.year % 100 != 0 ==> DaysIn(m.Ordinal()) == 29
    ensures m.number == 2 && m.year % 100 == 0 ==> DaysIn(m.Ordinal()) == if m.year % 400 == 0 then 29 else 28
  {
    OrdinalParts(m.year, m.number);
    Centuries(m.year);
  }

  lemma OrdinalParts(year: int, number: int)
    requires 1 <= number <= 12
    ensures DaysIn(year * 12 + number - 1) == DaysOfMonth(year, number)
  {
    hide DaysOfMonth;
  }

  lemma Centuries(year: int)
    ensures year % 100 == 0 ==> year % 4 == 0
    ensures year % 400 == 0 ==> year % 100 == 0
  {
  }

  /** A date's year is the year of its month. */
  lemma YearOfMonth(m: Month, day: int)
    requires m.Valid()
    ensures Date(m.Ordinal(), day).Year() == m.year
  {
  }

  predicate Ascending(dates: seq<Date>) {
    forall i, j :: 0 <= i < j < |dates| ==> dates[i].Before(dates[j])
  }

  /** A calendar month as the source spells it: a year and a number from 1 to 12. */
  datatype Month = Month(year: int, number: int) {
    predicate Valid() {
      1 <= number <= 12
    }

    function Ordinal(): int {
      year * 12 + number - 1
    }
  }

  function MonthBefore(m: Month, offset: int): (r: Month)
    ensures r.Valid()
    ensures r.Ordinal() == m.Ordinal() - offset
  {
    var ordinal := m.year * 12 + m.number - 1 - offset;
    Month(ordinal / 12, ordinal % 12 + 1)
  }

  /** The month whose ordinal lies `offset` months before `ordinal`. */
  function MonthsBack(ordinal: int, offset: int): (r: int)
    ensures r == ordinal - offset
  {
    MonthBefore(Month(ordinal / 12, ordinal % 12 + 1), offset).Ordinal()
  }
}
