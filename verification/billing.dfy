/**
 * A card's statement period: the reference day of the viewed month, the billing
 * window that the cutoff day carves around it, and the payment due date.
 */
module Billing {
  import opened Common
  import opened Calendar
  import opened Holidays

  /**
   * The day the statement view works from: today moved by `offset` months with
   * the day clamped to the end of the target month (getClampedDate on the
   * current date).
   */
  function ReferenceDay(today: Date, offset: int): (d: Date)
    requires IsCalendarDate(today)
    ensures IsCalendarDate(d)
    ensures MonthIndex(MonthOf(d)) == MonthIndex(MonthOf(today)) + offset
    ensures offset == 0 ==> d == today
  {
    ClampedDate(today.year, today.month - 1 + offset, today.day)
  }

  /** A statement period, both ends inclusive. */
  datatype Window = Window(start: Date, end: Date)

  /**
   * The billing window containing `day` for a card that closes on `cutoff`:
   * before the cutoff day it runs from the previous month's cutoff to this
   * month's, from the cutoff day on it runs from this month's to the next
   * month's; each end is the cutoff clamped to the length of its month.
   */
  function BillingWindow(day: Date, cutoff: int): (w: Window)
    requires 1 <= cutoff
    ensures IsCalendarDate(w.start) && IsCalendarDate(w.end)
  {
    var m0 := day.month - 1;
    if day.day < cutoff then
      Window(ClampedDate(day.year, m0 - 1, cutoff), ClampedDate(day.year, m0, cutoff))
    else
      Window(ClampedDate(day.year, m0, cutoff), ClampedDate(day.year, m0 + 1, cutoff))
  }

  predicate InWindow(w: Window, d: Date)
  {
    DateLe(w.start, d) && DateLe(d, w.end)
  }

  /**
   * The window contains the day it was computed for, its ends lie in consecutive
   * months, and each end is the cutoff clamped to the length of its month.
   */
  lemma BillingWindowSpec(day: Date, cutoff: int)
    requires IsCalendarDate(day) && 1 <= cutoff
    ensures var w := BillingWindow(day, cutoff);
            && InWindow(w, day)
            && MonthIndex(MonthOf(w.end)) == MonthIndex(MonthOf(w.start)) + 1
            && (MonthOf(w.start) == MonthOf(day) || MonthOf(w.end) == MonthOf(day))
            && w.start.day == MinInt(cutoff, DaysInMonth(w.start.year, w.start.month))
            && w.end.day == MinInt(cutoff, DaysInMonth(w.end.year, w.end.month))
  {
    var w := BillingWindow(day, cutoff);
    var m0 := day.month - 1;
    FromIndexOfMonthIndex(MonthOf(day));
    assert FromIndex(day.year * 12 + m0) == MonthOf(day);
    ClampedDayIsMin(day.year, m0 - 1, cutoff);
    ClampedDayIsMin(day.year, m0, cutoff);
    ClampedDayIsMin(day.year, m0 + 1, cutoff);
    MonthOrder(w.start, day);
    MonthOrder(day, w.end);
  }

  /** A date in an earlier month comes first. */
  lemma MonthOrder(a: Date, b: Date)
    requires ValidMonth(MonthOf(a)) && ValidMonth(MonthOf(b))
    ensures MonthIndex(MonthOf(a)) < MonthIndex(MonthOf(b)) ==> DateLt(a, b)
  {
  }

  /**
   * With a cutoff of 15, the 10th of January 2024 falls in the period from
   * 15 December 2023 to 15 January 2024.
   */
  lemma WindowBeforeCutoff()
    ensures BillingWindow(Date(2024, 1, 10), 15) == Window(Date(2023, 12, 15), Date(2024, 1, 15))
  {
    var w := BillingWindow(Date(2024, 1, 10), 15);
    assert w == Window(ClampedDate(2024, -1, 15), ClampedDate(2024, 0, 15));
    ClampedDateExamples();
  }

  /** On and after the cutoff day the period runs from 15 January to 15 February 2024. */
  lemma WindowFromCutoff()
    ensures BillingWindow(Date(2024, 1, 20), 15) == Window(Date(2024, 1, 15), Date(2024, 2, 15))
  {
    var w := BillingWindow(Date(2024, 1, 20), 15);
    assert w == Window(ClampedDate(2024, 0, 15), ClampedDate(2024, 1, 15));
    ClampedDateExamples();
  }

  /**
   * The payment due date: ten days after the window's end, moved forward to
   * the next working day.
   */
  function DueDate(end: Date): (due: Date)
    requires IsCalendarDate(end)
  {
    WorkDayWalk(AddDays(end, 10), 60)
  }

  /**
   * The due date lies 10 to 70 days after the end of the window, every day
   * between the tenth day and the due date is a weekend day or a holiday, and
   * unless the walk ran out the due date is a working day.
   */
  lemma DueDateSpec(end: Date)
    requires IsCalendarDate(end)
    ensures var due, from := DueDate(end), AddDays(end, 10);
            && DayNumber(end) + 10 <= DayNumber(due) <= DayNumber(end) + 70
            && (forall j :: 0 <= j < DayNumber(due) - DayNumber(from) ==> !IsWorkDay(AddDays(from, j)))
            && (DayNumber(due) - DayNumber(from) < 60 ==> IsWorkDay(due))
  {
    var from := AddDays(end, 10);
    AddDaysNumber(end, 10);
    WorkDayWalkSpec(from, 60);
  }
}
