/**
 * The Turkish public-holiday table and the bounded walk to the next working day
 * that the card due date is rolled onto.
 */
module Holidays {
  import opened Calendar

  /** The holidays the table names; `Both` is a day that carries two of them. */
  datatype Holiday =
    | NewYear | NationalSovereignty | Labour | Youth | Democracy | Victory
    | RepublicEve | Republic
    | RamadanEve | Ramadan(n: nat) | SacrificeEve | Sacrifice(n: nat)
    | Both(first: Holiday, second: Holiday)

  /** The Turkish display name the table stores for a holiday. */
  function Title(h: Holiday): string
  {
    match h
    case NewYear => "Yılbaşı"
    case NationalSovereignty => "Ulusal Egemenlik ve Çocuk Bayramı"
    case Labour => "Emek ve Dayanışma Günü"
    case Youth => "Atatürk’ü Anma, Gençlik ve Spor Bayramı"
    case Democracy => "Demokrasi ve Millî Birlik Günü"
    case Victory => "Zafer Bayramı"
    case RepublicEve => "Cumhuriyet Bayramı Arifesi"
    case Republic => "Cumhuriyet Bayramı"
    case RamadanEve => "Ramazan Bayramı Arifesi"
    case Ramadan(n) => "Ramazan Bayramı " + DayOrdinal(n) + ".gün"
    case SacrificeEve => "Kurban Bayramı Arifesi"
    case Sacrifice(n) => "Kurban Bayramı " + DayOrdinal(n) + ".gün"
    case Both(a, b) => Title(a) + " & " + Title(b)
  }

  function DayOrdinal(n: nat): string
  {
    if n == 1 then "1" else if n == 2 then "2" else if n == 3 then "3" else "4"
  }

  /** The eight holidays that fall on the same day every year. */
  function FixedHolidays(year: int): map<Date, Holiday>
  {
    map[
      Date(year, 1, 1) := NewYear,
      Date(year, 4, 23) := NationalSovereignty,
      Date(year, 5, 1) := Labour,
      Date(year, 5, 19) := Youth,
      Date(year, 7, 15) := Democracy,
      Date(year, 8, 30) := Victory,
      Date(year, 10, 28) := RepublicEve,
      Date(year, 10, 29) := Republic
    ]
  }

  /** The religious feasts, whose dates move; the table knows them for 2026 and 2027 only. */
  function MovableFeasts(year: int): map<Date, Holiday>
  {
    if year == 2026 then
      map[
        Date(2026, 3, 19) := RamadanEve,
        Date(2026, 3, 20) := Ramadan(1),
        Date(2026, 3, 21) := Ramadan(2),
        Date(2026, 3, 22) := Ramadan(3),
        Date(2026, 5, 26) := SacrificeEve,
        Date(2026, 5, 27) := Sacrifice(1),
        Date(2026, 5, 28) := Sacrifice(2),
        Date(2026, 5, 29) := Sacrifice(3),
        Date(2026, 5, 30) := Sacrifice(4)
      ]
    else if year == 2027 then
      map[
        Date(2027, 3, 8) := RamadanEve,
        Date(2027, 3, 9) := Ramadan(1),
        Date(2027, 3, 10) := Ramadan(2),
        Date(2027, 3, 11) := Ramadan(3),
        Date(2027, 5, 15) := SacrificeEve,
        Date(2027, 5, 16) := Sacrifice(1),
        Date(2027, 5, 17) := Sacrifice(2),
        Date(2027, 5, 18) := Sacrifice(3)
      ]
    else
      map[]
  }

  /**
   * getOfficialHolidays: the holiday table of one year, keyed by date. The fourth
   * day of the 2027 Feast of Sacrifice is written last; it falls on 19 May, which
   * already holds Youth Day, so the entry names both.
   */
  function OfficialHolidays(year: int): map<Date, Holiday>
  {
    var h := FixedHolidays(year) + MovableFeasts(year);
    if year == 2027 then
      var may19, fourth := Date(2027, 5, 19), Sacrifice(4);
      h[may19 := if may19 in h then Both(h[may19], fourth) else fourth]
    else
      h
  }

  /** A day the walk stops on: neither Saturday, Sunday nor a listed holiday of its year. */
  predicate IsWorkDay(d: Date)
    requires 1 <= d.month <= 12
  {
    Weekday(d) != 0 && Weekday(d) != 6 && !IsHoliday(d)
  }

  /** `d` is listed in the holiday table of its own year. */
  predicate IsHoliday(d: Date)
  {
    d in OfficialHolidays(d.year)
  }

  /** In 2027 the Youth Day entry also names the last day of the Feast of Sacrifice. */
  lemma MergedHolidayName()
    ensures Date(2027, 5, 19) in OfficialHolidays(2027)
    ensures OfficialHolidays(2027)[Date(2027, 5, 19)] == Both(Youth, Sacrifice(4))
  {
  }

  /**
   * The day the walk from `d` stops on when it may still take `budget` steps: `d`
   * itself if it is a working day or no step is left, otherwise the walk from the
   * following day with one step fewer.
   */
  function WorkDayWalk(d: Date, budget: nat): (r: Date)
    requires IsCalendarDate(d)
    ensures IsCalendarDate(r)
    decreases budget
  {
    if budget == 0 || IsWorkDay(d) then d else WorkDayWalk(NextDay(d), budget - 1)
  }

  /**
   * getNextWorkDayTR: steps forward one day at a time from `date`, at most 60 times,
   * and stops on the first day that is neither a weekend day nor a listed holiday.
   */
  method NextWorkDay(date: Date) returns (r: Date)
    requires IsCalendarDate(date)
    ensures r == WorkDayWalk(date, 60)
  {
    var checkDate := date;
    var iterations := 0;
    while iterations < 60
      invariant 0 <= iterations <= 60
      invariant IsCalendarDate(checkDate)
      invariant WorkDayWalk(checkDate, 60 - iterations) == WorkDayWalk(date, 60)
    {
      // Saturday, Sunday or a listed holiday: move on to the next day.
      if !IsWorkDay(checkDate) {
        checkDate := NextDay(checkDate);
        iterations := iterations + 1;
      } else {
        break;
      }
    }
    r := checkDate;
  }

  /** How many days the walk from `d` skips with `budget` steps available. */
  function SkipCount(d: Date, budget: nat): (k: nat)
    requires IsCalendarDate(d)
    ensures k <= budget
    decreases budget
  {
    if budget == 0 || IsWorkDay(d) then 0 else 1 + SkipCount(NextDay(d), budget - 1)
  }

  /**
   * The walk stops `SkipCount` days after `d`, every day it skipped was not a
   * working day, and unless the whole budget was spent it stopped on a working day.
   */
  lemma {:induction false} WorkDayWalkSteps(d: Date, budget: nat)
    requires IsCalendarDate(d)
    ensures WorkDayWalk(d, budget) == AddDays(d, SkipCount(d, budget))
    ensures forall j :: 0 <= j < SkipCount(d, budget) ==> !IsWorkDay(AddDays(d, j))
    ensures SkipCount(d, budget) < budget ==> IsWorkDay(WorkDayWalk(d, budget))
    decreases budget
  {
    if budget > 0 && !IsWorkDay(d) {
      var n := NextDay(d);
      WorkDayWalkSteps(n, budget - 1);
      AddDaysShift(d, SkipCount(n, budget - 1));
      SkippedDays(d, SkipCount(n, budget - 1));
    }
  }

  /**
   * What the walk promises in calendar terms: the result lies 0 to `budget` days
   * after `d`, every day strictly before it was not a working day, and unless the
   * whole budget was spent it is a working day.
   */
  lemma WorkDayWalkSpec(d: Date, budget: nat)
    requires IsCalendarDate(d)
    ensures IsNextWorkDay(d, budget, WorkDayWalk(d, budget))
  {
    WorkDayWalkSteps(d, budget);
    AddDaysNumber(d, SkipCount(d, budget));
  }

  /** Prepending a skipped day to a run of skipped days. */
  lemma SkippedDays(d: Date, gap: nat)
    requires IsCalendarDate(d) && !IsWorkDay(d)
    requires forall j :: 0 <= j < gap ==> !IsWorkDay(AddDays(NextDay(d), j))
    ensures forall j :: 0 <= j < gap + 1 ==> !IsWorkDay(AddDays(d, j))
  {
    forall j | 0 <= j < gap + 1
      ensures !IsWorkDay(AddDays(d, j))
    {
      if j > 0 {
        AddDaysShift(d, j - 1);
      }
    }
  }

  /** One day forward and then `n` more is `n + 1` days forward. */
  lemma AddDaysShift(d: Date, n: nat)
    requires IsCalendarDate(d)
    ensures AddDays(d, n + 1) == AddDays(NextDay(d), n)
  {
  }

  /** The walk's outcome stated without the walk: see `WorkDayWalkSpec`. */
  predicate IsNextWorkDay(date: Date, budget: nat, r: Date)
    requires IsCalendarDate(date)
  {
    IsCalendarDate(r) &&
    var gap := DayNumber(r) - DayNumber(date);
    && 0 <= gap <= budget
    && r == AddDays(date, gap)
    && (forall j :: 0 <= j < gap ==> !IsWorkDay(AddDays(date, j)))
    && (gap < budget ==> IsWorkDay(r))
  }
}
