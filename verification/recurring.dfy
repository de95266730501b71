/**
 * The recurring-obligation engine. Every active auto-pay plan is walked month by
 * month from the month after its marker up to the current month; each month is
 * materialised as one expense (and, for a plan not paid by card, one wallet
 * withdrawal) unless the card it is charged to lacks the limit. Also the monthly
 * income credit, and the plan bookkeeping that edits, pauses and deletes plans.
 */
module Recurring {
  import opened Common
  import opened Calendar
  import opened Names
  import opened Entities
  import opened Books

  /** The part of the ledger the engine reads and writes. */
  datatype Records = Records(expenses: seq<Expense>, logs: seq<BalanceLog>, nextId: nat)

  /** What the plan costs before its campaign: the cashback taken off, not yet floored at zero. */
  function Discounted(amount: real, kind: CashbackType, value: real): real
  {
    match kind
    case NoCashback => amount
    case Percent => amount - amount * (value / 100.0)
    case Fixed => amount - value
  }

  /**
   * The campaign covers month `ym` when the plan has no campaign end, or when
   * the plan's day in that month (rolling over past the month's end, as
   * `new Date(y, m, day)` does) is not after the end date.
   */
  predicate CampaignActive(p: Plan, ym: YearMonth)
    requires 1 <= p.day
  {
    match p.campaignEnd
    case None => true
    case Some(end) => DateLe(OverflowDate(ym.year, ym.month - 1, p.day), end)
  }

  /**
   * What the engine charges for month `ym`: during the campaign the amount
   * with the cashback taken off, floored at zero; after it the full amount.
   */
  function NetAmount(p: Plan, ym: YearMonth): (r: real)
    requires 1 <= p.day
    ensures p.amount >= 0.0 ==> r >= 0.0
    ensures !CampaignActive(p, ym) ==> r == p.amount
    ensures p.amount >= 0.0 && p.cashbackValue >= 0.0 ==> r <= p.amount
    ensures p.amount >= 0.0 && p.cashbackType.NoCashback? ==> r == p.amount
  {
    if CampaignActive(p, ym) then
      assert p.amount >= 0.0 && p.cashbackValue >= 0.0 ==> p.amount * (p.cashbackValue / 100.0) >= 0.0;
      MaxReal(0.0, Discounted(p.amount, p.cashbackType, p.cashbackValue))
    else p.amount
  }

  /** Ten percent off 100 lira charges 90 lira. */
  lemma PercentExample(p: Plan)
    requires 1 <= p.day && p.amount == 10000.0
    requires p.cashbackType == Percent && p.cashbackValue == 10.0 && p.campaignEnd.None?
    ensures NetAmount(p, YearMonth(2026, 3)) == 9000.0
  {
  }

  /** A fixed cashback larger than the amount charges nothing. */
  lemma FixedExample(p: Plan)
    requires 1 <= p.day && p.amount == 10000.0
    requires p.cashbackType == Fixed && p.cashbackValue == 12000.0 && p.campaignEnd.None?
    ensures NetAmount(p, YearMonth(2026, 3)) == 0.0
  {
  }

  /** A campaign that ended on 28 February 2026 no longer covers the 15th of March. */
  lemma CampaignOverExample(p: Plan)
    requires p.day == 15 && p.amount == 10000.0 && p.campaignEnd == Some(Date(2026, 2, 28))
    ensures NetAmount(p, YearMonth(2026, 3)) == 10000.0
  {
    assert OverflowDate(2026, 2, 15) == Date(2026, 3, 15) by {
      assert FromIndex(2026 * 12 + 2) == YearMonth(2026, 3);
    }
  }

  /** The card a plan is charged to: the first whose name loosely matches the plan's method. */
  function PlanCard(cards: seq<Card>, p: Plan): Option<Card>
  {
    FindCard(cards, Loose, p.payMethod)
  }

  /**
   * The limit skip: the plan is charged to a card and its charge for the month
   * exceeds what is left of the card's limit, with the debt summed over the
   * records whose method is exactly the card's name.
   */
  predicate Blocked(r: Records, cards: seq<Card>, p: Plan, ym: YearMonth)
    requires 1 <= p.day
  {
    match PlanCard(cards, p)
    case None => false
    case Some(c) => NetAmount(p, ym) > Remaining(c, r.expenses, Strict)
  }

  /** The expense the engine materialises for month `ym`. */
  function MonthRecord(r: Records, cards: seq<Card>, p: Plan, ym: YearMonth): (e: Expense)
    requires 1 <= p.day && ValidMonth(ym)
    ensures MonthOf(e.date) == ym && IsCalendarDate(e.date)
    ensures e.date.day == MinInt(p.day, DaysInMonth(ym.year, ym.month))
  {
    FromIndexOfMonthIndex(ym);
    Expense(r.nextId, p.name, NetAmount(p, ym), p.payMethod, SubscriptionCategory,
            ClampedDate(ym.year, ym.month - 1, p.day), PlanCard(cards, p).Some?, false, true, Some(p.id))
  }

  /** Materialising one month: the expense, and a wallet withdrawal when no card is charged. */
  function MonthStep(r: Records, cards: seq<Card>, p: Plan, ym: YearMonth): Records
    requires 1 <= p.day && ValidMonth(ym)
  {
    var e := MonthRecord(r, cards, p, ym);
    var logs := if e.isCredit then r.logs
                else r.logs + [BalanceLog(r.nextId, "Otomatik Ödeme: " + p.name, -e.amount)];
    Records(r.expenses + [e], logs, r.nextId + 1)
  }

  /**
   * One month of a walk, given by its month index: None when the month is
   * refused, otherwise the records with the month materialised.
   */
  type Visit = (Records, int) -> Option<Records>

  /** The engine's month for plan `p`: refused for lack of limit, else materialised. */
  function PlanVisit(cards: seq<Card>, p: Plan): Visit
    requires 1 <= p.day
  {
    (r: Records, j: int) =>
      if Blocked(r, cards, p, FromIndex(j)) then None else Some(MonthStep(r, cards, p, FromIndex(j)))
  }

  /** The records after a walk, and the index of the last month it materialised. */
  datatype WalkResult = WalkResult(records: Records, done: Option<int>)

  /**
   * The catch-up loop over the months with indices `k` to `last`: a refused
   * month is skipped and leaves `done` alone, any other month is materialised
   * and becomes `done`.
   */
  function Walk(r: Records, visit: Visit, k: int, last: int, done: Option<int>): WalkResult
    decreases last - k + 1
  {
    if k > last then WalkResult(r, done)
    else
      match visit(r, k)
      case None => Walk(r, visit, k + 1, last, done)
      case Some(next) => Walk(next, visit, k + 1, last, Some(k))
  }

  /**
   * The index of the month before the first one the walk visits: the marker,
   * else the month the plan was created in, else the month before today's.
   */
  function StartIndex(p: Plan, today: Date): int
  {
    match p.lastProcessed
    case Some(ym) => MonthIndex(ym)
    case None =>
      match p.createdAt
      case Some(c) => MonthIndex(c)
      case None => MonthIndex(MonthOf(today)) - 1
  }

  /**
   * The index of the last month the walk visits: the current month once today
   * has reached the plan's day clamped to this month's length, else the month before.
   */
  function EndIndex(p: Plan, today: Date): (last: int)
    requires IsCalendarDate(today)
    ensures last == MonthIndex(MonthOf(today)) <==> today.day >= MinInt(p.day, DaysInMonth(today.year, today.month))
    ensures last == MonthIndex(MonthOf(today)) || last == MonthIndex(MonthOf(today)) - 1
  {
    var current := MonthIndex(MonthOf(today));
    if today.day < MinInt(p.day, DaysInMonth(today.year, today.month)) then current - 1 else current
  }

  /** A plan the engine leaves alone: paused, or not paid automatically. */
  predicate Idle(p: Plan)
  {
    !p.active || !p.autoPay
  }

  /**
   * The engine on one plan: the records after its walk and the plan with its
   * marker moved to the last month materialised, if any.
   */
  function ProcessPlan(r: Records, cards: seq<Card>, p: Plan, today: Date): (res: (Records, Plan))
    requires 1 <= p.day && IsCalendarDate(today)
    ensures res.1 == p.(lastProcessed := res.1.lastProcessed)
    ensures Idle(p) ==> res == (r, p)
  {
    if Idle(p) then (r, p)
    else
      var w := Walk(r, PlanVisit(cards, p), StartIndex(p, today) + 1, EndIndex(p, today), None);
      (w.records, Marked(p, w.done))
  }

  /** The plan after its walk: the marker moves to the last month materialised, if there is one. */
  function Marked(p: Plan, done: Option<int>): (q: Plan)
    ensures q == p.(lastProcessed := q.lastProcessed)
    ensures done.None? ==> q == p
    ensures done.Some? ==> q.lastProcessed.Some? && MonthIndex(q.lastProcessed.value) == done.value
  {
    match done
    case None => p
    case Some(j) => p.(lastProcessed := Some(FromIndex(j)))
  }

  /** What every plan of the engine needs: a day from 1 on and no negative amount. */
  predicate ValidPlan(p: Plan)
  {
    1 <= p.day && p.amount >= 0.0
  }

  /** checkRecurringTransactions: the plans in order, each seeing what the ones before it wrote. */
  function RunPlans(r: Records, cards: seq<Card>, plans: seq<Plan>, today: Date): (res: (Records, seq<Plan>))
    requires IsCalendarDate(today)
    requires forall i :: 0 <= i < |plans| ==> ValidPlan(plans[i])
    ensures |res.1| == |plans|
    ensures forall i :: 0 <= i < |plans| ==> res.1[i] == plans[i].(lastProcessed := res.1[i].lastProcessed)
    ensures forall i :: 0 <= i < |plans| ==> ValidPlan(res.1[i])
    decreases |plans|
  {
    if |plans| == 0 then (r, [])
    else
      var (mid, done) := RunPlans(r, cards, plans[..|plans| - 1], today);
      assert ValidPlan(plans[|plans| - 1]);
      var (next, p) := ProcessPlan(mid, cards, plans[|plans| - 1], today);
      (next, done + [p])
  }

  // ---------------------------------------------------------------------------
  // What one walk does to the records

  /**
   * One materialised month, month `j`: exactly one record is appended, under
   * the next fresh identifier and dated in month `j`.
   */
  predicate AppendsOne(r: Records, next: Records, j: int)
  {
    && |next.expenses| == |r.expenses| + 1 && next.expenses[..|r.expenses|] == r.expenses
    && next.expenses[|r.expenses|].id == r.nextId
    && ValidMonth(MonthOf(next.expenses[|r.expenses|].date))
    && MonthIndex(MonthOf(next.expenses[|r.expenses|].date)) == j
    && next.nextId == r.nextId + 1
  }

  /**
   * The books stay straight: the appended expenses are spends of no negative
   * amount, the wallet is only appended to, and the wallet plus the cash
   * expenses stay as they were.
   */
  predicate KeepsBooks(r: Records, next: Records)
  {
    && Extends(r.expenses, next.expenses)
    && |r.logs| <= |next.logs| && next.logs[..|r.logs|] == r.logs
    && Holdings(next.logs, next.expenses) == Holdings(r.logs, r.expenses)
  }

  ghost predicate Growing(visit: Visit)
  {
    forall r: Records, j: int :: visit(r, j).Some? ==> AppendsOne(r, visit(r, j).value, j)
  }

  ghost predicate Conserving(visit: Visit)
  {
    forall r: Records, j: int :: visit(r, j).Some? ==> KeepsBooks(r, visit(r, j).value)
  }

  /** Every record `visit` appends satisfies `shape`. */
  ghost predicate Shaped(visit: Visit, shape: Expense -> bool)
  {
    forall r: Records, j: int :: visit(r, j).Some? && |r.expenses| < |visit(r, j).value.expenses|
      ==> shape(visit(r, j).value.expenses[|r.expenses|])
  }

  /**
   * The engine's month appends one record for that month under a fresh
   * identifier, and a spend of no negative amount; its wallet withdrawal, when
   * there is one, matches the cash expense, so the books stay straight.
   */
  lemma PlanVisitAppends(cards: seq<Card>, p: Plan)
    requires ValidPlan(p)
    ensures Growing(PlanVisit(cards, p)) && Conserving(PlanVisit(cards, p))
  {
    forall r: Records, j: int | PlanVisit(cards, p)(r, j).Some?
      ensures AppendsOne(r, PlanVisit(cards, p)(r, j).value, j)
      ensures KeepsBooks(r, PlanVisit(cards, p)(r, j).value)
    {
      var ym := FromIndex(j);
      var e := MonthRecord(r, cards, p, ym);
      var next := MonthStep(r, cards, p, ym);
      TotalAppendOne(r.expenses, e, NonCredit());
      if !e.isCredit {
        BalanceAppend(r.logs, BalanceLog(r.nextId, "Otomatik Ödeme: " + p.name, -e.amount));
      }
      assert next.logs[..|r.logs|] == r.logs;
      assert Extends(r.expenses, next.expenses);
    }
  }

  /**
   * What the engine materialises for plan `p`: the plan's record, marked
   * recurring, a spend in the subscription category, charged the net amount
   * for its month, on the card when one matches, and dated on the plan's day
   * clamped to the length of its month.
   */
  predicate PlanRecord(e: Expense, cards: seq<Card>, p: Plan)
    requires 1 <= p.day
  {
    && e.planId == Some(p.id) && e.isRecurring && !e.isPayment
    && e.merchant == p.name && e.payMethod == p.payMethod && e.category == SubscriptionCategory
    && e.isCredit == PlanCard(cards, p).Some?
    && IsCalendarDate(e.date) && e.date.day == MinInt(p.day, DaysInMonth(e.date.year, e.date.month))
    && e.amount == NetAmount(p, MonthOf(e.date))
  }

  function PlanShape(cards: seq<Card>, p: Plan): Expense -> bool
    requires 1 <= p.day
  {
    (e: Expense) => PlanRecord(e, cards, p)
  }

  /** Every record the engine's month appends is the plan's record for that month. */
  lemma PlanVisitShaped(cards: seq<Card>, p: Plan)
    requires ValidPlan(p)
    ensures Shaped(PlanVisit(cards, p), PlanShape(cards, p))
  {
    forall r: Records, j: int | PlanVisit(cards, p)(r, j).Some? && |r.expenses| < |PlanVisit(cards, p)(r, j).value.expenses|
      ensures PlanShape(cards, p)(PlanVisit(cards, p)(r, j).value.expenses[|r.expenses|])
    {
      var ym := FromIndex(j);
      var e := MonthRecord(r, cards, p, ym);
      assert MonthStep(r, cards, p, ym).expenses[|r.expenses|] == e;
      assert PlanRecord(e, cards, p);
    }
  }

  /** A walk keeps what was there and uses one fresh identifier per appended record. */
  lemma {:induction false} WalkPrefix(r: Records, visit: Visit, k: int, last: int, done: Option<int>)
    requires Growing(visit)
    ensures var w := Walk(r, visit, k, last, done).records;
            && |r.expenses| <= |w.expenses| && w.expenses[..|r.expenses|] == r.expenses
            && w.nextId == r.nextId + (|w.expenses| - |r.expenses|)
    decreases last - k + 1
  {
    if k <= last {
      match visit(r, k)
      case None =>
        WalkPrefix(r, visit, k + 1, last, done);
      case Some(next) =>
        assert AppendsOne(r, next, k);
        WalkPrefix(next, visit, k + 1, last, Some(k));
        var w := Walk(next, visit, k + 1, last, Some(k)).records;
        assert w.expenses[..|r.expenses|] == w.expenses[..|next.expenses|][..|r.expenses|];
    }
  }

  /**
   * A walk only appends: the expenses grow by spends of no negative amount,
   * the wallet only grows, and the wallet plus the cash expenses stay as they were.
   */
  lemma {:induction false} WalkAppends(r: Records, visit: Visit, k: int, last: int, done: Option<int>)
    requires Conserving(visit)
    ensures KeepsBooks(r, Walk(r, visit, k, last, done).records)
    decreases last - k + 1
  {
    if k <= last {
      match visit(r, k)
      case None =>
        WalkAppends(r, visit, k + 1, last, done);
      case Some(next) =>
        assert KeepsBooks(r, next);
        WalkAppends(next, visit, k + 1, last, Some(k));
        var w := Walk(next, visit, k + 1, last, Some(k)).records;
        ExtendsTransitive(r.expenses, next.expenses, w.expenses);
        assert w.logs[..|r.logs|] == w.logs[..|next.logs|][..|r.logs|];
    } else {
      assert r.logs[..|r.logs|] == r.logs;
      assert r.expenses[..|r.expenses|] == r.expenses;
    }
  }

  /**
   * Where the walk stops: `done` is unchanged exactly when nothing was
   * materialised (and then the records are untouched too), otherwise it is a
   * month of the walk; and every month of the walk after the final `done` is
   * refused against the records as the walk left them.
   */
  lemma {:induction false} WalkMarker(r: Records, visit: Visit, k: int, last: int, done: Option<int>)
    requires Growing(visit)
    requires done.Some? ==> done.value < k
    ensures var w := Walk(r, visit, k, last, done);
            && (w.done == done <==> w.records == r)
            && (w.done != done ==> w.done.Some? && k <= w.done.value <= last)
            && (forall j :: k <= j <= last && (w.done != done ==> w.done.value < j)
                  ==> visit(w.records, j).None?)
    decreases last - k + 1
  {
    if k <= last {
      match visit(r, k)
      case None =>
        WalkMarker(r, visit, k + 1, last, done);
      case Some(next) =>
        assert AppendsOne(r, next, k);
        WalkMarker(next, visit, k + 1, last, Some(k));
        WalkPrefix(next, visit, k + 1, last, Some(k));
    }
  }

  /** A walk over months that are all refused changes nothing. */
  lemma {:induction false} WalkRefused(r: Records, visit: Visit, k: int, last: int, done: Option<int>)
    requires forall j :: k <= j <= last ==> visit(r, j).None?
    ensures Walk(r, visit, k, last, done) == WalkResult(r, done)
    decreases last - k + 1
  {
    if k <= last {
      WalkRefused(r, visit, k + 1, last, done);
    }
  }

  /** The records a walk appends carry consecutive fresh identifiers. */
  lemma {:induction false} WalkIds(r: Records, visit: Visit, k: int, last: int, done: Option<int>)
    requires Growing(visit)
    ensures var exps := Walk(r, visit, k, last, done).records.expenses;
            var n := |r.expenses|;
            && n <= |exps|
            && forall i :: n <= i < |exps| ==> exps[i].id == r.nextId + (i - n)
    decreases last - k + 1
  {
    if k <= last {
      match visit(r, k)
      case None =>
        WalkIds(r, visit, k + 1, last, done);
      case Some(next) =>
        var m := Some(k);
        assert AppendsOne(r, next, k);
        WalkIds(next, visit, k + 1, last, m);
        WalkPrefix(next, visit, k + 1, last, m);
        var w := Walk(next, visit, k + 1, last, m).records;
        assert w.expenses[..|next.expenses|][|r.expenses|] == next.expenses[|r.expenses|];
    }
  }

  /** The records a walk appends all have the visit's shape. */
  lemma {:induction false} WalkShapes(r: Records, visit: Visit, shape: Expense -> bool, k: int, last: int, done: Option<int>)
    requires Growing(visit) && Shaped(visit, shape)
    ensures var exps := Walk(r, visit, k, last, done).records.expenses;
            var n := |r.expenses|;
            && n <= |exps|
            && forall i :: n <= i < |exps| ==> shape(exps[i])
    decreases last - k + 1
  {
    if k <= last {
      match visit(r, k)
      case None =>
        WalkShapes(r, visit, shape, k + 1, last, done);
      case Some(next) =>
        assert AppendsOne(r, next, k);
        WalkShapes(next, visit, shape, k + 1, last, Some(k));
        WalkPrefix(next, visit, k + 1, last, Some(k));
        var w := Walk(next, visit, k + 1, last, Some(k)).records;
        assert w.expenses[..|next.expenses|][|r.expenses|] == next.expenses[|r.expenses|];
    }
  }

  /** Every record a walk appends lies in a month of the walk. */
  lemma {:induction false} WalkMonths(r: Records, visit: Visit, k: int, last: int, done: Option<int>)
    requires Growing(visit)
    ensures var n, exps := |r.expenses|, Walk(r, visit, k, last, done).records.expenses;
            && n <= |exps|
            && forall i :: n <= i < |exps| ==> MonthIndex(MonthOf(exps[i].date)) <= last
    ensures var n, exps := |r.expenses|, Walk(r, visit, k, last, done).records.expenses;
            forall i :: n <= i < |exps| ==> k <= MonthIndex(MonthOf(exps[i].date))
    decreases last - k + 1
  {
    if k <= last {
      match visit(r, k)
      case None =>
        WalkMonths(r, visit, k + 1, last, done);
      case Some(next) =>
        var m := Some(k);
        assert AppendsOne(r, next, k);
        WalkMonths(next, visit, k + 1, last, m);
        WalkPrefix(next, visit, k + 1, last, m);
        var exps := Walk(next, visit, k + 1, last, m).records.expenses;
        assert exps[..|next.expenses|][|r.expenses|] == next.expenses[|r.expenses|];
    }
  }

  /**
   * The marker moves to the month of the last record a walk appends, or stays
   * where it was when nothing was appended.
   */
  lemma {:induction false} WalkMarkerMonth(r: Records, visit: Visit, k: int, last: int, done: Option<int>)
    requires Growing(visit)
    ensures var w := Walk(r, visit, k, last, done);
            var n, exps := |r.expenses|, w.records.expenses;
            && n <= |exps|
            && (n < |exps| ==> w.done == Some(MonthIndex(MonthOf(exps[|exps| - 1].date))))
            && (n == |exps| ==> w.done == done)
    decreases last - k + 1
  {
    if k <= last {
      match visit(r, k)
      case None =>
        WalkMarkerMonth(r, visit, k + 1, last, done);
      case Some(next) =>
        assert AppendsOne(r, next, k);
        var e := next.expenses[|r.expenses|];
        WalkMarkerMonth(next, visit, k + 1, last, Some(k));
        WalkPrefix(next, visit, k + 1, last, Some(k));
    }
  }

  /** The months of the records a walk appends strictly increase: no month is materialised twice. */
  lemma {:induction false} WalkMonthsIncrease(r: Records, visit: Visit, k: int, last: int, done: Option<int>)
    requires Growing(visit)
    ensures var n, exps := |r.expenses|, Walk(r, visit, k, last, done).records.expenses;
            && n <= |exps|
            && forall i, j :: n <= i < j < |exps| ==>
                 MonthIndex(MonthOf(exps[i].date)) < MonthIndex(MonthOf(exps[j].date))
    decreases last - k + 1
  {
    if k <= last {
      match visit(r, k)
      case None =>
        WalkMonthsIncrease(r, visit, k + 1, last, done);
      case Some(next) =>
        assert AppendsOne(r, next, k);
        WalkMonthsIncrease(next, visit, k + 1, last, Some(k));
        WalkMonths(next, visit, k + 1, last, Some(k));
        WalkPrefix(next, visit, k + 1, last, Some(k));
        var exps := Walk(next, visit, k + 1, last, Some(k)).records.expenses;
        assert exps[..|next.expenses|][|r.expenses|] == next.expenses[|r.expenses|];
    }
  }

  /** A month refused for lack of limit stays refused once more spends are recorded. */
  lemma RefusalStays(a: Records, b: Records, cards: seq<Card>, p: Plan, j: int)
    requires 1 <= p.day && Extends(a.expenses, b.expenses)
    requires PlanVisit(cards, p)(a, j).None?
    ensures PlanVisit(cards, p)(b, j).None?
  {
    var c := PlanCard(cards, p).value;
    ExtendsDebt(a.expenses, b.expenses, Strict, c.name);
  }

  /** Whether a month is refused does not depend on the plan's marker. */
  lemma MarkerIrrelevant(r: Records, cards: seq<Card>, p: Plan, m: Option<YearMonth>, j: int)
    requires 1 <= p.day
    ensures PlanVisit(cards, p.(lastProcessed := m))(r, j).None? == PlanVisit(cards, p)(r, j).None?
  {
    var p2 := p.(lastProcessed := m);
    assert NetAmount(p2, FromIndex(j)) == NetAmount(p, FromIndex(j));
    assert PlanCard(cards, p2) == PlanCard(cards, p);
  }

  // ---------------------------------------------------------------------------
  // The engine over all plans

  /** Nothing is left for the engine to do for `p`: every month it would visit is refused. */
  predicate Settled(r: Records, cards: seq<Card>, p: Plan, today: Date)
    requires ValidPlan(p) && IsCalendarDate(today)
  {
    Idle(p) || forall j :: StartIndex(p, today) + 1 <= j <= EndIndex(p, today) ==> PlanVisit(cards, p)(r, j).None?
  }

  /**
   * Processing a plan only appends records, changes no field of the plan but
   * its marker, keeps the wallet plus the cash expenses, and leaves the plan
   * settled against the records it produced.
   */
  lemma ProcessPlanSettles(r: Records, cards: seq<Card>, p: Plan, today: Date)
    requires ValidPlan(p) && IsCalendarDate(today)
    ensures var (r2, p2) := ProcessPlan(r, cards, p, today);
            && Extends(r.expenses, r2.expenses)
            && |r.logs| <= |r2.logs| && r2.logs[..|r.logs|] == r.logs
            && Holdings(r2.logs, r2.expenses) == Holdings(r.logs, r.expenses)
            && ValidPlan(p2) && Settled(r2, cards, p2, today)
  {
    if !Idle(p) {
      var visit := PlanVisit(cards, p);
      var k, last := StartIndex(p, today) + 1, EndIndex(p, today);
      var w := Walk(r, visit, k, last, None);
      PlanVisitAppends(cards, p);
      WalkAppends(r, visit, k, last, None);
      WalkPrefix(r, visit, k, last, None);
      WalkMarker(r, visit, k, last, None);
      var p2 := ProcessPlan(r, cards, p, today).1;
      forall j | StartIndex(p2, today) + 1 <= j <= EndIndex(p2, today)
        ensures PlanVisit(cards, p2)(w.records, j).None?
      {
        MarkerIrrelevant(w.records, cards, p, p2.lastProcessed, j);
      }
      if w.done.Some? {
        assert StartIndex(p2, today) == w.done.value;
      } else {
        assert p2 == p;
      }
      assert EndIndex(p2, today) == last;
    } else {
      assert r.logs[..|r.logs|] == r.logs;
    }
  }

  /** A settled plan is left exactly as it is, and so are the records. */
  lemma ProcessSettled(r: Records, cards: seq<Card>, p: Plan, today: Date)
    requires ValidPlan(p) && IsCalendarDate(today) && Settled(r, cards, p, today)
    ensures ProcessPlan(r, cards, p, today) == (r, p)
  {
    if !Idle(p) {
      WalkRefused(r, PlanVisit(cards, p), StartIndex(p, today) + 1, EndIndex(p, today), None);
    }
  }

  /** Settledness survives more spends being recorded. */
  lemma SettledStays(a: Records, b: Records, cards: seq<Card>, p: Plan, today: Date)
    requires ValidPlan(p) && IsCalendarDate(today) && Extends(a.expenses, b.expenses)
    requires Settled(a, cards, p, today)
    ensures Settled(b, cards, p, today)
  {
    if !Idle(p) {
      forall j | StartIndex(p, today) + 1 <= j <= EndIndex(p, today)
        ensures PlanVisit(cards, p)(b, j).None?
      {
        RefusalStays(a, b, cards, p, j);
      }
    }
  }

  /**
   * One run of the engine only appends: the expenses grow by spends of no
   * negative amount, the wallet only grows, and the wallet plus the cash
   * expenses stay as they were.
   */
  lemma {:induction false} RunPlansAppends(r: Records, cards: seq<Card>, plans: seq<Plan>, today: Date)
    requires IsCalendarDate(today)
    requires forall i :: 0 <= i < |plans| ==> ValidPlan(plans[i])
    ensures var r2 := RunPlans(r, cards, plans, today).0;
            && Extends(r.expenses, r2.expenses)
            && |r.logs| <= |r2.logs| && r2.logs[..|r.logs|] == r.logs
            && Holdings(r2.logs, r2.expenses) == Holdings(r.logs, r.expenses)
    decreases |plans|
  {
    if |plans| == 0 {
      assert r.logs[..|r.logs|] == r.logs;
    } else {
      var init, last := plans[..|plans| - 1], plans[|plans| - 1];
      RunPlansAppends(r, cards, init, today);
      var mid := RunPlans(r, cards, init, today).0;
      ProcessPlanSettles(mid, cards, last, today);
      var r2 := ProcessPlan(mid, cards, last, today).0;
      ExtendsTransitive(r.expenses, mid.expenses, r2.expenses);
      assert r2.logs[..|r.logs|] == r2.logs[..|mid.logs|][..|r.logs|];
    }
  }

  /**
   * Processing a plan appends records under consecutive fresh identifiers
   * and moves the identifier counter past them.
   */
  lemma ProcessPlanIds(r: Records, cards: seq<Card>, p: Plan, today: Date)
    requires ValidPlan(p) && IsCalendarDate(today)
    ensures var r2 := ProcessPlan(r, cards, p, today).0;
            && |r.expenses| <= |r2.expenses| && r2.expenses[..|r.expenses|] == r.expenses
            && r2.nextId == r.nextId + (|r2.expenses| - |r.expenses|)
            && forall i :: |r.expenses| <= i < |r2.expenses| ==> r2.expenses[i].id == r.nextId + (i - |r.expenses|)
  {
    if !Idle(p) {
      var visit := PlanVisit(cards, p);
      var k, last := StartIndex(p, today) + 1, EndIndex(p, today);
      PlanVisitAppends(cards, p);
      WalkPrefix(r, visit, k, last, None);
      WalkIds(r, visit, k, last, None);
    } else {
      assert r.expenses[..|r.expenses|] == r.expenses;
    }
  }

  /**
   * One run of the engine appends records under consecutive fresh
   * identifiers and moves the identifier counter past them.
   */
  lemma {:induction false} RunPlansIds(r: Records, cards: seq<Card>, plans: seq<Plan>, today: Date)
    requires IsCalendarDate(today)
    requires forall i :: 0 <= i < |plans| ==> ValidPlan(plans[i])
    ensures var r2 := RunPlans(r, cards, plans, today).0;
            && |r.expenses| <= |r2.expenses| && r2.expenses[..|r.expenses|] == r.expenses
            && r2.nextId == r.nextId + (|r2.expenses| - |r.expenses|)
            && forall i :: |r.expenses| <= i < |r2.expenses| ==> r2.expenses[i].id == r.nextId + (i - |r.expenses|)
    decreases |plans|
  {
    if |plans| == 0 {
      assert r.expenses[..|r.expenses|] == r.expenses;
    } else {
      var init, last := plans[..|plans| - 1], plans[|plans| - 1];
      assert init + [last] == plans;
      RunPlansIds(r, cards, init, today);
      var mid := RunPlans(r, cards, init, today).0;
      ProcessPlanIds(mid, cards, last, today);
      RunPlansLast(r, cards, init, last, today);
      var r2 := ProcessPlan(mid, cards, last, today).0;
      assert r2.expenses[..|r.expenses|] == r2.expenses[..|mid.expenses|][..|r.expenses|];
      forall i | |r.expenses| <= i < |r2.expenses|
        ensures r2.expenses[i].id == r.nextId + (i - |r.expenses|)
      {
        if i < |mid.expenses| {
          assert r2.expenses[i] == r2.expenses[..|mid.expenses|][i];
        }
      }
    }
  }

  /** Every plan is settled against `r`. */
  predicate AllSettled(r: Records, cards: seq<Card>, plans: seq<Plan>, today: Date)
    requires IsCalendarDate(today)
    requires forall i :: 0 <= i < |plans| ==> ValidPlan(plans[i])
  {
    forall i :: 0 <= i < |plans| ==> Settled(r, cards, plans[i], today)
  }

  /** After one run of the engine every plan is settled against the records the run produced. */
  lemma {:induction false} RunPlansSettles(r: Records, cards: seq<Card>, plans: seq<Plan>, today: Date)
    requires IsCalendarDate(today)
    requires forall i :: 0 <= i < |plans| ==> ValidPlan(plans[i])
    ensures AllSettled(RunPlans(r, cards, plans, today).0, cards, RunPlans(r, cards, plans, today).1, today)
    decreases |plans|
  {
    if |plans| > 0 {
      var init, last := plans[..|plans| - 1], plans[|plans| - 1];
      RunPlansSettles(r, cards, init, today);
      var mid, done := RunPlans(r, cards, init, today).0, RunPlans(r, cards, init, today).1;
      ProcessPlanSettles(mid, cards, last, today);
      var r2 := ProcessPlan(mid, cards, last, today).0;
      forall i | 0 <= i < |done| ensures Settled(r2, cards, done[i], today) {
        SettledStays(mid, r2, cards, done[i], today);
      }
    }
  }

  /** One more plan: the engine processes it against what the plans before it left. */
  lemma RunPlansLast(r: Records, cards: seq<Card>, init: seq<Plan>, last: Plan, today: Date)
    requires IsCalendarDate(today) && ValidPlan(last)
    requires forall i :: 0 <= i < |init| ==> ValidPlan(init[i])
    ensures var before := RunPlans(r, cards, init, today);
            var step := ProcessPlan(before.0, cards, last, today);
            RunPlans(r, cards, init + [last], today) == (step.0, before.1 + [step.1])
  {
    assert (init + [last])[..|init|] == init;
  }

  /** Settled plans stay settled when the last one is set aside. */
  lemma AllSettledSplit(r: Records, cards: seq<Card>, init: seq<Plan>, last: Plan, today: Date)
    requires IsCalendarDate(today) && ValidPlan(last)
    requires forall i :: 0 <= i < |init| ==> ValidPlan(init[i])
    requires AllSettled(r, cards, init + [last], today)
    ensures AllSettled(r, cards, init, today) && Settled(r, cards, last, today)
  {
    assert (init + [last])[|init|] == last;
    forall i | 0 <= i < |init| ensures Settled(r, cards, init[i], today) {
      assert (init + [last])[i] == init[i];
    }
  }

  /** With every plan settled, the engine changes nothing. */
  lemma {:induction false} RunSettled(r: Records, cards: seq<Card>, plans: seq<Plan>, today: Date)
    requires IsCalendarDate(today)
    requires forall i :: 0 <= i < |plans| ==> ValidPlan(plans[i])
    requires AllSettled(r, cards, plans, today)
    ensures RunPlans(r, cards, plans, today) == (r, plans)
    decreases |plans|
  {
    if |plans| > 0 {
      var init, last := plans[..|plans| - 1], plans[|plans| - 1];
      assert init + [last] == plans;
      AllSettledSplit(r, cards, init, last, today);
      RunSettled(r, cards, init, today);
      ProcessSettled(r, cards, last, today);
      RunPlansLast(r, cards, init, last, today);
    }
  }

  /** A second run on the same day, with nothing else changed, adds nothing and moves no marker. */
  lemma RunPlansIdempotent(r: Records, cards: seq<Card>, plans: seq<Plan>, today: Date)
    requires IsCalendarDate(today)
    requires forall i :: 0 <= i < |plans| ==> ValidPlan(plans[i])
    ensures var res := RunPlans(r, cards, plans, today);
            RunPlans(res.0, cards, res.1, today) == res
  {
    RunPlansSettles(r, cards, plans, today);
    var res := RunPlans(r, cards, plans, today);
    RunSettled(res.0, cards, res.1, today);
  }

  // ---------------------------------------------------------------------------
  // Monthly income

  /**
   * An income is credited today when it is active, has not been credited this
   * month, and today has reached its day. The day is not clamped to the
   * length of the month.
   */
  predicate IncomeDue(inc: Income, today: Date)
  {
    inc.active && inc.lastProcessed != Some(MonthOf(today)) && today.day >= inc.day
  }

  /** The wallet entry an income credit writes. */
  function IncomeLog(inc: Income, id: nat): BalanceLog
  {
    BalanceLog(id, "Düzenli Gelir: " + inc.name, inc.amount)
  }

  datatype IncomeRun = IncomeRun(logs: seq<BalanceLog>, nextId: nat, incomes: seq<Income>)

  /**
   * checkRecurringIncome: the incomes in order, each one due today appending
   * its credit to the wallet and taking this month as its marker.
   */
  function RunIncome(logs: seq<BalanceLog>, nextId: nat, incomes: seq<Income>, today: Date): (res: IncomeRun)
    ensures |res.incomes| == |incomes|
    ensures forall i :: 0 <= i < |incomes| ==>
              res.incomes[i] == incomes[i].(lastProcessed := res.incomes[i].lastProcessed)
    ensures forall i :: 0 <= i < |incomes| && IncomeDue(incomes[i], today) ==>
              res.incomes[i].lastProcessed == Some(MonthOf(today))
    ensures forall i :: 0 <= i < |incomes| && !IncomeDue(incomes[i], today) ==>
              res.incomes[i] == incomes[i]
    decreases |incomes|
  {
    if |incomes| == 0 then IncomeRun(logs, nextId, [])
    else
      var prev := RunIncome(logs, nextId, incomes[..|incomes| - 1], today);
      var inc := incomes[|incomes| - 1];
      if IncomeDue(inc, today) then
        IncomeRun(prev.logs + [IncomeLog(inc, prev.nextId)], prev.nextId + 1,
                  prev.incomes + [inc.(lastProcessed := Some(MonthOf(today)))])
      else IncomeRun(prev.logs, prev.nextId, prev.incomes + [inc])
  }

  /** What the incomes due today add up to. */
  function DueTotal(incomes: seq<Income>, today: Date): real
    decreases |incomes|
  {
    if |incomes| == 0 then 0.0
    else
      var inc := incomes[|incomes| - 1];
      DueTotal(incomes[..|incomes| - 1], today) + (if IncomeDue(inc, today) then inc.amount else 0.0)
  }

  /** How many incomes are due today. */
  function DueCount(incomes: seq<Income>, today: Date): nat
    decreases |incomes|
  {
    if |incomes| == 0 then 0
    else DueCount(incomes[..|incomes| - 1], today) + (if IncomeDue(incomes[|incomes| - 1], today) then 1 else 0)
  }

  /**
   * The income run only appends to the wallet, one entry and one fresh
   * identifier per income due, and the balance rises by exactly the amounts due.
   */
  lemma {:induction false} RunIncomeBalance(logs: seq<BalanceLog>, nextId: nat, incomes: seq<Income>, today: Date)
    ensures var res := RunIncome(logs, nextId, incomes, today);
            && |res.logs| == |logs| + DueCount(incomes, today)
            && res.logs[..|logs|] == logs
            && res.nextId == nextId + DueCount(incomes, today)
            && Balance(res.logs) == Balance(logs) + DueTotal(incomes, today)
    decreases |incomes|
  {
    if |incomes| == 0 {
      assert logs[..|logs|] == logs;
    } else {
      var init, inc := incomes[..|incomes| - 1], incomes[|incomes| - 1];
      RunIncomeBalance(logs, nextId, init, today);
      var prev := RunIncome(logs, nextId, init, today);
      if IncomeDue(inc, today) {
        BalanceAppend(prev.logs, IncomeLog(inc, prev.nextId));
        assert (prev.logs + [IncomeLog(inc, prev.nextId)])[..|logs|] == prev.logs[..|logs|];
      }
    }
  }

  /**
   * At most once a month: an income credited today is not due again on any
   * day of the same month.
   */
  lemma RunIncomeOncePerMonth(logs: seq<BalanceLog>, nextId: nat, incomes: seq<Income>, today: Date, later: Date, i: int)
    requires 0 <= i < |incomes| && IncomeDue(incomes[i], today)
    requires MonthOf(later) == MonthOf(today)
    ensures !IncomeDue(RunIncome(logs, nextId, incomes, today).incomes[i], later)
  {
  }

  /** With nothing due, the income run changes nothing. */
  lemma {:induction false} RunIncomeNothingDue(logs: seq<BalanceLog>, nextId: nat, incomes: seq<Income>, today: Date)
    requires forall i :: 0 <= i < |incomes| ==> !IncomeDue(incomes[i], today)
    ensures RunIncome(logs, nextId, incomes, today) == IncomeRun(logs, nextId, incomes)
    decreases |incomes|
  {
    if |incomes| > 0 {
      var init := incomes[..|incomes| - 1];
      RunIncomeNothingDue(logs, nextId, init, today);
      assert init + [incomes[|incomes| - 1]] == incomes;
    }
  }

  /** A second income run on the same day credits nothing more. */
  lemma RunIncomeIdempotent(logs: seq<BalanceLog>, nextId: nat, incomes: seq<Income>, today: Date)
    ensures var res := RunIncome(logs, nextId, incomes, today);
            RunIncome(res.logs, res.nextId, res.incomes, today) == res
  {
    var res := RunIncome(logs, nextId, incomes, today);
    RunIncomeNothingDue(res.logs, res.nextId, res.incomes, today);
  }

  /**
   * An income whose day lies past the end of the current month is never due
   * this month: an income on the 31st is skipped in every 30-day month.
   */
  lemma IncomeDayPastMonthEnd(inc: Income, today: Date)
    requires IsCalendarDate(today) && inc.day > DaysInMonth(today.year, today.month)
    ensures !IncomeDue(inc, today)
  {
  }

  /** For instance, an income on the 31st is not credited on 30 April 2026. */
  lemma IncomeOn31stSkipsApril(inc: Income)
    requires inc.day == 31
    ensures !IncomeDue(inc, Date(2026, 4, 30))
  {
  }

  // ---------------------------------------------------------------------------
  // Adding, editing, pausing and deleting plans

  /** The plan form: the day is parsed as an integer, the amount is in kuruş. */
  datatype PlanForm = PlanForm(
    name: string, amount: int, day: int, payMethod: string, autoPay: bool,
    cashbackType: CashbackType, cashbackValue: real, campaignEnd: Option<Date>)

  /**
   * The limit check run before anything else: when a card's name equals the
   * form's method after trimming and lower-casing, the amount may not exceed
   * what is left of its limit, the debt summed over the records whose method
   * is exactly the card's name.
   */
  predicate PlanLimitAdmitted(cards: seq<Card>, exps: seq<Expense>, f: PlanForm)
  {
    match FindCard(cards, Normalised, f.payMethod)
    case None => true
    case Some(c) => f.amount as real <= Remaining(c, exps, Strict)
  }

  /** The field check: a name that is not blank, a positive amount, a day from 1 to 31. */
  predicate PlanFieldsValid(f: PlanForm)
  {
    Trim(f.name) != [] && f.amount > 0 && 1 <= f.day <= 31
  }

  /**
   * The marker a new plan starts with: this month when its day has already
   * passed, so that the engine starts next month, otherwise none.
   */
  function InitialMarker(day: int, today: Date): Option<YearMonth>
  {
    if day < today.day then Some(MonthOf(today)) else None
  }

  /** The plan the add path stores: active, with its initial marker and no creation month. */
  function NewPlan(id: nat, f: PlanForm, today: Date): (p: Plan)
    requires PlanFieldsValid(f)
    ensures ValidPlan(p) && p.active && p.id == id && p.createdAt.None?
  {
    Plan(id, Trim(f.name), f.amount as real, f.day, f.payMethod, f.autoPay, true,
         f.cashbackType, f.cashbackValue, f.campaignEnd, InitialMarker(f.day, today), None)
  }

  /**
   * A new plan is never charged for a month before the current one, and is
   * charged for the current month exactly when its day has not passed yet
   * and, once today reaches the day, the card has the limit.
   */
  lemma NewPlanStartsNow(id: nat, f: PlanForm, today: Date)
    requires PlanFieldsValid(f) && IsCalendarDate(today)
    ensures var p := NewPlan(id, f, today);
            && StartIndex(p, today) + 1 >= MonthIndex(MonthOf(today))
            && (f.day < today.day ==> StartIndex(p, today) == MonthIndex(MonthOf(today)))
            && (f.day >= today.day ==> StartIndex(p, today) + 1 == MonthIndex(MonthOf(today)))
  {
  }

  /** A plan with its day already passed is left alone by the engine this month. */
  lemma NewPlanPastDayIdle(r: Records, cards: seq<Card>, id: nat, f: PlanForm, today: Date)
    requires PlanFieldsValid(f) && IsCalendarDate(today) && f.day < today.day
    ensures var p := NewPlan(id, f, today);
            ProcessPlan(r, cards, p, today) == (r, p)
  {
    var p := NewPlan(id, f, today);
    WalkRefused(r, PlanVisit(cards, p), StartIndex(p, today) + 1, EndIndex(p, today), None);
  }

  /** The edit path: every form field overwritten, the identifier, state and markers kept. */
  function EditedPlan(prev: Plan, f: PlanForm): (p: Plan)
    requires PlanFieldsValid(f)
    ensures ValidPlan(p) && p.id == prev.id && p.active == prev.active
    ensures p.lastProcessed == prev.lastProcessed && p.createdAt == prev.createdAt
  {
    prev.(name := Trim(f.name), amount := f.amount as real, day := f.day, payMethod := f.payMethod,
         autoPay := f.autoPay, cashbackType := f.cashbackType, cashbackValue := f.cashbackValue,
         campaignEnd := f.campaignEnd)
  }

  /**
   * The edit path's campaign test: the campaign still runs while today is
   * before its end date. The end date string parses as midnight UTC, which
   * is 03:00 in Turkey, so on the end day itself the campaign has ended.
   */
  predicate EditCampaignActive(p: Plan, today: Date)
  {
    match p.campaignEnd
    case None => true
    case Some(end) => DateLt(today, end)
  }

  /** What the edit path charges for this month, floored at zero. */
  function EditNet(p: Plan, today: Date): (r: real)
    ensures r >= 0.0
    ensures p.amount >= 0.0 && p.cashbackValue >= 0.0 ==> r <= p.amount
    ensures !EditCampaignActive(p, today) ==> r == MaxReal(0.0, p.amount)
    ensures p.cashbackType.NoCashback? ==> r == MaxReal(0.0, p.amount)
  {
    assert p.amount >= 0.0 && p.cashbackValue >= 0.0 ==> p.amount * (p.cashbackValue / 100.0) >= 0.0;
    MaxReal(0.0, if EditCampaignActive(p, today) then Discounted(p.amount, p.cashbackType, p.cashbackValue) else p.amount)
  }

  /**
   * The engine and the edit path disagree on the campaign's last day: a plan
   * due on the day its campaign ends is charged the discounted amount by the
   * engine and the full amount by an edit made that day.
   */
  lemma CampaignEndDayDisagreement(p: Plan, today: Date)
    requires IsCalendarDate(today) && 1 <= p.day == today.day
    requires p.campaignEnd == Some(today)
    requires p.amount == 10000.0 && p.cashbackType == Percent && p.cashbackValue == 10.0
    ensures NetAmount(p, MonthOf(today)) == 9000.0
    ensures EditNet(p, today) == 10000.0
  {
    var ym := MonthOf(today);
    FromIndexOfMonthIndex(ym);
    assert OverflowDate(ym.year, ym.month - 1, p.day) == today;
  }

  /** The index of the first record of plan `id` dated in month `ym` (`findIndex`). */
  function FirstOfPlanInMonth(exps: seq<Expense>, id: nat, ym: YearMonth): (k: Option<nat>)
    ensures k.Some? ==> k.value < |exps| && OfPlanInMonth(id, ym)(exps[k.value])
                        && forall j :: 0 <= j < k.value ==> !OfPlanInMonth(id, ym)(exps[j])
    ensures k.None? <==> forall j :: 0 <= j < |exps| ==> !OfPlanInMonth(id, ym)(exps[j])
    decreases |exps|
  {
    if |exps| == 0 then None
    else if OfPlanInMonth(id, ym)(exps[0]) then Some(0)
    else
      match FirstOfPlanInMonth(exps[1..], id, ym)
      case None => None
      case Some(k) => Some(k + 1)
  }

  /**
   * This month's record rewritten by the edit path: the new name, the edit
   * path's charge, the matched card's name (or the plan's method) and flag,
   * and the plan's day written into the current month without clamping.
   */
  function EditedRecord(e: Expense, cards: seq<Card>, p: Plan, today: Date): (e2: Expense)
    ensures e2.id == e.id && e2.planId == e.planId && e2.isPayment == e.isPayment
    ensures e2.category == e.category && e2.isRecurring == e.isRecurring
    ensures e2.amount == EditNet(p, today) && e2.merchant == p.name
    ensures e2.isCredit <==> PlanCard(cards, p).Some?
    ensures e2.date.year == today.year && e2.date.month == today.month && e2.date.day == p.day
  {
    var card := PlanCard(cards, p);
    e.(merchant := p.name, amount := EditNet(p, today),
       payMethod := if card.Some? then card.value.name else p.payMethod,
       isCredit := card.Some?, date := Date(today.year, today.month, p.day))
  }

  /**
   * Unlike the engine, the edit path does not clamp the day: a plan moved to
   * the 31st and edited in April gets a record dated 31 April, which is no
   * calendar date, where the engine would have written 30 April.
   */
  lemma EditedDateUnclamped(e: Expense, cards: seq<Card>, p: Plan, today: Date)
    requires p.day == 31 && today == Date(2026, 4, 10)
    ensures !IsCalendarDate(EditedRecord(e, cards, p, today).date)
    ensures ClampedDate(today.year, today.month - 1, p.day) == Date(2026, 4, 30)
  {
    assert (2026 * 12 + 3) / 12 == 2026 && (2026 * 12 + 3) % 12 == 3;
  }

  /** The position of the first plan with identifier `id` (`findIndex`). */
  function PlanIndex(plans: seq<Plan>, id: nat): (k: Option<nat>)
    ensures k.Some? ==> k.value < |plans| && plans[k.value].id == id
                        && forall j :: 0 <= j < k.value ==> plans[j].id != id
    ensures k.None? <==> forall j :: 0 <= j < |plans| ==> plans[j].id != id
    decreases |plans|
  {
    if |plans| == 0 then None
    else if plans[0].id == id then Some(0)
    else
      match PlanIndex(plans[1..], id)
      case None => None
      case Some(k) => Some(k + 1)
  }

  /** The plans that survive deleting plan `id`, in their order. */
  function PlansWithout(plans: seq<Plan>, id: nat): (r: seq<Plan>)
    ensures |r| <= |plans|
    ensures forall p :: p in r <==> p in plans && p.id != id
    ensures forall i :: 0 <= i < |r| ==> r[i] in plans
    decreases |plans|
  {
    if |plans| == 0 then []
    else
      var init, p := PlansWithout(plans[..|plans| - 1], id), plans[|plans| - 1];
      assert forall x :: x in plans <==> x in plans[..|plans| - 1] || x == p;
      if p.id == id then init else init + [p]
  }

  /** Removing the records plan `id` materialised in month `ym`, as pause and delete do. */
  function DropPlanMonth(exps: seq<Expense>, id: nat, ym: YearMonth): (r: seq<Expense>)
    ensures forall e :: e in r <==> e in exps && !OfPlanInMonth(id, ym)(e)
  {
    Drop(exps, OfPlanInMonth(id, ym))
  }

  /**
   * Pause and delete refund nothing: the wallet keeps its withdrawals, so
   * the wallet plus the cash expenses falls by the cash records removed.
   */
  lemma DropPlanMonthHoldings(logs: seq<BalanceLog>, exps: seq<Expense>, id: nat, ym: YearMonth)
    ensures Holdings(logs, DropPlanMonth(exps, id, ym))
            == Holdings(logs, exps) - Total(exps, Both(OfPlanInMonth(id, ym), NonCredit()))
  {
    TotalDrop(exps, OfPlanInMonth(id, ym), NonCredit());
  }

  /**
   * Pausing and resuming a plan in the month it was charged loses that
   * month: pausing removes the month's record, and on resume the marker still
   * names the current month, so the engine does not charge it again.
   */
  lemma PauseResumeLosesMonth(r: Records, cards: seq<Card>, p: Plan, today: Date)
    requires ValidPlan(p) && IsCalendarDate(today) && p.lastProcessed == Some(MonthOf(today))
    ensures var r2 := r.(expenses := DropPlanMonth(r.expenses, p.id, MonthOf(today)));
            && (forall e :: e in r2.expenses ==> !OfPlanInMonth(p.id, MonthOf(today))(e))
            && ProcessPlan(r2, cards, p.(active := true), today) == (r2, p.(active := true))
  {
    var r2 := r.(expenses := DropPlanMonth(r.expenses, p.id, MonthOf(today)));
    var q := p.(active := true);
    WalkRefused(r2, PlanVisit(cards, q), StartIndex(q, today) + 1, EndIndex(q, today), None);
  }
}
