/**
 * The ledger's mutable state and the operations that change it: the expense
 * form and its edit and delete, card purchases, payments, renames and
 * deletes, manual wallet entries, asset trades, the recurring-plan page, the
 * two monthly engines and the kuruş conversion. Each operation is proved
 * against the functions that specify it.
 */
module Ledger {
  import opened Common
  import opened Calendar
  import opened Names
  import opened Entities
  import opened Books
  import opened Cards
  import opened Recurring
  import opened Migration
  import opened Wallet
  import DateText

  /** Everything the ledger keeps, as one value. */
  datatype Snapshot = Snapshot(
    expenses: seq<Expense>,
    cards: seq<Card>,
    balanceLogs: seq<BalanceLog>,
    recurringPlans: seq<Plan>,
    recurringIncome: seq<Income>,
    assets: seq<AssetTrade>,
    methods: seq<string>,
    categories: seq<string>,
    dataVersion: int,
    nextId: nat)

  /**
   * What every operation keeps: expense identifiers are unique and below the
   * next fresh one, and every plan has a day from 1 on and no negative amount.
   */
  predicate Consistent(s: Snapshot)
  {
    && UniqueIds(s.expenses) && IdsBelow(s.expenses, s.nextId)
    && forall i :: 0 <= i < |s.recurringPlans| ==> ValidPlan(s.recurringPlans[i])
  }

  /** checkRecurringTransactions on the whole ledger: only the records, the wallet and the plan markers change. */
  function RunEngine(s: Snapshot, today: Date): (s2: Snapshot)
    requires IsCalendarDate(today) && Consistent(s)
    ensures Consistent(s2)
    ensures s2 == s.(expenses := s2.expenses, balanceLogs := s2.balanceLogs, nextId := s2.nextId,
                     recurringPlans := s2.recurringPlans)
    ensures Extends(s.expenses, s2.expenses)
    ensures Holdings(s2.balanceLogs, s2.expenses) == Holdings(s.balanceLogs, s.expenses)
  {
    var res := RunPlans(Records(s.expenses, s.balanceLogs, s.nextId), s.cards, s.recurringPlans, today);
    RunPlansIds(Records(s.expenses, s.balanceLogs, s.nextId), s.cards, s.recurringPlans, today);
    RunPlansAppends(Records(s.expenses, s.balanceLogs, s.nextId), s.cards, s.recurringPlans, today);
    AppendFresh(s.expenses, res.0.expenses, s.nextId, res.0.nextId);
    s.(expenses := res.0.expenses, balanceLogs := res.0.logs, nextId := res.0.nextId, recurringPlans := res.1)
  }

  /** Running the engine twice on the same day does no more than running it once. */
  lemma RunEngineIdempotent(s: Snapshot, today: Date)
    requires IsCalendarDate(today) && Consistent(s)
    ensures RunEngine(RunEngine(s, today), today) == RunEngine(s, today)
  {
    RunPlansIdempotent(Records(s.expenses, s.balanceLogs, s.nextId), s.cards, s.recurringPlans, today);
  }

  /**
   * The month-by-month catch-up loop of one plan, over the months with
   * indices `k0` to `last`: a month the card's limit allows is materialised
   * and becomes the last one done, any other month is skipped.
   */
  method CatchUp(r0: Records, cards: seq<Card>, p: Plan, k0: int, last: int) returns (w: WalkResult)
    requires ValidPlan(p)
    ensures w == Walk(r0, PlanVisit(cards, p), k0, last, None)
  {
    ghost var visit := PlanVisit(cards, p);
    var r, k, done := r0, k0, None;
    while k <= last
      invariant Walk(r, visit, k, last, done) == Walk(r0, visit, k0, last, None)
      decreases last - k
    {
      var ym := FromIndex(k);
      assert visit(r, k) == if Blocked(r, cards, p, ym) then None else Some(MonthStep(r, cards, p, ym));
      if !Blocked(r, cards, p, ym) {
        var e := MonthRecord(r, cards, p, ym);
        var logs := if e.isCredit then r.logs else r.logs + [BalanceLog(r.nextId, "Otomatik Ödeme: " + p.name, -e.amount)];
        r := Records(r.expenses + [e], logs, r.nextId + 1);
        done := Some(k);
      }
      k := k + 1;
    }
    w := WalkResult(r, done);
  }

  /** One plan: an active auto-pay plan is caught up and its marker moved to the last month materialised. */
  method CatchUpPlan(r: Records, cards: seq<Card>, p: Plan, today: Date) returns (r2: Records, p2: Plan)
    requires ValidPlan(p) && IsCalendarDate(today)
    ensures (r2, p2) == ProcessPlan(r, cards, p, today)
  {
    r2, p2 := r, p;
    if !Idle(p) {
      var w := CatchUp(r, cards, p, StartIndex(p, today) + 1, EndIndex(p, today));
      r2, p2 := w.records, Marked(p, w.done);
    }
  }

  /** The `forEach` over the plans: each plan in order, seeing what the ones before it wrote. */
  method RunAllPlans(r0: Records, cards: seq<Card>, plans0: seq<Plan>, today: Date) returns (r: Records, plans: seq<Plan>)
    requires IsCalendarDate(today) && forall j :: 0 <= j < |plans0| ==> ValidPlan(plans0[j])
    ensures (r, plans) == RunPlans(r0, cards, plans0, today)
  {
    r, plans := r0, [];
    for i := 0 to |plans0|
      invariant (r, plans) == RunPlans(r0, cards, plans0[..i], today)
    {
      var next, p := CatchUpPlan(r, cards, plans0[i], today);
      RunPlansLast(r0, cards, plans0[..i], plans0[i], today);
      assert plans0[..i + 1] == plans0[..i] + [plans0[i]];
      r, plans := next, plans + [p];
    }
    assert plans0[..|plans0|] == plans0;
  }

  /** The installment loop: one record per part, under consecutive fresh identifiers. */
  method BookInstallments(exps: seq<Expense>, p: Purchase, parts: seq<int>, firstId: nat) returns (r: seq<Expense>)
    requires IsCalendarDate(p.date)
    ensures r == exps + Installments(p, parts, firstId, |parts|)
  {
    var added := [];
    for i := 0 to |parts|
      invariant added == Installments(p, parts, firstId, i)
    {
      var e := InstallmentRecord(p, parts, i, firstId + i);
      assert Installments(p, parts, firstId, i + 1) == Installments(p, parts, firstId, i) + [e];
      added := added + [e];
    }
    r := exps + added;
  }

  /** The rename loop: every record whose method is exactly `prev` now names `next`. */
  method RenameAll(exps: seq<Expense>, prev: string, next: string) returns (r: seq<Expense>)
    ensures r == Renamed(exps, prev, next)
  {
    r := exps;
    for i := 0 to |exps|
      invariant |r| == |exps|
      invariant forall j :: 0 <= j < i ==> r[j] == Renamed(exps, prev, next)[j]
      invariant forall j :: i <= j < |exps| ==> r[j] == exps[j]
    {
      if r[i].payMethod == prev {
        r := r[i := r[i].(payMethod := next)];
      }
    }
  }

  /** The income loop: every income due today credited once and marked with this month. */
  method CreditIncomes(logs: seq<BalanceLog>, nextId: nat, incomes: seq<Income>, today: Date) returns (res: IncomeRun)
    ensures res == RunIncome(logs, nextId, incomes, today)
  {
    var ls, id, incs := logs, nextId, incomes;
    for i := 0 to |incomes|
      invariant |incs| == |incomes|
      invariant IncomeRun(ls, id, incs[..i]) == RunIncome(logs, nextId, incomes[..i], today)
      invariant incs[i..] == incomes[i..]
    {
      assert incs[i] == incomes[i] by {
        assert incs[i..][0] == incomes[i..][0];
      }
      assert incomes[..i + 1][..i] == incomes[..i];
      var inc := incs[i];
      if IncomeDue(inc, today) {
        ls := ls + [IncomeLog(inc, id)];
        id := id + 1;
        incs := incs[i := inc.(lastProcessed := Some(MonthOf(today)))];
      }
      assert incs[..i + 1] == incs[..i] + [incs[i]];
    }
    assert incs == incs[..|incomes|] && incomes == incomes[..|incomes|];
    res := IncomeRun(ls, id, incs);
  }

  /** A migration `forEach`: every element converted in place. */
  method ConvertEach<T>(s: seq<T>, f: T -> T) returns (r: seq<T>)
    ensures r == MapEach(f, s)
  {
    r := s;
    for i := 0 to |s|
      invariant |r| == |s|
      invariant forall j :: 0 <= j < i ==> r[j] == f(s[j])
      invariant forall j :: i <= j < |s| ==> r[j] == s[j]
    {
      r := r[i := f(r[i])];
    }
  }

  /**
   * migrateToKurus: below data version 2 every monetary value that looks like
   * lira is converted, and so is every plan's cashback value, a percentage
   * included; the version becomes 2. From version 2 on nothing changes.
   */
  function Migrated(s: Snapshot): (r: Snapshot)
    ensures s.dataVersion >= 2 ==> r == s
    ensures r.dataVersion >= 2
    ensures Consistent(s) ==> Consistent(r)
    ensures |r.expenses| == |s.expenses| && |r.recurringPlans| == |s.recurringPlans|
    ensures forall i :: 0 <= i < |s.expenses| ==> r.expenses[i].id == s.expenses[i].id
    ensures forall i :: 0 <= i < |s.expenses| ==> IsInteger(r.expenses[i].amount) || s.dataVersion >= 2
    ensures forall i :: 0 <= i < |s.recurringPlans| ==>
              s.dataVersion >= 2 || r.recurringPlans[i].cashbackValue == MigrateValue(s.recurringPlans[i].cashbackValue)
  {
    if s.dataVersion >= 2 then s
    else
      var exps := MapEach(MigrateExpense, s.expenses);
      var plans := MapEach(MigratePlanAsWritten, s.recurringPlans);
      assert forall i :: 0 <= i < |exps| ==> exps[i].id == s.expenses[i].id;
      assert forall i :: 0 <= i < |plans| ==>
               (plans[i].day == s.recurringPlans[i].day && plans[i].amount == MigrateValue(s.recurringPlans[i].amount));
      s.(expenses := exps, cards := MapEach(MigrateCard, s.cards), balanceLogs := MapEach(MigrateLog, s.balanceLogs),
         recurringPlans := plans, recurringIncome := MapEach(MigrateIncome, s.recurringIncome),
         assets := MapEach(MigrateAsset, s.assets), dataVersion := 2)
  }

  /** The six conversion loops of migrateToKurus, one list after another. */
  method ConvertAll(s: Snapshot) returns (r: Snapshot)
    requires s.dataVersion < 2
    ensures r == Migrated(s)
  {
    var exps := ConvertEach(s.expenses, MigrateExpense);
    var cards := ConvertEach(s.cards, MigrateCard);
    var assets := ConvertEach(s.assets, MigrateAsset);
    var logs := ConvertEach(s.balanceLogs, MigrateLog);
    var plans := ConvertEach(s.recurringPlans, MigratePlanAsWritten);
    var incomes := ConvertEach(s.recurringIncome, MigrateIncome);
    r := s.(expenses := exps, cards := cards, balanceLogs := logs, recurringPlans := plans,
            recurringIncome := incomes, assets := assets, dataVersion := 2);
  }

  /** Converting twice is converting once: the version gate makes the second call change nothing. */
  lemma {:induction false} MigratedIdempotent(s: Snapshot)
    ensures Migrated(Migrated(s)) == Migrated(s)
  {
    assert Migrated(s).dataVersion >= 2;
  }

  /**
   * A first start reads data version 1 from empty storage; the conversion init
   * runs then only raises the version, giving the constructor's state.
   */
  lemma FirstStartMigrated()
    ensures Migrated(Snapshot([], [], [], [], [], [], DefaultMethods, DefaultCategories, 1, 0))
            == Snapshot([], [], [], [], [], [], DefaultMethods, DefaultCategories, 2, 0)
  {
  }

  /**
   * The form's edit or add, before the engine runs: an edit overwrites the
   * plan's fields and, when the plan was already charged this month,
   * rewrites this month's record without touching the wallet; an add appends
   * a new plan with its initial marker. An edit of a plan that is not there
   * changes nothing.
   */
  function PlanSaved(s: Snapshot, editId: Option<nat>, f: PlanForm, today: Date): (r: Snapshot)
    requires PlanFieldsValid(f)
    ensures Consistent(s) ==> Consistent(r)
    ensures r.cards == s.cards && r.balanceLogs == s.balanceLogs
    ensures |r.expenses| == |s.expenses|
    ensures forall i :: 0 <= i < |s.expenses| ==> r.expenses[i].id == s.expenses[i].id
    ensures editId.None? ==> r.recurringPlans == s.recurringPlans + [NewPlan(s.nextId, f, today)]
    ensures editId.Some? ==> |r.recurringPlans| == |s.recurringPlans| && r.nextId == s.nextId
  {
    match editId
    case None =>
      var p := NewPlan(s.nextId, f, today);
      assert forall i :: 0 <= i < |s.expenses| ==> s.expenses[i].id < s.nextId + 1 || s.expenses[i].id >= s.nextId;
      s.(recurringPlans := s.recurringPlans + [p], nextId := s.nextId + 1)
    case Some(id) =>
      match PlanIndex(s.recurringPlans, id)
      case None => s
      case Some(k) =>
        var p := EditedPlan(s.recurringPlans[k], f);
        var plans := s.recurringPlans[k := p];
        if p.lastProcessed != Some(MonthOf(today)) then s.(recurringPlans := plans)
        else
          match FirstOfPlanInMonth(s.expenses, id, MonthOf(today))
          case None => s.(recurringPlans := plans)
          case Some(j) =>
            var e := EditedRecord(s.expenses[j], s.cards, p, today);
            assert Consistent(s) ==> UniqueIds(s.expenses[j := e]) && IdsBelow(s.expenses[j := e], s.nextId) by {
              if Consistent(s) {
                UpdateFresh(s.expenses, j, e, s.nextId);
              }
            }
            s.(recurringPlans := plans, expenses := s.expenses[j := e])
  }

  /** Pausing plan number `k`: the plan stops, and what it materialised this month is removed without refund. */
  function Paused(s: Snapshot, k: nat, today: Date): (r: Snapshot)
    requires k < |s.recurringPlans|
    ensures Consistent(s) ==> Consistent(r)
    ensures forall e :: e in r.expenses ==> !OfPlanInMonth(s.recurringPlans[k].id, MonthOf(today))(e)
    ensures Holdings(r.balanceLogs, r.expenses)
            == Holdings(s.balanceLogs, s.expenses)
               - Total(s.expenses, Both(OfPlanInMonth(s.recurringPlans[k].id, MonthOf(today)), NonCredit()))
  {
    var id := s.recurringPlans[k].id;
    DropPlanMonthHoldings(s.balanceLogs, s.expenses, id, MonthOf(today));
    assert Consistent(s) ==> UniqueIds(DropPlanMonth(s.expenses, id, MonthOf(today)))
                             && IdsBelow(DropPlanMonth(s.expenses, id, MonthOf(today)), s.nextId) by {
      if Consistent(s) {
        DropFresh(s.expenses, OfPlanInMonth(id, MonthOf(today)), s.nextId);
      }
    }
    s.(recurringPlans := s.recurringPlans[k := s.recurringPlans[k].(active := false)],
       expenses := DropPlanMonth(s.expenses, id, MonthOf(today)))
  }

  /** Resuming plan number `k`, before the engine runs. */
  function Resumed(s: Snapshot, k: nat): (r: Snapshot)
    requires k < |s.recurringPlans|
    ensures Consistent(s) ==> Consistent(r)
    ensures |r.recurringPlans| == |s.recurringPlans| && r.recurringPlans[k].active
    ensures !Idle(r.recurringPlans[k]) <==> s.recurringPlans[k].autoPay
  {
    s.(recurringPlans := s.recurringPlans[k := s.recurringPlans[k].(active := true)])
  }

  /** Deleting plan `id`: the plan goes, and what it materialised this month is removed without refund. */
  function PlanDeleted(s: Snapshot, id: nat, today: Date): (r: Snapshot)
    ensures Consistent(s) ==> Consistent(r)
    ensures forall p :: p in r.recurringPlans ==> p.id != id
    ensures forall e :: e in r.expenses ==> !OfPlanInMonth(id, MonthOf(today))(e)
    ensures Holdings(r.balanceLogs, r.expenses)
            == Holdings(s.balanceLogs, s.expenses) - Total(s.expenses, Both(OfPlanInMonth(id, MonthOf(today)), NonCredit()))
  {
    DropPlanMonthHoldings(s.balanceLogs, s.expenses, id, MonthOf(today));
    assert Consistent(s) ==> UniqueIds(DropPlanMonth(s.expenses, id, MonthOf(today)))
                             && IdsBelow(DropPlanMonth(s.expenses, id, MonthOf(today)), s.nextId) by {
      if Consistent(s) {
        DropFresh(s.expenses, OfPlanInMonth(id, MonthOf(today)), s.nextId);
      }
    }
    s.(recurringPlans := PlansWithout(s.recurringPlans, id), expenses := DropPlanMonth(s.expenses, id, MonthOf(today)))
  }

  /** The card form as saveCardProcess reads it: the name before trimming, the limit already in kuruş. */
  datatype CardForm = CardForm(name: string, cutoff: int, limit: int, brand: string, last4: string)

  /** The form's own check: a name, a cut-off day of the month and a positive limit. */
  predicate CardFieldsValid(f: CardForm)
  {
    Trim(f.name) != "" && 1 <= f.cutoff <= 31 && f.limit > 0
  }

  /** The card the form describes, under identifier `id`. */
  function FormCard(id: nat, f: CardForm): Card
  {
    Card(id, Trim(f.name), f.cutoff, f.limit as real, f.brand, f.last4)
  }

  /** The add branch of saveCardProcess: the card is appended and its name joins the payment methods. */
  function CardAdded(s: Snapshot, f: CardForm): (r: Snapshot)
    ensures Consistent(s) ==> Consistent(r)
    ensures r == s.(cards := r.cards, methods := r.methods, nextId := r.nextId)
    ensures r.cards == s.cards + [FormCard(s.nextId, f)] && r.nextId == s.nextId + 1
    ensures s.methods <= r.methods
    ensures forall x :: x in r.methods <==> x in s.methods || x == Trim(f.name)
  {
    var name := Trim(f.name);
    s.(cards := s.cards + [FormCard(s.nextId, f)],
       methods := if name in s.methods then s.methods else s.methods + [name],
       nextId := s.nextId + 1)
  }

  /**
   * The edit branch of saveCardProcess for the card at `k`: the card is
   * overwritten in place; when the name changes, the records paid exactly
   * under the old name and the old method entry carry the new name.
   */
  function CardEdited(s: Snapshot, k: nat, f: CardForm): (r: Snapshot)
    requires k < |s.cards|
    ensures Consistent(s) ==> Consistent(r)
    ensures r == s.(cards := r.cards, expenses := r.expenses, methods := r.methods)
    ensures r.cards == s.cards[k := FormCard(s.cards[k].id, f)]
    ensures Holdings(r.balanceLogs, r.expenses) == Holdings(s.balanceLogs, s.expenses)
    ensures |r.expenses| == |s.expenses|
    ensures forall i :: 0 <= i < |s.expenses| ==>
              r.expenses[i] == s.expenses[i].(payMethod := r.expenses[i].payMethod)
    ensures s.cards[k].name != Trim(f.name) ==> Trim(f.name) in r.methods
  {
    var name, prev := Trim(f.name), s.cards[k].name;
    var t := if name == prev then s else RenamedPayMethod(s, prev, name);
    t.(cards := s.cards[k := FormCard(s.cards[k].id, f)])
  }

  /** A payment method renamed from `prev` to `next` in the records and in the method list. */
  function RenamedPayMethod(s: Snapshot, prev: string, next: string): (r: Snapshot)
    ensures Consistent(s) ==> Consistent(r)
    ensures r == s.(expenses := r.expenses, methods := r.methods)
    ensures Holdings(r.balanceLogs, r.expenses) == Holdings(s.balanceLogs, s.expenses)
    ensures |r.expenses| == |s.expenses|
    ensures forall i :: 0 <= i < |s.expenses| ==>
              r.expenses[i] == s.expenses[i].(payMethod := r.expenses[i].payMethod)
    ensures next in r.methods
  {
    var exps := Renamed(s.expenses, prev, next);
    assert forall i :: 0 <= i < |exps| ==> exps[i].id == s.expenses[i].id;
    RenamedKeepsCash(s.expenses, prev, next);
    s.(expenses := exps, methods := RenamedMethods(s.methods, prev, next))
  }

  /** saveCardProcess: an invalid form or an unknown card changes nothing. */
  function CardSaved(s: Snapshot, editId: Option<nat>, f: CardForm): (r: Snapshot)
    ensures Consistent(s) ==> Consistent(r)
    ensures Holdings(r.balanceLogs, r.expenses) == Holdings(s.balanceLogs, s.expenses)
    ensures !CardFieldsValid(f) ==> r == s
    ensures CardFieldsValid(f) && editId.None? ==> r == CardAdded(s, f)
    ensures CardFieldsValid(f) && editId.Some? ==>
              match CardIndex(s.cards, editId.value)
              case None => r == s
              case Some(k) => r == CardEdited(s, k, f)
  {
    if !CardFieldsValid(f) then s
    else
      match editId
      case None => CardAdded(s, f)
      case Some(id) =>
        match CardIndex(s.cards, id)
        case None => s
        case Some(k) => CardEdited(s, k, f)
  }

  /**
   * Renaming a card moves its statement with it: when no record used the new
   * name before, the debt the old name had is now the new name's and nothing
   * is left under the old one.
   */
  lemma RenamedCardKeepsDebt(s: Snapshot, k: nat, f: CardForm)
    requires k < |s.cards| && s.cards[k].name != Trim(f.name)
    requires forall i :: 0 <= i < |s.expenses| ==> s.expenses[i].payMethod != Trim(f.name)
    ensures var r := CardEdited(s, k, f);
            && Debt(r.expenses, Strict, Trim(f.name)) == Debt(s.expenses, Strict, s.cards[k].name)
            && Debt(r.expenses, Strict, s.cards[k].name) == 0.0
  {
    RenamedDebt(s.expenses, s.cards[k].name, Trim(f.name));
  }

  /**
   * deleteActiveCard: the card goes; when it had a name, every record and
   * every plan whose method loosely matches it goes too, without refund.
   */
  function CardDeleted(s: Snapshot, id: nat): (r: Snapshot)
    ensures Consistent(s) ==> Consistent(r)
    ensures r == s.(cards := r.cards, expenses := r.expenses, recurringPlans := r.recurringPlans)
    ensures forall c :: c in r.cards <==> c in s.cards && c.id != id
    ensures CardById(s.cards, id).None? || CardById(s.cards, id).value.name == "" ==>
              r.expenses == s.expenses && r.recurringPlans == s.recurringPlans
    ensures CardById(s.cards, id).Some? && CardById(s.cards, id).value.name != "" ==>
              var name := CardById(s.cards, id).value.name;
              && (forall e :: e in r.expenses <==> e in s.expenses && !NamesMatch(e.payMethod, name))
              && (forall p :: p in r.recurringPlans <==> p in s.recurringPlans && !NamesMatch(p.payMethod, name))
              && Debt(r.expenses, Loose, name) == 0.0
              && Holdings(r.balanceLogs, r.expenses)
                 == Holdings(s.balanceLogs, s.expenses) - Total(s.expenses, Both(PaidWith(Loose, name), NonCredit()))
  {
    var cards := CardsWithout(s.cards, id);
    match CardById(s.cards, id)
    case Some(c) =>
      if c.name == "" then s.(cards := cards)
      else
        var exps := Drop(s.expenses, PaidWith(Loose, c.name));
        DeletedCardHasNoDebt(s.expenses, c.name);
        TotalDrop(s.expenses, PaidWith(Loose, c.name), NonCredit());
        assert Consistent(s) ==> UniqueIds(exps) && IdsBelow(exps, s.nextId) by {
          if Consistent(s) {
            DropFresh(s.expenses, PaidWith(Loose, c.name), s.nextId);
          }
        }
        s.(cards := cards, expenses := exps, recurringPlans := PlansNotOn(s.recurringPlans, c.name))
    case None => s.(cards := cards)
  }

  /**
   * A card purchase booked as its installments keeps the ledger consistent
   * and the wallet untouched; on a named card with a limit it raises the
   * card's balance by the sum of the installments, which is the amount when
   * the amount is not negative, and keeps the debt within the limit.
   */
  lemma BookedPurchase(s: Snapshot, c: Card, p: Purchase, amount: int, n: int)
    requires Consistent(s) && CreditSpendAdmitted(c, s.expenses, amount) && n >= 1
    requires IsCalendarDate(p.date) && p.cardName == c.name
    ensures var after := s.expenses + Installments(p, SplitAsWritten(amount, n), s.nextId, n);
            && Consistent(s.(expenses := after, nextId := s.nextId + n))
            && Holdings(s.balanceLogs, after) == Holdings(s.balanceLogs, s.expenses)
            && (c.name != "" && c.limit > 0.0 ==>
                  && Net(after, Loose, c.name) == Net(s.expenses, Loose, c.name) + SumInts(SplitAsWritten(amount, n)) as real
                  && (amount >= 0 ==> Net(after, Loose, c.name) == Net(s.expenses, Loose, c.name) + amount as real)
                  && Debt(after, Loose, c.name) <= c.limit + 0.1)
  {
    var added := Installments(p, SplitAsWritten(amount, n), s.nextId, n);
    InstallmentsAt(p, SplitAsWritten(amount, n), s.nextId, n);
    CardRecordsKeepHoldings(s.balanceLogs, s.expenses, added);
    AppendFresh(s.expenses, s.expenses + added, s.nextId, s.nextId + n);
    if c.name != "" && c.limit > 0.0 {
      AdmittedSpendKeepsLimit(c, s.expenses, p, amount, n, s.nextId);
    }
  }

  /**
   * An admitted debt payment keeps the ledger consistent, takes its amount
   * out of the wallet, and lowers a named card's balance by the amount.
   */
  lemma BookedPayment(s: Snapshot, card: Card, amount: int, date: Date)
    requires Consistent(s) && PaymentAdmitted(card, s.expenses, amount)
    ensures var after := s.expenses + [PaymentRecord(s.nextId, card, amount, date)];
            var logs := s.balanceLogs + [PaymentLog(card, amount, s.nextId + 1)];
            && Consistent(s.(expenses := after, balanceLogs := logs, nextId := s.nextId + 2))
            && Holdings(logs, after) == Holdings(s.balanceLogs, s.expenses) - amount as real
            && (card.name != "" ==>
                  && Net(after, Strict, card.name) == Net(s.expenses, Strict, card.name) - amount as real
                  && Debt(after, Strict, card.name) <= Debt(s.expenses, Strict, card.name))
  {
    var e := PaymentRecord(s.nextId, card, amount, date);
    PaymentHoldings(s.balanceLogs, s.expenses, card, amount, s.nextId, date);
    if card.name != "" {
      AdmittedPayment(card, s.expenses, amount, s.nextId, date);
    }
    AppendFresh(s.expenses, s.expenses + [e], s.nextId, s.nextId + 1);
  }

  class State {
    var expenses: seq<Expense>
    var cards: seq<Card>
    var balanceLogs: seq<BalanceLog>
    var recurringPlans: seq<Plan>
    var recurringIncome: seq<Income>
    var assets: seq<AssetTrade>
    var methods: seq<string>
    var categories: seq<string>
    var dataVersion: int
    /** The next fresh identifier; stands for `Date.now()` and `generateUniqueId`. */
    var nextId: nat

    function Model(): Snapshot
      reads this
    {
      Snapshot(expenses, cards, balanceLogs, recurringPlans, recurringIncome, assets,
               methods, categories, dataVersion, nextId)
    }

    /** The part of the ledger the recurring engine reads and writes. */
    function Engine(): Records
      reads this
    {
      Records(expenses, balanceLogs, nextId)
    }

    predicate Valid()
      reads this
    {
      Consistent(Model())
    }

    /**
     * The state of a first start once init has run: nothing recorded, the
     * default lists, and data version 2 (`FirstStartMigrated` shows that the
     * conversion init runs takes the stored version 1 there).
     */
    constructor ()
      ensures Valid()
      ensures Model() == Snapshot([], [], [], [], [], [], DefaultMethods, DefaultCategories, 2, 0)
    {
      expenses, cards, balanceLogs := [], [], [];
      recurringPlans, recurringIncome, assets := [], [], [];
      methods, categories := DefaultMethods, DefaultCategories;
      dataVersion, nextId := 2, 0;
    }

    /** Writes every list and counter of `s` back to the fields. */
    method Load(s: Snapshot)
      modifies this
      ensures Model() == s
    {
      expenses, cards, balanceLogs := s.expenses, s.cards, s.balanceLogs;
      recurringPlans, recurringIncome, assets := s.recurringPlans, s.recurringIncome, s.assets;
      methods, categories := s.methods, s.categories;
      dataVersion, nextId := s.dataVersion, s.nextId;
    }

    // -------------------------------------------------------------------------
    // The expense form, its edit dialog and its delete button

    /**
     * addExpense: an admitted cash expense is recorded together with its
     * withdrawal from the wallet; anything else changes nothing.
     */
    method AddExpense(merchant: string, amount: int, date: Option<Date>, payMethod: string, category: string, recurring: bool)
      returns (added: bool)
      requires Valid()
      modifies this
      ensures Valid()
      ensures added == ExpenseAdmitted(old(cards), merchant, amount, date, payMethod)
      ensures added ==> Model() == old(Model()).(
                expenses := old(expenses) + [CashRecord(old(nextId), merchant, amount, payMethod, category, date.value, recurring)],
                balanceLogs := old(balanceLogs) + [CashLog(merchant, amount, old(nextId) + 1)],
                nextId := old(nextId) + 2)
      ensures !added ==> Model() == old(Model())
      ensures Holdings(balanceLogs, expenses) == old(Holdings(balanceLogs, expenses))
    {
      added := ExpenseAdmitted(cards, merchant, amount, date, payMethod);
      if !added {
        return;
      }
      var e := CashRecord(nextId, merchant, amount, payMethod, category, date.value, recurring);
      var l := CashLog(merchant, amount, nextId + 1);
      CashPairKeepsHoldings(balanceLogs, expenses, e, l);
      AppendFresh(expenses, expenses + [e], nextId, nextId + 1);
      expenses := expenses + [e];
      balanceLogs := balanceLogs + [l];
      nextId := nextId + 2;
    }

    /**
     * The edit dialog: with a merchant and a non-zero amount, the record is
     * rewritten and, for a cash record whose amount changed, the difference
     * is taken from the wallet. A record that is not there changes nothing.
     */
    method EditExpense(id: nat, merchant: string, amount: real, date: Date) returns (edited: bool)
      requires Valid()
      modifies this
      ensures Valid()
      ensures edited <==> merchant != [] && amount != 0.0 && ExpenseIndex(old(expenses), id).Some?
      ensures edited ==> var k := ExpenseIndex(old(expenses), id).value;
                         Model() == old(Model()).(
                           expenses := old(expenses)[k := EditedExpense(old(expenses)[k], merchant, amount, date)],
                           balanceLogs := old(balanceLogs) + EditLogs(old(expenses)[k], merchant, amount, old(nextId)),
                           nextId := old(nextId) + 1)
      ensures !edited ==> Model() == old(Model())
      ensures Holdings(balanceLogs, expenses) == old(Holdings(balanceLogs, expenses))
    {
      var index := ExpenseIndex(expenses, id);
      if merchant == [] || amount == 0.0 || index.None? {
        return false;
      }
      var k := index.value;
      var e := expenses[k];
      EditKeepsHoldings(balanceLogs, expenses, k, merchant, amount, date, nextId);
      UpdateFresh(expenses, k, EditedExpense(e, merchant, amount, date), nextId + 1);
      balanceLogs := balanceLogs + EditLogs(e, merchant, amount, nextId);
      expenses := expenses[k := EditedExpense(e, merchant, amount, date)];
      nextId := nextId + 1;
      edited := true;
    }

    /**
     * deleteExpense: the record goes and, when it was paid in cash, its
     * amount comes back into the wallet. A record that is not there changes nothing.
     */
    method DeleteExpense(id: nat) returns (deleted: bool)
      requires Valid()
      modifies this
      ensures Valid()
      ensures deleted <==> ExpenseIndex(old(expenses), id).Some?
      ensures deleted ==> var k := ExpenseIndex(old(expenses), id).value;
                          Model() == old(Model()).(
                            expenses := Drop(old(expenses), HasId(id)),
                            balanceLogs := old(balanceLogs) + DeleteLogs(old(expenses)[k], old(nextId)),
                            nextId := old(nextId) + 1)
      ensures !deleted ==> Model() == old(Model())
      ensures forall e :: e in expenses ==> e.id != id
      ensures Holdings(balanceLogs, expenses) == old(Holdings(balanceLogs, expenses))
    {
      var index := ExpenseIndex(expenses, id);
      if index.None? {
        assert forall e :: e in expenses ==> e.id != id;
        return false;
      }
      var k := index.value;
      DeleteKeepsHoldings(balanceLogs, expenses, k, nextId);
      DropFresh(expenses, HasId(id), nextId + 1);
      balanceLogs := balanceLogs + DeleteLogs(expenses[k], nextId);
      expenses := Drop(expenses, HasId(id));
      nextId := nextId + 1;
      deleted := true;
    }

    // -------------------------------------------------------------------------
    // The wallet page

    /**
     * addBalanceLog: with an amount field that is not empty, a title and a
     * date, the magnitude entered goes in or out of the wallet.
     */
    method AddBalanceLog(amount: Option<real>, title: string, date: Option<Date>, moneyOut: bool) returns (added: bool)
      requires Valid()
      modifies this
      ensures Valid()
      ensures added <==> amount.Some? && Trim(title) != [] && date.Some?
      ensures added ==> Model() == old(Model()).(
                balanceLogs := old(balanceLogs) + [BalanceLog(old(nextId), Trim(title), ManualAmount(amount.value, moneyOut) as real)],
                nextId := old(nextId) + 1)
      ensures added ==> Balance(balanceLogs) == old(Balance(balanceLogs)) + ManualAmount(amount.value, moneyOut) as real
      ensures !added ==> Model() == old(Model())
    {
      if amount.None? || Trim(title) == [] || date.None? {
        return false;
      }
      var l := BalanceLog(nextId, Trim(title), ManualAmount(amount.value, moneyOut) as real);
      BalanceAppend(balanceLogs, l);
      balanceLogs := balanceLogs + [l];
      nextId := nextId + 1;
      added := true;
    }

    /**
     * handleAssetTrade: an admitted trade is recorded and its value, rounded
     * to the kuruş, leaves the wallet for a purchase and enters it for a sale.
     */
    method TradeAsset(kind: TradeKind, assetType: string, quantity: real, price: int, date: Option<Date>) returns (traded: bool)
      requires Valid()
      modifies this
      ensures Valid()
      ensures traded == TradeAdmitted(old(assets), kind, assetType, quantity, price, date)
      ensures traded ==> Model() == old(Model()).(
                assets := old(assets) + [TradeRecord(old(nextId), kind, assetType, quantity, price, date.value)],
                balanceLogs := old(balanceLogs) + [TradeLog(kind, assetType, quantity, price, old(nextId) + 1)],
                nextId := old(nextId) + 2)
      ensures traded ==> Balance(balanceLogs) == old(Balance(balanceLogs)) + TradeLog(kind, assetType, quantity, price, 0).amount
      ensures traded ==> Held(assets, assetType) == Held(old(assets), assetType) + (if kind == Buy then quantity else -quantity)
      ensures traded ==> Held(old(assets), assetType) >= 0.0 ==> Held(assets, assetType) >= 0.0
      ensures !traded ==> Model() == old(Model())
    {
      traded := TradeAdmitted(assets, kind, assetType, quantity, price, date);
      if !traded {
        return;
      }
      var t := TradeRecord(nextId, kind, assetType, quantity, price, date.value);
      var l := TradeLog(kind, assetType, quantity, price, nextId + 1);
      TradeHeld(assets, t);
      BalanceAppend(balanceLogs, l);
      assets := assets + [t];
      balanceLogs := balanceLogs + [l];
      nextId := nextId + 2;
    }
    // -------------------------------------------------------------------------
    // The recurring engine

    /** checkRecurringTransactions on the ledger: the records, the wallet and the plan markers. */
    method CheckRecurringTransactions(today: Date)
      requires Valid() && IsCalendarDate(today)
      modifies this
      ensures Valid()
      ensures Model() == RunEngine(old(Model()), today)
    {
      var r, plans := RunAllPlans(Engine(), cards, recurringPlans, today);
      expenses, balanceLogs, nextId, recurringPlans := r.expenses, r.logs, r.nextId, plans;
      assert Model() == RunEngine(old(Model()), today);
    }
    /**
     * checkRecurringIncome: every income due today is credited to the wallet
     * and marked with this month; the balance rises by exactly the amounts due.
     */
    method CheckRecurringIncome(today: Date)
      requires Valid()
      modifies this
      ensures Valid()
      ensures var res := RunIncome(old(balanceLogs), old(nextId), old(recurringIncome), today);
              Model() == old(Model()).(balanceLogs := res.logs, nextId := res.nextId, recurringIncome := res.incomes)
      ensures Balance(balanceLogs) == old(Balance(balanceLogs)) + DueTotal(old(recurringIncome), today)
    {
      RunIncomeBalance(balanceLogs, nextId, recurringIncome, today);
      var res := CreditIncomes(balanceLogs, nextId, recurringIncome, today);
      balanceLogs, nextId, recurringIncome := res.logs, res.nextId, res.incomes;
    }

    // -------------------------------------------------------------------------
    // The recurring-plan page

    /**
     * addRecurringPlan: the card limit is checked first, then the fields;
     * an admitted form edits or adds the plan and the engine runs.
     */
    method AddRecurringPlan(editId: Option<nat>, f: PlanForm, today: Date) returns (saved: bool)
      requires Valid() && IsCalendarDate(today)
      modifies this
      ensures Valid()
      ensures saved == (PlanLimitAdmitted(old(cards), old(expenses), f) && PlanFieldsValid(f))
      ensures saved ==> Model() == RunEngine(PlanSaved(old(Model()), editId, f, today), today)
      ensures !saved ==> Model() == old(Model())
    {
      if !PlanLimitAdmitted(cards, expenses, f) || !PlanFieldsValid(f) {
        return false;
      }
      if editId.Some? {
        var index := PlanIndex(recurringPlans, editId.value);
        if index.Some? {
          var k := index.value;
          var p := EditedPlan(recurringPlans[k], f);
          recurringPlans := recurringPlans[k := p];
          if p.lastProcessed == Some(MonthOf(today)) {
            var j := FirstOfPlanInMonth(expenses, editId.value, MonthOf(today));
            if j.Some? {
              expenses := expenses[j.value := EditedRecord(expenses[j.value], cards, p, today)];
            }
          }
        }
      } else {
        recurringPlans := recurringPlans + [NewPlan(nextId, f, today)];
        nextId := nextId + 1;
      }
      assert Model() == PlanSaved(old(Model()), editId, f, today);
      CheckRecurringTransactions(today);
      saved := true;
    }

    /**
     * toggleRecurringStatus: a running plan is paused and this month's record
     * removed; a paused plan is resumed and the engine runs.
     */
    method ToggleRecurringStatus(id: nat, today: Date) returns (found: bool)
      requires Valid() && IsCalendarDate(today)
      modifies this
      ensures Valid()
      ensures found <==> PlanIndex(old(recurringPlans), id).Some?
      ensures !found ==> Model() == old(Model())
      ensures found ==> var k := PlanIndex(old(recurringPlans), id).value;
                        if old(recurringPlans)[k].active then Model() == Paused(old(Model()), k, today)
                        else Model() == RunEngine(Resumed(old(Model()), k), today)
    {
      var index := PlanIndex(recurringPlans, id);
      if index.None? {
        return false;
      }
      var k := index.value;
      var p := recurringPlans[k];
      recurringPlans := recurringPlans[k := p.(active := !p.active)];
      if p.active {
        expenses := DropPlanMonth(expenses, id, MonthOf(today));
        assert Model() == Paused(old(Model()), k, today);
      } else {
        assert Model() == Resumed(old(Model()), k);
        CheckRecurringTransactions(today);
      }
      found := true;
    }

    /** deleteRecurringPlan: this month's record and the plan go. */
    method DeleteRecurringPlan(id: nat, today: Date)
      requires Valid()
      modifies this
      ensures Valid()
      ensures Model() == PlanDeleted(old(Model()), id, today)
    {
      expenses := DropPlanMonth(expenses, id, MonthOf(today));
      recurringPlans := PlansWithout(recurringPlans, id);
      assert Model() == PlanDeleted(old(Model()), id, today);
    }

    // -------------------------------------------------------------------------
    // The kuruş conversion

    /** migrateToKurus: gated by the data version, each list converted in turn. */
    method MigrateToKurus()
      requires Valid()
      modifies this
      ensures Valid()
      ensures Model() == Migrated(old(Model()))
    {
      if dataVersion >= 2 {
        return;
      }
      var r := ConvertAll(Model());
      Load(r);
    }

    // -------------------------------------------------------------------------
    // The card page

    // -------------------------------------------------------------------------
    // The card dialog

    /** saveCardProcess: `saved` is whether the form passed and the card to edit exists. */
    method SaveCard(editId: Option<nat>, f: CardForm) returns (saved: bool)
      requires Valid()
      modifies this
      ensures Valid()
      ensures saved <==> CardFieldsValid(f) && (editId.None? || CardIndex(old(cards), editId.value).Some?)
      ensures Model() == CardSaved(old(Model()), editId, f)
    {
      ghost var s := Model();
      saved := false;
      if CardFieldsValid(f) {
        var name := Trim(f.name);
        if editId.None? {
          cards := cards + [FormCard(nextId, f)];
          if name !in methods {
            methods := methods + [name];
          }
          nextId := nextId + 1;
          saved := true;
        } else {
          var found := CardIndex(cards, editId.value);
          if found.Some? {
            var k := found.value;
            var prev := cards[k].name;
            cards := cards[k := FormCard(editId.value, f)];
            if name != prev {
              expenses := RenameAll(expenses, prev, name);
              methods := RenamedMethods(methods, prev, name);
            }
            saved := true;
          }
        }
      }
      assert Model() == CardSaved(s, editId, f);
    }

    /** deleteActiveCard, for the card with identifier `id`. */
    method DeleteCard(id: nat)
      requires Valid()
      modifies this
      ensures Valid()
      ensures Model() == CardDeleted(old(Model()), id)
    {
      ghost var s := Model();
      var card := CardById(cards, id);
      cards := CardsWithout(cards, id);
      if card.Some? && card.value.name != "" {
        expenses := Drop(expenses, PaidWith(Loose, card.value.name));
        recurringPlans := PlansNotOn(recurringPlans, card.value.name);
      }
      assert Model() == CardDeleted(s, id);
    }

    /**
     * addCreditExpense: a purchase on an existing card, admitted against the
     * remaining limit and with a merchant, a non-zero amount and a date in
     * the accepted years, is booked as its installments, split by
     * `SplitAsWritten`; a recurring purchase has one. A purchase with fewer
     * than one installment books nothing.
     */
    method AddCreditExpense(cardId: nat, amount: int, merchant: string, installments: int, date: Option<Date>,
                            category: string, recurring: bool) returns (booked: nat)
      requires Valid()
      requires date.Some? ==> IsCalendarDate(date.value)
      modifies this
      ensures Valid()
      ensures var card := CardById(old(cards), cardId);
              var n := if recurring then 1 else installments;
              booked > 0 <==> card.Some? && CreditSpendAdmitted(card.value, old(expenses), amount)
                              && Trim(merchant) != [] && amount != 0 && DateText.IsValidDate(date) && n >= 1
      ensures booked > 0 ==>
                var card := CardById(old(cards), cardId).value;
                var n := if recurring then 1 else installments;
                var p := Purchase(Trim(merchant), card.name, category, date.value, recurring);
                && booked == n
                && Model() == old(Model()).(expenses := old(expenses) + Installments(p, SplitAsWritten(amount, n), old(nextId), n),
                                            nextId := old(nextId) + n)
                && (card.name != "" && card.limit > 0.0 ==>
                      && Net(expenses, Loose, card.name) == old(Net(expenses, Loose, card.name)) + SumInts(SplitAsWritten(amount, n)) as real
                      && (amount >= 0 ==> Net(expenses, Loose, card.name) == old(Net(expenses, Loose, card.name)) + amount as real)
                      && Debt(expenses, Loose, card.name) <= card.limit + 0.1)
      ensures booked == 0 ==> Model() == old(Model())
      ensures Holdings(balanceLogs, expenses) == old(Holdings(balanceLogs, expenses))
    {
      var card := CardById(cards, cardId);
      if card.None? {
        return 0;
      }
      var c := card.value;
      if !CreditSpendAdmitted(c, expenses, amount) {
        return 0;
      }
      var n := if recurring then 1 else installments;
      if Trim(merchant) == [] || amount == 0 || !DateText.IsValidDate(date) || n < 1 {
        return 0;
      }
      var p := Purchase(Trim(merchant), c.name, category, date.value, recurring);
      BookedPurchase(Model(), c, p, amount, n);
      expenses := BookInstallments(expenses, p, SplitAsWritten(amount, n), nextId);
      nextId := nextId + n;
      booked := n;
    }

    /**
     * saveDebtPayment: an admitted payment is recorded on the card and its
     * amount leaves the wallet.
     */
    method SaveDebtPayment(card: Card, amount: int, date: Date) returns (paid: bool)
      requires Valid()
      modifies this
      ensures Valid()
      ensures paid == PaymentAdmitted(card, old(expenses), amount)
      ensures paid ==> Model() == old(Model()).(
                expenses := old(expenses) + [PaymentRecord(old(nextId), card, amount, date)],
                balanceLogs := old(balanceLogs) + [PaymentLog(card, amount, old(nextId) + 1)],
                nextId := old(nextId) + 2)
      ensures paid ==> Holdings(balanceLogs, expenses) == old(Holdings(balanceLogs, expenses)) - amount as real
      ensures paid && card.name != "" ==>
                && Net(expenses, Strict, card.name) == old(Net(expenses, Strict, card.name)) - amount as real
                && Debt(expenses, Strict, card.name) <= old(Debt(expenses, Strict, card.name))
      ensures !paid ==> Model() == old(Model())
    {
      paid := PaymentAdmitted(card, expenses, amount);
      if !paid {
        return;
      }
      var e := PaymentRecord(nextId, card, amount, date);
      BookedPayment(Model(), card, amount, date);
      expenses := expenses + [e];
      balanceLogs := balanceLogs + [PaymentLog(card, amount, nextId + 1)];
      nextId := nextId + 2;
    }
  }
}
