/**
 * Credit cards: the statement a card shows, the all-cards overview, the checks
 * a new card spend and a debt payment must pass, the installment split, and
 * what renaming or deleting a card does to the records that name it.
 */
module Cards {
  import opened Common
  import opened Calendar
  import opened Names
  import opened Billing
  import opened Entities
  import opened Books
  import opened DateText

  /** What a card has spent minus what has been paid into it, payments and spends matched under `cmp`. */
  function Net(exps: seq<Expense>, cmp: Comparison, name: string): real
  {
    Total(exps, SpendsOf(PaidWith(cmp, name))) - Total(exps, PaymentsOf(PaidWith(cmp, name)))
  }

  lemma DebtIsClampedNet(exps: seq<Expense>, cmp: Comparison, name: string)
    ensures Debt(exps, cmp, name) == MaxReal(0.0, Net(exps, cmp, name))
  {
  }

  // ---------------------------------------------------------------------------
  // The single-card statement

  /** What the statement of one card shows for the viewed month. */
  datatype Statement = Statement(window: Window, due: Date, periodDebt: real, remaining: real)

  /**
   * The statement of `card` for the month `offset` months from `today`: its
   * billing window, the due date, the period debt (spends dated up to the end of
   * the window minus every payment ever made, never below zero) and the
   * remaining limit.
   */
  function CardStatement(card: Card, exps: seq<Expense>, today: Date, offset: int): Statement
    requires IsCalendarDate(today) && card.cutoff >= 1
  {
    var w := BillingWindow(ReferenceDay(today, offset), card.cutoff);
    var cumulative := Total(exps, UpTo(SpendsOf(PaidWith(Loose, card.name)), w.end));
    var paid := Total(exps, PaymentsOf(PaidWith(Loose, card.name)));
    Statement(w, DueDate(w.end), MaxReal(0.0, cumulative - paid), Remaining(card, exps, Loose))
  }

  /**
   * The statement's window contains the viewed day, the due date lies 10 to 70
   * days after the window closes, the remaining limit is the limit less the whole
   * debt, and the period debt is never negative and, with no negative amounts
   * on record, never more than the whole debt.
   */
  lemma CardStatementSpec(card: Card, exps: seq<Expense>, today: Date, offset: int)
    requires IsCalendarDate(today) && card.cutoff >= 1
    ensures var s := CardStatement(card, exps, today, offset);
            && InWindow(s.window, ReferenceDay(today, offset))
            && DayNumber(s.window.end) + 10 <= DayNumber(s.due) <= DayNumber(s.window.end) + 70
            && s.remaining == card.limit - Debt(exps, Loose, card.name)
            && 0.0 <= s.periodDebt
            && (NonNegativeAmounts(exps) ==> s.periodDebt <= Debt(exps, Loose, card.name))
  {
    var s := CardStatement(card, exps, today, offset);
    BillingWindowSpec(ReferenceDay(today, offset), card.cutoff);
    DueDateSpec(s.window.end);
    if NonNegativeAmounts(exps) {
      var f := SpendsOf(PaidWith(Loose, card.name));
      TotalMonotone(exps, UpTo(f, s.window.end), f);
    }
  }

  /** A spend dated after the window closes leaves the period debt as it was. */
  lemma LaterSpendNotInPeriod(card: Card, exps: seq<Expense>, today: Date, offset: int, e: Expense)
    requires IsCalendarDate(today) && card.cutoff >= 1
    requires DateLt(CardStatement(card, exps, today, offset).window.end, e.date) && !e.isPayment
    ensures CardStatement(card, exps + [e], today, offset).periodDebt
            == CardStatement(card, exps, today, offset).periodDebt
  {
    var w := CardStatement(card, exps, today, offset).window;
    TotalAppendOne(exps, e, UpTo(SpendsOf(PaidWith(Loose, card.name)), w.end));
    TotalAppendOne(exps, e, PaymentsOf(PaidWith(Loose, card.name)));
  }

  // ---------------------------------------------------------------------------
  // The all-cards overview

  /** The sum of the cards' limits. */
  function TotalLimit(cards: seq<Card>): real
    decreases |cards|
  {
    if |cards| == 0 then 0.0 else TotalLimit(cards[..|cards| - 1]) + cards[|cards| - 1].limit
  }

  /** What the all-cards view shows: the debt of the viewed period and the remaining limit. */
  datatype Overview = Overview(periodDebt: real, remaining: real)

  /**
   * The period debt counts spends and payments dated inside the billing window of
   * the first card whose name matches after normalising; the remaining limit is the
   * total limit less the debt over every card operation.
   */
  function AllCardsOverview(cards: seq<Card>, exps: seq<Expense>, today: Date, offset: int): Overview
    requires IsCalendarDate(today)
  {
    var period := InCardWindow(cards, ReferenceDay(today, offset));
    var ops := OnAnyCard(cards);
    Overview(
      MaxReal(0.0, Total(exps, SpendsOf(period)) - Total(exps, PaymentsOf(period))),
      TotalLimit(cards) - MaxReal(0.0, Total(exps, SpendsOf(ops)) - Total(exps, PaymentsOf(ops))))
  }

  /**
   * The overview's period debt is never negative, its remaining limit never
   * exceeds the total limit, and, with no negative amounts on record, everything
   * one card's statement counts as spent is counted by the overview as well.
   */
  lemma AllCardsOverviewSpec(cards: seq<Card>, exps: seq<Expense>, today: Date, offset: int, card: Card)
    requires IsCalendarDate(today)
    ensures var o := AllCardsOverview(cards, exps, today, offset);
            0.0 <= o.periodDebt && o.remaining <= TotalLimit(cards)
    ensures card in cards && NonNegativeAmounts(exps) ==>
              Total(exps, SpendsOf(PaidWith(Loose, card.name))) <= Total(exps, SpendsOf(OnAnyCard(cards)))
  {
    if card in cards && NonNegativeAmounts(exps) {
      forall e | e in exps && SpendsOf(PaidWith(Loose, card.name))(e)
        ensures SpendsOf(OnAnyCard(cards))(e)
      {
        NamesMatchEquivalence(e.payMethod, card.name, card.name);
      }
      TotalMonotone(exps, SpendsOf(PaidWith(Loose, card.name)), SpendsOf(OnAnyCard(cards)));
    }
  }

  /** An expense whose method matches no card after normalising is never in the overview's period. */
  lemma UnmatchedNotInPeriod(cards: seq<Card>, day: Date, e: Expense)
    requires forall c :: c in cards ==> !SameNormalised(c.name, e.payMethod)
    ensures !InCardWindow(cards, day)(e)
  {
  }

  // ---------------------------------------------------------------------------
  // Admission of card spends and debt payments

  /** A card spend is refused when it exceeds the remaining limit by more than 0.1 kuruş. */
  predicate CreditSpendAdmitted(card: Card, exps: seq<Expense>, amount: int)
  {
    amount as real <= Remaining(card, exps, Loose) + 0.1
  }

  /** A debt payment must be positive and may exceed the strictly matched debt by at most 0.1 kuruş. */
  predicate PaymentAdmitted(card: Card, exps: seq<Expense>, amount: int)
  {
    amount > 0 && amount as real <= Debt(exps, Strict, card.name) + 0.1
  }

  /** The record a debt payment adds: a credit-card payment under the card's name. */
  function PaymentRecord(id: nat, card: Card, amount: int, date: Date): (e: Expense)
    ensures e.isPayment && e.isCredit && e.payMethod == card.name && e.amount == amount as real
  {
    Expense(id, PaymentMerchant, amount as real, card.name, PaymentCategory, date, true, true, false, None)
  }

  /**
   * An admitted payment lowers the card's balance by exactly its amount under both
   * the strict and the loose comparison, never raises the debt, and overpays by
   * at most 0.1 kuruş unless the card was already in credit.
   */
  lemma AdmittedPayment(card: Card, exps: seq<Expense>, amount: int, id: nat, date: Date)
    requires PaymentAdmitted(card, exps, amount) && card.name != ""
    ensures var after := exps + [PaymentRecord(id, card, amount, date)];
            && Net(after, Strict, card.name) == Net(exps, Strict, card.name) - amount as real
            && Net(after, Loose, card.name) == Net(exps, Loose, card.name) - amount as real
            && Debt(after, Strict, card.name) <= Debt(exps, Strict, card.name)
            && (Net(after, Strict, card.name) >= -0.1 || Net(after, Strict, card.name) >= Net(exps, Strict, card.name) - 0.1)
  {
    var p := PaymentRecord(id, card, amount, date);
    NamesMatchEquivalence(card.name, card.name, card.name);
    TotalAppendOne(exps, p, SpendsOf(PaidWith(Strict, card.name)));
    TotalAppendOne(exps, p, PaymentsOf(PaidWith(Strict, card.name)));
    TotalAppendOne(exps, p, SpendsOf(PaidWith(Loose, card.name)));
    TotalAppendOne(exps, p, PaymentsOf(PaidWith(Loose, card.name)));
  }

  // ---------------------------------------------------------------------------
  // Installments

  function SumInts(s: seq<int>): int
    decreases |s|
  {
    if |s| == 0 then 0 else SumInts(s[..|s| - 1]) + s[|s| - 1]
  }

  /** JavaScript `%` on integers: the remainder takes the sign of the dividend. */
  function JsRem(a: int, n: int): (r: int)
    requires n > 0
    ensures -n < r < n
    ensures a >= 0 ==> r >= 0
    ensures a <= 0 ==> r <= 0
  {
    if a >= 0 then a % n else -((-a) % n)
  }

  /** `k` amounts: `first`, then `rest` repeated. */
  function Parts(first: int, rest: int, k: nat): (s: seq<int>)
    ensures |s| == k
    decreases k
  {
    if k == 0 then [] else Parts(first, rest, k - 1) + [if k == 1 then first else rest]
  }

  /** Amount `i` is `first` at position 0 and `rest` after it. */
  lemma {:induction false} PartsAt(first: int, rest: int, k: nat)
    ensures forall i :: 0 <= i < k ==> Parts(first, rest, k)[i] == (if i == 0 then first else rest)
    decreases k
  {
    if k > 0 {
      PartsAt(first, rest, k - 1);
      assert Parts(first, rest, k)[..k - 1] == Parts(first, rest, k - 1);
    }
  }

  /** The amounts add up to `first` plus `k - 1` times `rest`. */
  lemma {:induction false} PartsSum(first: int, rest: int, k: nat)
    ensures SumInts(Parts(first, rest, k)) == if k == 0 then 0 else first + (k - 1) * rest
    decreases k
  {
    if k > 0 {
      PartsSum(first, rest, k - 1);
      assert Parts(first, rest, k)[..k - 1] == Parts(first, rest, k - 1);
      if k > 1 {
        assert (k - 1) * rest == (k - 2) * rest + rest;
      }
    }
  }

  /**
   * The installment amounts as the code computes them: `Math.floor(total / n)`
   * each, with JavaScript's `total % n` added to the first.
   */
  function SplitAsWritten(total: int, n: int): (parts: seq<int>)
    requires n >= 1
    ensures |parts| == n
  {
    Parts(total / n + JsRem(total, n), total / n, n)
  }

  /**
   * The installment amounts with the remainder taken towards negative infinity,
   * matching the floor of the quotient.
   */
  function Split(total: int, n: int): (parts: seq<int>)
    requires n >= 1
    ensures |parts| == n
  {
    Parts(total / n + total % n, total / n, n)
  }

  /**
   * The installments add up to the total; every one after the first is the
   * quotient rounded down, and the first carries the remainder, which is less
   * than `n`.
   */
  lemma SplitSpec(total: int, n: int)
    requires n >= 1
    ensures SumInts(Split(total, n)) == total
    ensures forall i :: 1 <= i < n ==> Split(total, n)[i] == total / n
    ensures 0 <= Split(total, n)[0] - total / n < n
  {
    var q, m := total / n, total % n;
    PartsAt(q + m, q, n);
    PartsSum(q + m, q, n);
    SplitArithmetic(total, n, m);
  }

  /** On a total that is not negative the code's split is the correct one. */
  lemma SplitAsWrittenAgrees(total: int, n: int)
    requires n >= 1 && total >= 0
    ensures SplitAsWritten(total, n) == Split(total, n)
  {
  }

  /**
   * On a negative total that `n` does not divide, the code's installments add up
   * to less than the total.
   */
  lemma SplitAsWrittenLoses(total: int, n: int)
    requires n >= 1 && total < 0 && total % n != 0
    ensures SumInts(SplitAsWritten(total, n)) < total
  {
    var q, j := total / n, JsRem(total, n);
    PartsSum(q + j, q, n);
    SplitArithmetic(total, n, j);
  }

  /**
   * The code's installments add up to the total less the gap between the two
   * remainders: exactly the total when it is not negative or `n` divides it,
   * and never more than the total.
   */
  lemma SplitAsWrittenSum(total: int, n: int)
    requires n >= 1
    ensures SumInts(SplitAsWritten(total, n)) == total - total % n + JsRem(total, n)
    ensures SumInts(SplitAsWritten(total, n)) <= total
    ensures total >= 0 || total % n == 0 ==> SumInts(SplitAsWritten(total, n)) == total
  {
    var q, j := total / n, JsRem(total, n);
    PartsSum(q + j, q, n);
    SplitArithmetic(total, n, j);
    if total < 0 {
      JsRemOfNegative(total, n);
    }
  }

  /** On a negative dividend the truncated remainder is the floored one less `n`, unless both are 0. */
  lemma JsRemOfNegative(a: int, n: int)
    requires n >= 1 && a < 0
    ensures JsRem(a, n) == if a % n == 0 then 0 else a % n - n
  {
    var b := -a;
    var qb, rb := b / n, b % n;
    assert b == n * qb + rb;
    if rb == 0 {
      DivModUnique(a, n, -qb, 0);
    } else {
      assert a == n * (-qb - 1) + (n - rb);
      DivModUnique(a, n, -qb - 1, n - rb);
    }
  }

  /** Euclidean division is unique. */
  lemma DivModUnique(a: int, n: int, q: int, r: int)
    requires n >= 1 && a == n * q + r && 0 <= r < n
    ensures a / n == q && a % n == r
  {
    var d := q - a / n;
    assert a == n * (a / n) + a % n;
    assert n * d == a % n - r;
    if d > 0 {
      MulAtLeast(n, d);
    } else if d < 0 {
      MulAtLeast(n, -d);
    }
  }

  lemma {:induction false} MulAtLeast(n: int, k: int)
    requires n >= 1 && k >= 1
    ensures n * k >= n
    decreases k
  {
    if k > 1 {
      MulAtLeast(n, k - 1);
      assert n * k == n * (k - 1) + n;
    }
  }

  /** A first part of quotient plus `j`, then `n - 1` quotients: the total with `j` in place of the remainder. */
  lemma SplitArithmetic(total: int, n: int, j: int)
    requires n >= 1
    ensures (total / n + j) + (n - 1) * (total / n) == total - total % n + j
  {
    var q := total / n;
    assert (n - 1) * q == n * q - q;
    assert total == n * q + total % n;
  }

  /** 500 kuruş refunded over 3 installments books 503 kuruş. */
  lemma SplitAsWrittenExample()
    ensures SplitAsWritten(-500, 3) == [-169, -167, -167]
    ensures SumInts(SplitAsWritten(-500, 3)) == -503
  {
    assert JsRem(-500, 3) == -2;
    PartsAt(-169, -167, 3);
    PartsSum(-169, -167, 3);
  }

  /**
   * The date of installment `i`, as the code finds it: move the purchase date's
   * month forward by `i`; if the day overflowed into the next month, go back to
   * the last day of the month before (`setDate(0)`).
   */
  function InstallmentDate(base: Date, i: nat): Date
    requires IsCalendarDate(base)
  {
    var m0 := base.month - 1 + i;
    var moved := OverflowDate(base.year, m0, base.day);
    if moved.month - 1 != m0 % 12 then LastDayOf(FromIndex(MonthIndex(MonthOf(moved)) - 1)) else moved
  }

  function LastDayOf(ym: YearMonth): (d: Date)
    requires ValidMonth(ym)
    ensures IsCalendarDate(d)
  {
    Date(ym.year, ym.month, DaysInMonth(ym.year, ym.month))
  }

  /** Each installment falls on the purchase day clamped to the last day of the month `i` months on. */
  lemma InstallmentDateClamped(base: Date, i: nat)
    requires IsCalendarDate(base)
    ensures InstallmentDate(base, i) == ClampedDate(base.year, base.month - 1 + i, base.day)
  {
    var m0 := base.month - 1 + i;
    var k := base.year * 12 + m0;
    var ym := FromIndex(k);
    var n := DaysInMonth(ym.year, ym.month);
    var moved := OverflowDate(base.year, m0, base.day);
    MonthOfShift(base.year, m0);
    if base.day <= n {
      assert moved == Date(ym.year, ym.month, base.day);
      assert InstallmentDate(base, i) == moved;
    } else {
      var next := FromIndex(k + 1);
      assert base.day - n <= 3 <= DaysInMonth(next.year, next.month);
      assert base.year * 12 + (m0 + 1) == k + 1;
      assert moved == OverflowDate(base.year, m0 + 1, base.day - n);
      assert moved == Date(next.year, next.month, base.day - n);
      assert next.month != ym.month;
      FromIndexOfMonthIndex(next);
      assert FromIndex(MonthIndex(next) - 1) == ym;
      assert InstallmentDate(base, i) == LastDayOf(ym);
    }
  }

  /** What one card purchase carries into each of its installment records. */
  datatype Purchase = Purchase(merchant: string, cardName: string, category: string, date: Date, recurring: bool)

  /** `merchant (i+1/n)` when there is more than one installment. */
  function InstallmentLabel(merchant: string, i: nat, n: nat): string
  {
    if n > 1 then merchant + " (" + NatToString(i + 1) + "/" + NatToString(n) + ")" else merchant
  }

  /** Installment `i` of a purchase split into `parts`, with identifier `id`. */
  function InstallmentRecord(p: Purchase, parts: seq<int>, i: nat, id: nat): (e: Expense)
    requires IsCalendarDate(p.date) && i < |parts|
    ensures e.isCredit && !e.isPayment && e.payMethod == p.cardName && e.amount == parts[i] as real
    ensures e.isRecurring <==> p.recurring && i == 0
  {
    Expense(id, InstallmentLabel(p.merchant, i, |parts|), parts[i] as real, p.cardName, p.category,
            InstallmentDate(p.date, i), true, false, p.recurring && i == 0, None)
  }

  /** The first `k` installment records, numbered from `firstId`. */
  function Installments(p: Purchase, parts: seq<int>, firstId: nat, k: nat): (r: seq<Expense>)
    requires IsCalendarDate(p.date) && k <= |parts|
    ensures |r| == k
    decreases k
  {
    if k == 0 then [] else Installments(p, parts, firstId, k - 1) + [InstallmentRecord(p, parts, k - 1, firstId + k - 1)]
  }

  /** Record `i` of the list is installment `i`, with identifier `firstId + i`. */
  lemma {:induction false} InstallmentsAt(p: Purchase, parts: seq<int>, firstId: nat, k: nat)
    requires IsCalendarDate(p.date) && k <= |parts|
    ensures forall i :: 0 <= i < k ==> Installments(p, parts, firstId, k)[i] == InstallmentRecord(p, parts, i, firstId + i)
    decreases k
  {
    if k > 0 {
      InstallmentsAt(p, parts, firstId, k - 1);
      var all, init := Installments(p, parts, firstId, k), Installments(p, parts, firstId, k - 1);
      forall i | 0 <= i < k
        ensures all[i] == InstallmentRecord(p, parts, i, firstId + i)
      {
        if i < k - 1 {
          assert all[i] == init[i];
        }
      }
    }
  }

  /** Records whose amounts are `parts`, all taken by `f`, sum to the sum of the parts. */
  lemma {:induction false} TotalOfParts(xs: seq<Expense>, parts: seq<int>, f: Filter)
    requires |xs| == |parts|
    requires forall i :: 0 <= i < |xs| ==> f(xs[i]) && xs[i].amount == parts[i] as real
    ensures Total(xs, f) == SumInts(parts) as real
    decreases |xs|
  {
    if |xs| > 0 {
      var k := |xs| - 1;
      TotalOfParts(xs[..k], parts[..k], f);
      var a, b := SumInts(parts[..k]), parts[k];
      assert (a + b) as real == a as real + b as real;
    }
  }

  /**
   * An admitted purchase, split as the code books it on the card, raises the
   * card's balance by the sum of its installments: exactly its amount when the
   * amount is not negative, never more than the amount otherwise. Either way
   * the debt stays at most 0.1 kuruş above the limit.
   */
  lemma AdmittedSpendKeepsLimit(card: Card, exps: seq<Expense>, p: Purchase, amount: int, n: int, firstId: nat)
    requires CreditSpendAdmitted(card, exps, amount) && n >= 1
    requires IsCalendarDate(p.date) && p.cardName == card.name && card.name != "" && card.limit > 0.0
    ensures var after := exps + Installments(p, SplitAsWritten(amount, n), firstId, n);
            && Net(after, Loose, card.name) == Net(exps, Loose, card.name) + SumInts(SplitAsWritten(amount, n)) as real
            && Net(after, Loose, card.name) <= Net(exps, Loose, card.name) + amount as real
            && (amount >= 0 ==> Net(after, Loose, card.name) == Net(exps, Loose, card.name) + amount as real)
            && Debt(after, Loose, card.name) <= card.limit + 0.1
  {
    var parts := SplitAsWritten(amount, n);
    var added := Installments(p, parts, firstId, n);
    var spends, pays := SpendsOf(PaidWith(Loose, card.name)), PaymentsOf(PaidWith(Loose, card.name));
    SplitAsWrittenSum(amount, n);
    assert Total(added, spends) == SumInts(parts) as real by {
      NamesMatchEquivalence(card.name, card.name, card.name);
      InstallmentsAt(p, parts, firstId, n);
      TotalOfParts(added, parts, spends);
    }
    assert Total(added, pays) == 0.0 by {
      InstallmentsAt(p, parts, firstId, n);
      TotalNone(added, pays);
    }
    TotalAppend(exps, added, spends);
    TotalAppend(exps, added, pays);
    assert Net(exps + added, Loose, card.name) == Net(exps, Loose, card.name) + SumInts(parts) as real;
  }

  // ---------------------------------------------------------------------------
  // Renaming and deleting a card

  /** Every expense whose method is exactly `prev` now names `next`. */
  function Renamed(exps: seq<Expense>, prev: string, next: string): (r: seq<Expense>)
    ensures |r| == |exps|
    ensures forall i :: 0 <= i < |exps| ==>
              r[i] == if exps[i].payMethod == prev then exps[i].(payMethod := next) else exps[i]
    decreases |exps|
  {
    if |exps| == 0 then []
    else
      var e := exps[|exps| - 1];
      Renamed(exps[..|exps| - 1], prev, next) + [if e.payMethod == prev then e.(payMethod := next) else e]
  }

  /** The spending recorded exactly under `name`, or with `payments` its payments. */
  function KindUnder(payments: bool, name: string): Filter
  {
    if payments then PaymentsOf(PaidWith(Strict, name)) else SpendsOf(PaidWith(Strict, name))
  }

  /**
   * After a rename, what was recorded under the old name is recorded under the
   * next one, added to what the new name already had.
   */
  lemma {:induction false} RenamedTotals(exps: seq<Expense>, prev: string, next: string, payments: bool)
    requires prev != next
    ensures Total(Renamed(exps, prev, next), KindUnder(payments, next))
            == Total(exps, KindUnder(payments, prev)) + Total(exps, KindUnder(payments, next))
    decreases |exps|
  {
    if |exps| > 0 {
      var init := exps[..|exps| - 1];
      RenamedTotals(init, prev, next, payments);
      assert Renamed(exps, prev, next)[..|exps| - 1] == Renamed(init, prev, next);
    }
  }

  /** After a rename nothing is left under the old name. */
  lemma RenamedLeavesNothing(exps: seq<Expense>, prev: string, next: string, payments: bool)
    requires prev != next
    ensures Total(Renamed(exps, prev, next), KindUnder(payments, prev)) == 0.0
  {
    TotalNone(Renamed(exps, prev, next), KindUnder(payments, prev));
  }

  /** A card's debt moves with its name when no record used the new name before. */
  lemma RenamedDebt(exps: seq<Expense>, prev: string, next: string)
    requires prev != next
    requires forall i :: 0 <= i < |exps| ==> exps[i].payMethod != next
    ensures Debt(Renamed(exps, prev, next), Strict, next) == Debt(exps, Strict, prev)
    ensures Debt(Renamed(exps, prev, next), Strict, prev) == 0.0
  {
    RenamedTotals(exps, prev, next, false);
    RenamedTotals(exps, prev, next, true);
    RenamedLeavesNothing(exps, prev, next, false);
    RenamedLeavesNothing(exps, prev, next, true);
    TotalNone(exps, KindUnder(false, next));
    TotalNone(exps, KindUnder(true, next));
  }

  /** A rename touches only the method, so the cash spending the wallet is measured against is unchanged. */
  lemma {:induction false} RenamedKeepsCash(exps: seq<Expense>, prev: string, next: string)
    ensures Total(Renamed(exps, prev, next), NonCredit()) == Total(exps, NonCredit())
    decreases |exps|
  {
    if |exps| > 0 {
      var init := exps[..|exps| - 1];
      RenamedKeepsCash(init, prev, next);
      assert Renamed(exps, prev, next)[..|exps| - 1] == Renamed(init, prev, next);
    }
  }

  /** The first position of `x` in `s`. */
  function IndexOf(s: seq<string>, x: string): (r: Option<nat>)
    ensures r.Some? ==> r.value < |s| && s[r.value] == x && forall j :: 0 <= j < r.value ==> s[j] != x
    ensures r.None? <==> x !in s
    decreases |s|
  {
    if |s| == 0 then None
    else if s[0] == x then Some(0)
    else
      match IndexOf(s[1..], x)
      case None => None
      case Some(k) => Some(k + 1)
  }

  /**
   * The payment-method list after a rename: the old name's first entry becomes
   * the new name; with no entry for the old name, the new name is appended
   * unless it is already there.
   */
  function RenamedMethods(methods: seq<string>, prev: string, next: string): (r: seq<string>)
    ensures next in r
    ensures |methods| <= |r| <= |methods| + 1
  {
    match IndexOf(methods, prev)
    case Some(k) => assert methods[k := next][k] == next; methods[k := next]
    case None => if next in methods then methods else methods + [next]
  }

  /** Renaming keeps every other entry of the method list where it was. */
  lemma RenamedMethodsKeepOthers(methods: seq<string>, prev: string, next: string)
    ensures forall i :: 0 <= i < |methods| && methods[i] != prev ==> RenamedMethods(methods, prev, next)[i] == methods[i]
    ensures prev in methods ==> |RenamedMethods(methods, prev, next)| == |methods|
  {
  }

  /** The plans that survive deleting a card: those whose method does not loosely match its name. */
  function PlansNotOn(plans: seq<Plan>, name: string): (r: seq<Plan>)
    ensures |r| <= |plans|
    ensures forall p :: p in r <==> p in plans && !NamesMatch(p.payMethod, name)
    decreases |plans|
  {
    if |plans| == 0 then []
    else
      var init, p := PlansNotOn(plans[..|plans| - 1], name), plans[|plans| - 1];
      assert forall x :: x in plans <==> x in plans[..|plans| - 1] || x == p;
      if NamesMatch(p.payMethod, name) then init else init + [p]
  }

  /** After a delete nothing the card's statement would count is left: its debt is zero. */
  lemma DeletedCardHasNoDebt(exps: seq<Expense>, name: string)
    ensures Debt(Drop(exps, PaidWith(Loose, name)), Loose, name) == 0.0
  {
    var r := Drop(exps, PaidWith(Loose, name));
    assert forall i :: 0 <= i < |r| ==> r[i] in r;
    TotalNone(r, SpendsOf(PaidWith(Loose, name)));
    TotalNone(r, PaymentsOf(PaidWith(Loose, name)));
  }

  /** The cards that survive deleting the card with identifier `id`. */
  function CardsWithout(cards: seq<Card>, id: nat): (r: seq<Card>)
    ensures |r| <= |cards|
    ensures forall c :: c in r <==> c in cards && c.id != id
    decreases |cards|
  {
    if |cards| == 0 then []
    else
      var init, c := CardsWithout(cards[..|cards| - 1], id), cards[|cards| - 1];
      assert forall x :: x in cards <==> x in cards[..|cards| - 1] || x == c;
      if c.id == id then init else init + [c]
  }

  /** The position of the first card with identifier `id` (`findIndex`). */
  function CardIndex(cards: seq<Card>, id: nat): (k: Option<nat>)
    ensures k.Some? ==> k.value < |cards| && cards[k.value].id == id
                        && forall j :: 0 <= j < k.value ==> cards[j].id != id
    ensures k.None? <==> forall j :: 0 <= j < |cards| ==> cards[j].id != id
    decreases |cards|
  {
    if |cards| == 0 then None
    else if cards[0].id == id then Some(0)
    else
      match CardIndex(cards[1..], id)
      case None => None
      case Some(k) => Some(k + 1)
  }

  /** The card with identifier `id`, the first if several share it. */
  function CardById(cards: seq<Card>, id: nat): (r: Option<Card>)
    ensures r.Some? ==> r.value in cards && r.value.id == id
    ensures r.None? <==> forall c :: c in cards ==> c.id != id
    decreases |cards|
  {
    if |cards| == 0 then None
    else if cards[0].id == id then Some(cards[0])
    else
      var r := CardById(cards[1..], id);
      assert forall c :: c in cards ==> c == cards[0] || c in cards[1..];
      r
  }
}
