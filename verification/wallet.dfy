/**
 * The wallet side of the ledger's mutations: the compensating entry each cash
 * change writes, the asset holdings a sale is checked against, and the facts
 * about identifiers the ledger keeps.
 */
module Wallet {
  import opened Common
  import opened Calendar
  import opened Names
  import opened Entities
  import opened Books
  import opened Cards
  import DateText

  // ---------------------------------------------------------------------------
  // Identifiers

  /** Every identifier is below the next fresh one. */
  predicate IdsBelow(exps: seq<Expense>, n: nat)
  {
    forall i :: 0 <= i < |exps| ==> exps[i].id < n
  }

  /** The position of the first record with identifier `id` (`find`, `findIndex`). */
  function ExpenseIndex(exps: seq<Expense>, id: nat): (k: Option<nat>)
    ensures k.Some? ==> k.value < |exps| && exps[k.value].id == id
                        && forall j :: 0 <= j < k.value ==> exps[j].id != id
    ensures k.None? <==> forall j :: 0 <= j < |exps| ==> exps[j].id != id
    decreases |exps|
  {
    if |exps| == 0 then None
    else if exps[0].id == id then Some(0)
    else
      match ExpenseIndex(exps[1..], id)
      case None => None
      case Some(k) => Some(k + 1)
  }

  /**
   * Records appended under consecutive identifiers from the counter keep the
   * identifiers unique and below the advanced counter.
   */
  lemma AppendFresh(a: seq<Expense>, b: seq<Expense>, n0: nat, n2: nat)
    requires UniqueIds(a) && IdsBelow(a, n0)
    requires |a| <= |b| && b[..|a|] == a && n2 == n0 + (|b| - |a|)
    requires forall i :: |a| <= i < |b| ==> b[i].id == n0 + (i - |a|)
    ensures UniqueIds(b) && IdsBelow(b, n2)
  {
    forall i | 0 <= i < |a| ensures b[i] == a[i] {
      assert b[i] == b[..|a|][i];
    }
  }

  /** Removing records keeps the identifiers unique and below the counter. */
  lemma {:induction false} DropFresh(exps: seq<Expense>, f: Filter, n: nat)
    requires UniqueIds(exps) && IdsBelow(exps, n)
    ensures UniqueIds(Drop(exps, f)) && IdsBelow(Drop(exps, f), n)
    decreases |exps|
  {
    if |exps| > 0 {
      var init, e := exps[..|exps| - 1], exps[|exps| - 1];
      assert UniqueIds(init) by {
        forall i, j | 0 <= i < |init| && 0 <= j < |init| && init[i].id == init[j].id ensures i == j {
          assert exps[i] == init[i] && exps[j] == init[j];
        }
      }
      DropFresh(init, f, n);
      var d := Drop(init, f);
      if !f(e) {
        forall i | 0 <= i < |d| ensures d[i].id != e.id {
          assert d[i] in init;
          var j :| 0 <= j < |init| && init[j] == d[i];
          assert exps[j] == init[j];
        }
      }
    }
  }

  /** Overwriting a record with one of the same identifier keeps the identifiers unique. */
  lemma UpdateFresh(exps: seq<Expense>, k: nat, e: Expense, n: nat)
    requires UniqueIds(exps) && IdsBelow(exps, n) && k < |exps| && e.id == exps[k].id
    ensures UniqueIds(exps[k := e]) && IdsBelow(exps[k := e], n)
  {
    assert forall i :: 0 <= i < |exps| ==> exps[k := e][i].id == exps[i].id;
  }

  /** A rename changes no identifier. */
  lemma RenamedFresh(exps: seq<Expense>, prev: string, next: string, n: nat)
    requires UniqueIds(exps) && IdsBelow(exps, n)
    ensures UniqueIds(Renamed(exps, prev, next)) && IdsBelow(Renamed(exps, prev, next), n)
  {
    assert forall i :: 0 <= i < |exps| ==> Renamed(exps, prev, next)[i].id == exps[i].id;
  }

  // ---------------------------------------------------------------------------
  // Cash expenses and their wallet entries

  /**
   * The form check for a cash expense: a merchant that is not blank, a positive
   * amount, a date in the accepted years, and a method that is not exactly a
   * card's name (card spends go through the card page).
   */
  predicate ExpenseAdmitted(cards: seq<Card>, merchant: string, amount: int, date: Option<Date>, payMethod: string)
  {
    Trim(merchant) != [] && amount > 0 && DateText.IsValidDate(date)
    && FindCard(cards, Strict, payMethod).None?
  }

  /** The record the expense form adds: a cash spend under the trimmed merchant. */
  function CashRecord(id: nat, merchant: string, amount: int, payMethod: string, category: string, date: Date, recurring: bool): (e: Expense)
    ensures e.id == id && !e.isCredit && !e.isPayment && e.amount == amount as real && e.planId.None?
  {
    Expense(id, Trim(merchant), amount as real, payMethod, category, date, false, false, recurring, None)
  }

  /** The withdrawal written with it, titled with the merchant. */
  function CashLog(merchant: string, amount: int, id: nat): (l: BalanceLog)
    ensures l.amount == -(amount as real)
  {
    BalanceLog(id, Trim(merchant), -(amount as real))
  }

  /** A cash record together with a wallet entry of the opposite amount keeps the books straight. */
  lemma CashPairKeepsHoldings(logs: seq<BalanceLog>, exps: seq<Expense>, e: Expense, l: BalanceLog)
    requires !e.isCredit && l.amount == -e.amount
    ensures Holdings(logs + [l], exps + [e]) == Holdings(logs, exps)
  {
    BalanceAppend(logs, l);
    TotalAppendOne(exps, e, NonCredit());
  }

  /** Card records leave the wallet and the cash expenses alone. */
  lemma CardRecordsKeepHoldings(logs: seq<BalanceLog>, exps: seq<Expense>, added: seq<Expense>)
    requires forall i :: 0 <= i < |added| ==> added[i].isCredit
    ensures Holdings(logs, exps + added) == Holdings(logs, exps)
  {
    TotalAppend(exps, added, NonCredit());
    TotalNone(added, NonCredit());
  }

  /** The correction an edit writes: only for a cash record whose amount changed, the opposite of the change. */
  function EditLogs(e: Expense, merchant: string, amount: real, id: nat): (ls: seq<BalanceLog>)
    ensures |ls| <= 1
    ensures |ls| == 1 <==> !e.isCredit && amount != e.amount
    ensures |ls| == 1 ==> ls[0].amount == e.amount - amount
  {
    if !e.isCredit && amount - e.amount != 0.0 then [BalanceLog(id, "Düzeltme: " + merchant, -(amount - e.amount))] else []
  }

  /** The edit dialog's rewrite of a record: the merchant, the amount and the date. */
  function EditedExpense(e: Expense, merchant: string, amount: real, date: Date): (e2: Expense)
    ensures e2.id == e.id && e2.isCredit == e.isCredit && e2.isPayment == e.isPayment
    ensures e2.payMethod == e.payMethod && e2.amount == amount
  {
    e.(merchant := merchant, amount := amount, date := date)
  }

  /** Editing a record and writing its correction keeps the wallet plus the cash expenses. */
  lemma EditKeepsHoldings(logs: seq<BalanceLog>, exps: seq<Expense>, k: nat, merchant: string, amount: real, date: Date, id: nat)
    requires k < |exps|
    ensures Holdings(logs + EditLogs(exps[k], merchant, amount, id), exps[k := EditedExpense(exps[k], merchant, amount, date)])
            == Holdings(logs, exps)
  {
    var e := exps[k];
    TotalUpdate(exps, k, EditedExpense(e, merchant, amount, date), NonCredit());
    LogsBalance(logs, EditLogs(e, merchant, amount, id));
  }

  /** Appending at most one entry moves the wallet by that entry's amount. */
  lemma LogsBalance(logs: seq<BalanceLog>, ls: seq<BalanceLog>)
    requires |ls| <= 1
    ensures Balance(logs + ls) == Balance(logs) + (if |ls| == 1 then ls[0].amount else 0.0)
  {
    if |ls| == 1 {
      assert logs + ls == logs + [ls[0]];
      BalanceAppend(logs, ls[0]);
    } else {
      assert logs + ls == logs;
    }
  }

  /** The refund a delete writes: the amount of a cash record, back into the wallet. */
  function DeleteLogs(e: Expense, id: nat): (ls: seq<BalanceLog>)
    ensures |ls| <= 1
    ensures |ls| == 1 <==> !e.isCredit
    ensures |ls| == 1 ==> ls[0].amount == e.amount
  {
    if !e.isCredit then [BalanceLog(id, "İade: " + e.merchant, e.amount)] else []
  }

  /**
   * With unique identifiers, deleting a record and writing its refund keeps
   * the wallet plus the cash expenses.
   */
  lemma DeleteKeepsHoldings(logs: seq<BalanceLog>, exps: seq<Expense>, k: nat, id: nat)
    requires UniqueIds(exps) && k < |exps|
    ensures Holdings(logs + DeleteLogs(exps[k], id), Drop(exps, HasId(exps[k].id))) == Holdings(logs, exps)
  {
    var e := exps[k];
    TotalDrop(exps, HasId(e.id), NonCredit());
    TotalOfId(exps, k, NonCredit());
    LogsBalance(logs, DeleteLogs(e, id));
  }

  /** The wallet entry a debt payment writes: the amount leaves the wallet. */
  function PaymentLog(card: Card, amount: int, id: nat): (l: BalanceLog)
    ensures l.amount == -(amount as real)
  {
    BalanceLog(id, "KK Borç Ödemesi: " + card.name, -(amount as real))
  }

  /**
   * A debt payment moves money out of the wallet into the card: the wallet
   * plus the cash expenses falls by the amount paid.
   */
  lemma PaymentHoldings(logs: seq<BalanceLog>, exps: seq<Expense>, card: Card, amount: int, id: nat, date: Date)
    ensures Holdings(logs + [PaymentLog(card, amount, id + 1)], exps + [PaymentRecord(id, card, amount, date)])
            == Holdings(logs, exps) - amount as real
  {
    BalanceAppend(logs, PaymentLog(card, amount, id + 1));
    TotalAppendOne(exps, PaymentRecord(id, card, amount, date), NonCredit());
  }

  // ---------------------------------------------------------------------------
  // Manual wallet entries

  /** A manual entry in kuruş: the magnitude entered, rounded, negated for money out. */
  function ManualAmount(amount: real, moneyOut: bool): (k: int)
    ensures moneyOut ==> k <= 0
    ensures !moneyOut ==> k >= 0
  {
    var magnitude := if amount >= 0.0 then amount else -amount;
    var r := Round(magnitude * 100.0);
    assert r >= 0;
    if moneyOut then -r else r
  }

  /** The manual entry's magnitude is the amount entered in kuruş, to within half a kuruş, whatever its sign. */
  lemma ManualAmountMagnitude(amount: real, moneyOut: bool)
    ensures var k := ManualAmount(amount, moneyOut);
            var m := if k >= 0 then k else -k;
            var a := if amount >= 0.0 then amount else -amount;
            a * 100.0 - 1.0 / 2.0 < m as real <= a * 100.0 + 1.0 / 2.0
  {
  }

  // ---------------------------------------------------------------------------
  // Assets

  /** How much of `assetType` is held: bought minus sold. */
  function Held(assets: seq<AssetTrade>, assetType: string): real
    decreases |assets|
  {
    if |assets| == 0 then 0.0
    else
      var t := assets[|assets| - 1];
      Held(assets[..|assets| - 1], assetType)
        + (if t.assetType != assetType then 0.0 else if t.kind == Buy then t.quantity else -t.quantity)
  }

  /** The trade form check: a positive quantity, a non-zero price, a date, and no sale beyond what is held. */
  predicate TradeAdmitted(assets: seq<AssetTrade>, kind: TradeKind, assetType: string, quantity: real, price: int, date: Option<Date>)
  {
    quantity > 0.0 && price != 0 && date.Some? && (kind == Sell ==> quantity <= Held(assets, assetType))
  }

  /** The trade the form records: the quantity as entered, the unit price in kuruş. */
  function TradeRecord(id: nat, kind: TradeKind, assetType: string, quantity: real, price: int, date: Date): (t: AssetTrade)
    ensures t.kind == kind && t.assetType == assetType && t.quantity == quantity && t.price == price as real
  {
    AssetTrade(id, assetType, quantity, price as real, kind, date)
  }

  /** The money a trade moves: quantity times unit price, rounded; out of the wallet for a purchase. */
  function TradeLog(kind: TradeKind, assetType: string, quantity: real, price: int, id: nat): (l: BalanceLog)
    ensures var v := Round(quantity * price as real) as real;
            l.amount == if kind == Buy then -v else v
  {
    var v := Round(quantity * price as real) as real;
    BalanceLog(id, (if kind == Buy then "Yatırım Alışı: " else "Yatırım Satışı: ") + assetType,
               if kind == Buy then -v else v)
  }

  /**
   * A trade moves the holding of its own asset by its quantity, up for a
   * purchase and down for a sale, and leaves every other asset alone; an
   * admitted trade never leaves a holding below zero.
   */
  lemma TradeHeld(assets: seq<AssetTrade>, t: AssetTrade)
    requires t.quantity > 0.0 && (t.kind == Sell ==> t.quantity <= Held(assets, t.assetType))
    ensures Held(assets + [t], t.assetType) == Held(assets, t.assetType) + (if t.kind == Buy then t.quantity else -t.quantity)
    ensures forall other :: other != t.assetType ==> Held(assets + [t], other) == Held(assets, other)
    ensures Held(assets, t.assetType) >= 0.0 ==> Held(assets + [t], t.assetType) >= 0.0
  {
    assert (assets + [t])[..|assets|] == assets;
  }
}
