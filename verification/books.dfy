/**
 * Sums over the ledger's records: the wallet balance, the filtered expense totals
 * every debt and limit figure is built from, and the card debt itself.
 */
module Books {
  import opened Common
  import opened Calendar
  import opened Names
  import opened Billing
  import opened Entities

  /** The wallet balance: the sum of all wallet movements. */
  function Balance(logs: seq<BalanceLog>): real
    decreases |logs|
  {
    if |logs| == 0 then 0.0 else Balance(logs[..|logs| - 1]) + logs[|logs| - 1].amount
  }

  /** Appending one movement moves the balance by exactly its amount. */
  lemma BalanceAppend(logs: seq<BalanceLog>, l: BalanceLog)
    ensures Balance(logs + [l]) == Balance(logs) + l.amount
  {
    assert (logs + [l])[..|logs|] == logs;
  }

  /** The first card whose name matches `name` under `cmp` (`Array.prototype.find`). */
  function FindCard(cards: seq<Card>, cmp: Comparison, name: string): (r: Option<Card>)
    ensures r.Some? ==> r.value in cards && Compare(cmp, r.value.name, name)
    ensures r.Some? ==> exists i :: 0 <= i < |cards| && cards[i] == r.value
                          && forall j :: 0 <= j < i ==> !Compare(cmp, cards[j].name, name)
    ensures r.None? <==> forall c :: c in cards ==> !Compare(cmp, c.name, name)
    decreases |cards|
  {
    if |cards| == 0 then None
    else if Compare(cmp, cards[0].name, name) then Some(cards[0])
    else
      var r := FindCard(cards[1..], cmp, name);
      assert r.Some? ==> exists i :: 0 <= i < |cards| - 1 && cards[1..][i] == r.value
                          && forall j :: 0 <= j < i ==> !Compare(cmp, cards[1..][j].name, name);
      assert forall c :: c in cards ==> c == cards[0] || c in cards[1..];
      r
  }

  /**
   * Which expenses a sum or a removal takes: the predicate a `filter` call
   * site writes out. The functions below build the ones the ledger uses.
   */
  type Filter = Expense -> bool

  /** Cash expenses: the ones the wallet mirrors. */
  function NonCredit(): Filter
  {
    (e: Expense) => !e.isCredit
  }

  /** Expenses paid with `name`, under the given name comparison. */
  function PaidWith(cmp: Comparison, name: string): Filter
  {
    (e: Expense) => Compare(cmp, e.payMethod, name)
  }

  /** The all-cards view's card operations: flagged as credit, or paid with a card's name. */
  function OnAnyCard(cards: seq<Card>): Filter
  {
    (e: Expense) => e.isCredit || exists c :: c in cards && NamesMatch(c.name, e.payMethod)
  }

  /**
   * The all-cards view's period: the first card whose name matches the method
   * after normalising, and the date inside that card's billing window around `day`.
   */
  function InCardWindow(cards: seq<Card>, day: Date): Filter
  {
    (e: Expense) => match FindCard(cards, Normalised, e.payMethod)
         case None => false
         case Some(c) => c.cutoff >= 1 && InWindow(BillingWindow(day, c.cutoff), e.date)
  }

  function HasId(id: nat): Filter
  {
    (e: Expense) => e.id == id
  }

  /** What a recurring plan materialised in one month. */
  function OfPlanInMonth(planId: nat, ym: YearMonth): Filter
  {
    (e: Expense) => e.planId == Some(planId) && MonthOf(e.date) == ym
  }

  function SpendsOf(f: Filter): Filter
  {
    (e: Expense) => !e.isPayment && f(e)
  }

  function PaymentsOf(f: Filter): Filter
  {
    (e: Expense) => e.isPayment && f(e)
  }

  /** Dated on or before `end`. */
  function UpTo(f: Filter, end: Date): Filter
  {
    (e: Expense) => DateLe(e.date, end) && f(e)
  }

  function Both(f: Filter, g: Filter): Filter
  {
    (e: Expense) => f(e) && g(e)
  }

  /** `exps.filter(f).reduce((s, x) => s + x.amount, 0)`. */
  function Total(exps: seq<Expense>, f: Filter): real
    decreases |exps|
  {
    if |exps| == 0 then 0.0
    else
      var e := exps[|exps| - 1];
      Total(exps[..|exps| - 1], f) + (if f(e) then e.amount else 0.0)
  }

  /** `exps.filter(x => !f(x))`: the expenses that survive a removal, in their order. */
  function Drop(exps: seq<Expense>, f: Filter): (r: seq<Expense>)
    ensures |r| <= |exps|
    ensures forall e :: e in r <==> e in exps && !f(e)
    decreases |exps|
  {
    if |exps| == 0 then []
    else
      var init, e := Drop(exps[..|exps| - 1], f), exps[|exps| - 1];
      assert forall x :: x in exps <==> x in exps[..|exps| - 1] || x == e;
      if f(e) then init else init + [e]
  }

  lemma TotalAppendOne(exps: seq<Expense>, e: Expense, f: Filter)
    ensures Total(exps + [e], f) == Total(exps, f) + (if f(e) then e.amount else 0.0)
  {
    assert (exps + [e])[..|exps|] == exps;
  }

  /** Overwriting the record at `k` moves every sum by the difference of the two records' shares. */
  lemma {:induction false} TotalUpdate(exps: seq<Expense>, k: nat, e: Expense, f: Filter)
    requires k < |exps|
    ensures Total(exps[k := e], f)
            == Total(exps, f) - (if f(exps[k]) then exps[k].amount else 0.0) + (if f(e) then e.amount else 0.0)
    decreases |exps|
  {
    var n := |exps| - 1;
    if k == n {
      assert exps[k := e][..n] == exps[..n];
    } else {
      assert exps[k := e][..n] == exps[..n][k := e];
      TotalUpdate(exps[..n], k, e, f);
    }
  }

  /** A sum over two stretches of records is the sum of the sums. */
  lemma {:induction false} TotalAppend(a: seq<Expense>, b: seq<Expense>, f: Filter)
    ensures Total(a + b, f) == Total(a, f) + Total(b, f)
    decreases |b|
  {
    if |b| > 0 {
      var init, e := b[..|b| - 1], b[|b| - 1];
      assert b == init + [e];
      assert a + b == (a + init) + [e];
      TotalAppendOne(a + init, e, f);
      TotalAppendOne(init, e, f);
      TotalAppend(a, init, f);
    } else {
      assert a + b == a;
    }
  }

  /** Every selected record is either a spend or a payment. */
  lemma {:induction false} TotalSplit(exps: seq<Expense>, f: Filter)
    ensures Total(exps, f) == Total(exps, SpendsOf(f)) + Total(exps, PaymentsOf(f))
    decreases |exps|
  {
    if |exps| > 0 {
      var e := exps[|exps| - 1];
      TotalSplit(exps[..|exps| - 1], f);
      assert f(e) == (SpendsOf(f)(e) || PaymentsOf(f)(e));
    }
  }

  predicate NonNegativeAmounts(exps: seq<Expense>)
  {
    forall i :: 0 <= i < |exps| ==> exps[i].amount >= 0.0
  }

  /** With no negative amounts, a filter that takes fewer records sums to no more. */
  lemma {:induction false} TotalMonotone(exps: seq<Expense>, f: Filter, g: Filter)
    requires NonNegativeAmounts(exps)
    requires forall e :: e in exps && f(e) ==> g(e)
    ensures 0.0 <= Total(exps, f) <= Total(exps, g)
    decreases |exps|
  {
    if |exps| > 0 {
      var init := exps[..|exps| - 1];
      assert forall e :: e in init ==> e in exps;
      TotalMonotone(init, f, g);
    }
  }

  /**
   * Removing the records `f` selects lowers every sum by exactly the removed
   * records' share of it.
   */
  lemma {:induction false} TotalDrop(exps: seq<Expense>, f: Filter, g: Filter)
    ensures Total(exps, g) == Total(Drop(exps, f), g) + Total(exps, Both(f, g))
    decreases |exps|
  {
    if |exps| > 0 {
      var init, e := exps[..|exps| - 1], exps[|exps| - 1];
      TotalDrop(init, f, g);
      if !f(e) {
        TotalAppendOne(Drop(init, f), e, g);
      }
    }
  }

  /** No two records share an identifier. */
  predicate UniqueIds(exps: seq<Expense>)
  {
    forall i, j :: 0 <= i < |exps| && 0 <= j < |exps| && exps[i].id == exps[j].id ==> i == j
  }

  /** With unique identifiers, removing by identifier removes exactly the record at `k`. */
  lemma {:induction false} TotalOfId(exps: seq<Expense>, k: nat, g: Filter)
    requires UniqueIds(exps) && k < |exps|
    ensures Total(exps, Both(HasId(exps[k].id), g)) == (if g(exps[k]) then exps[k].amount else 0.0)
    decreases |exps|
  {
    var init, e := exps[..|exps| - 1], exps[|exps| - 1];
    if k == |exps| - 1 {
      var f := Both(HasId(e.id), g);
      TotalNone(init, f);
      assert Total(exps, f) == Total(init, f) + (if f(e) then e.amount else 0.0);
    } else {
      var f := Both(HasId(exps[k].id), g);
      assert init[k] == exps[k] && e.id != exps[k].id;
      assert !f(e);
      assert Total(exps, f) == Total(init, f);
      assert UniqueIds(init) by {
        forall i, j | 0 <= i < |init| && 0 <= j < |init| && init[i].id == init[j].id
          ensures i == j
        {
          assert exps[i].id == exps[j].id;
        }
      }
      TotalOfId(init, k, g);
    }
  }

  /** A filter that selects none of the records sums to zero. */
  lemma {:induction false} TotalNone(exps: seq<Expense>, f: Filter)
    requires forall i :: 0 <= i < |exps| ==> !f(exps[i])
    ensures Total(exps, f) == 0.0
    decreases |exps|
  {
    if |exps| > 0 {
      TotalNone(exps[..|exps| - 1], f);
    }
  }

  /**
   * A card's outstanding debt: what was spent on it minus what was paid into it,
   * never below zero. `cmp` is the name comparison the call site uses.
   */
  function Debt(exps: seq<Expense>, cmp: Comparison, name: string): (d: real)
    ensures d >= 0.0
    ensures d >= Total(exps, SpendsOf(PaidWith(cmp, name))) - Total(exps, PaymentsOf(PaidWith(cmp, name)))
    ensures d == 0.0 || d == Total(exps, SpendsOf(PaidWith(cmp, name))) - Total(exps, PaymentsOf(PaidWith(cmp, name)))
  {
    var f := PaidWith(cmp, name);
    MaxReal(0.0, Total(exps, SpendsOf(f)) - Total(exps, PaymentsOf(f)))
  }

  /** What is left of a card's limit once its debt is taken off. */
  function Remaining(card: Card, exps: seq<Expense>, cmp: Comparison): (r: real)
    ensures r <= card.limit
    ensures r == card.limit - Debt(exps, cmp, card.name)
  {
    card.limit - Debt(exps, cmp, card.name)
  }
  /**
   * What has come into the wallet: its balance plus every cash expense paid out
   * of it. Each cash mutation pairs a record with a compensating wallet entry,
   * so this figure moves only when money enters the wallet.
   */
  function Holdings(logs: seq<BalanceLog>, exps: seq<Expense>): real
  {
    Balance(logs) + Total(exps, NonCredit())
  }

  /** `b` is `a` with records appended, none of them a payment and none negative. */
  predicate Extends(a: seq<Expense>, b: seq<Expense>)
  {
    |a| <= |b| && b[..|a|] == a
    && forall i :: |a| <= i < |b| ==> !b[i].isPayment && b[i].amount >= 0.0
  }

  lemma ExtendsTransitive(a: seq<Expense>, b: seq<Expense>, c: seq<Expense>)
    requires Extends(a, b) && Extends(b, c)
    ensures Extends(a, c)
  {
    assert c[..|a|] == c[..|b|][..|a|];
  }

  /** Appending spends never lowers a card's debt, whatever the name comparison. */
  lemma ExtendsDebt(a: seq<Expense>, b: seq<Expense>, cmp: Comparison, name: string)
    requires Extends(a, b)
    ensures Debt(a, cmp, name) <= Debt(b, cmp, name)
  {
    var s := b[|a|..];
    assert b == a + s;
    var f := PaidWith(cmp, name);
    TotalAppend(a, s, SpendsOf(f));
    TotalAppend(a, s, PaymentsOf(f));
    assert NonNegativeAmounts(s) by {
      forall i | 0 <= i < |s| ensures s[i].amount >= 0.0 {
        assert s[i] == b[|a| + i];
      }
    }
    TotalMonotone(s, SpendsOf(f), SpendsOf(f));
    assert forall i :: 0 <= i < |s| ==> !PaymentsOf(f)(s[i]) by {
      forall i | 0 <= i < |s| ensures !PaymentsOf(f)(s[i]) {
        assert s[i] == b[|a| + i];
      }
    }
    TotalNone(s, PaymentsOf(f));
  }
}
