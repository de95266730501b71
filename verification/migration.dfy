/**
 * The move from lira amounts to kuruş: a value-by-value heuristic gated by the
 * data version, and what a restore does to the version and to the method and
 * category lists.
 */
module Migration {
  import opened Common
  import opened Calendar
  import opened Entities
  import opened Recurring

  /**
   * A stored value that looks like lira rather than kuruş: it has a
   * fractional part or is below 100000.
   */
  predicate NeedsMigration(v: real)
  {
    !IsInteger(v) || v < 100000.0
  }

  /** One monetary value converted: a lira-looking value times 100, rounded. */
  function MigrateValue(v: real): (r: real)
    ensures IsInteger(r)
    ensures !NeedsMigration(v) ==> r == v
    ensures NeedsMigration(v) ==> v * 100.0 - 1.0 / 2.0 < r <= v * 100.0 + 1.0 / 2.0
    ensures v >= 0.0 ==> r >= 0.0
  {
    if NeedsMigration(v) then Round(v * 100.0) as real else v
  }

  /** A whole value below 100000, taken for lira, is converted exactly. */
  lemma MigrateWholeLira(n: int)
    requires 0 <= n < 100000
    ensures MigrateValue(n as real) == (100 * n) as real
  {
    assert (n as real) * 100.0 == (100 * n) as real;
    RoundWhole(100 * n);
  }

  /** Rounding a whole number gives the number itself. */
  lemma RoundWhole(k: int)
    ensures Round(k as real) == k
  {
    assert k as real + 1.0 / 2.0 < (k + 1) as real;
  }

  /**
   * Without the version gate the conversion would not be idempotent: 5 lira
   * becomes 500 kuruş, and a second pass would make that 50000.
   */
  lemma MigrateTwiceScalesTwice()
    ensures MigrateValue(5.0) == 500.0
    ensures MigrateValue(MigrateValue(5.0)) == 50000.0
  {
    MigrateWholeLira(5);
    MigrateWholeLira(500);
  }

  /** The heuristic's blind spot: a whole value of 100000 or more is taken for kuruş and kept. */
  lemma LargeWholeLiraKept()
    ensures MigrateValue(100000.0) == 100000.0
  {
  }

  function MigrateExpense(e: Expense): (e2: Expense)
    ensures e2 == e.(amount := e2.amount) && IsInteger(e2.amount)
  {
    e.(amount := MigrateValue(e.amount))
  }

  function MigrateCard(c: Card): (c2: Card)
    ensures c2 == c.(limit := c2.limit) && IsInteger(c2.limit)
  {
    c.(limit := MigrateValue(c.limit))
  }

  /** An asset's unit price is money; its quantity is not. */
  function MigrateAsset(a: AssetTrade): (a2: AssetTrade)
    ensures a2 == a.(price := a2.price) && IsInteger(a2.price) && a2.quantity == a.quantity
  {
    a.(price := MigrateValue(a.price))
  }

  function MigrateLog(l: BalanceLog): (l2: BalanceLog)
    ensures l2 == l.(amount := l2.amount) && IsInteger(l2.amount)
  {
    l.(amount := MigrateValue(l.amount))
  }

  function MigrateIncome(i: Income): (i2: Income)
    ensures i2 == i.(amount := i2.amount) && IsInteger(i2.amount)
  {
    i.(amount := MigrateValue(i.amount))
  }

  /** `forEach` converting every element of a list in place, as a value. */
  function MapEach<T>(f: T -> T, s: seq<T>): (r: seq<T>)
    ensures |r| == |s|
    ensures forall i :: 0 <= i < |s| ==> r[i] == f(s[i])
    decreases |s|
  {
    if |s| == 0 then [] else MapEach(f, s[..|s| - 1]) + [f(s[|s| - 1])]
  }

  /** A plan as written: its amount and its cashback value both converted, whatever the cashback kind. */
  function MigratePlanAsWritten(p: Plan): (p2: Plan)
    ensures p2 == p.(amount := p2.amount, cashbackValue := p2.cashbackValue)
    ensures IsInteger(p2.amount) && IsInteger(p2.cashbackValue)
  {
    p.(amount := MigrateValue(p.amount), cashbackValue := MigrateValue(p.cashbackValue))
  }

  /**
   * As written, a percent cashback is converted like money: a 100 lira plan
   * with 10 percent off, which charged 90 lira, becomes a plan with 1000
   * percent off and charges nothing.
   */
  lemma PercentCashbackAsWrittenCounterexample(p: Plan, ym: YearMonth)
    requires p.day == 1 && p.amount == 100.0 && p.cashbackType == Percent && p.cashbackValue == 10.0
    requires p.campaignEnd.None?
    ensures NetAmount(p, ym) == 90.0
    ensures MigratePlanAsWritten(p).cashbackValue == 1000.0
    ensures NetAmount(MigratePlanAsWritten(p), ym) == 0.0
  {
    MigrateWholeLira(100);
    MigrateWholeLira(10);
  }

  /**
   * A plan converted as intended: the amount always, the cashback value only
   * when it is a fixed amount of money; a percentage stays a percentage.
   */
  function MigratePlan(p: Plan): (p2: Plan)
    ensures p2 == p.(amount := p2.amount, cashbackValue := p2.cashbackValue)
    ensures IsInteger(p2.amount)
    ensures p.cashbackType.Percent? ==> p2.cashbackValue == p.cashbackValue
  {
    p.(amount := MigrateValue(p.amount),
       cashbackValue := if p.cashbackType.Fixed? then MigrateValue(p.cashbackValue) else p.cashbackValue)
  }

  /** A lira value with whole kuruş that needs converting is converted exactly. */
  lemma MigrateExact(v: real)
    requires NeedsMigration(v) && IsInteger(v * 100.0)
    ensures MigrateValue(v) == 100.0 * v
  {
    var k := (v * 100.0).Floor;
    assert v * 100.0 == k as real;
    RoundWhole(k);
  }

  /**
   * Converted as intended, a plan charges for every month exactly 100 times
   * what it charged before, when its amount and any fixed cashback are lira
   * values with whole kuruş.
   */
  lemma MigratePlanScalesCharge(p: Plan, ym: YearMonth)
    requires 1 <= p.day && NeedsMigration(p.amount) && IsInteger(p.amount * 100.0)
    requires p.cashbackType.Fixed? ==> NeedsMigration(p.cashbackValue) && IsInteger(p.cashbackValue * 100.0)
    ensures NetAmount(MigratePlan(p), ym) == 100.0 * NetAmount(p, ym)
  {
    var q := MigratePlan(p);
    MigrateExact(p.amount);
    if p.cashbackType.Fixed? {
      MigrateExact(p.cashbackValue);
    }
    assert q.amount == 100.0 * p.amount;
    if CampaignActive(p, ym) {
      assert CampaignActive(q, ym);
      var d := Discounted(p.amount, p.cashbackType, p.cashbackValue);
      assert Discounted(q.amount, q.cashbackType, q.cashbackValue) == 100.0 * d;
    }
  }

  // ---------------------------------------------------------------------------
  // Restoring a backup

  /**
   * The version a restore stores: 1 when the backup has none or one below 2,
   * so that the conversion runs on the next load, otherwise the backup's own.
   */
  function RestoredVersion(v: Option<int>): (r: int)
    ensures r >= 2 <==> v.Some? && v.value >= 2
    ensures r >= 2 ==> r == v.value
  {
    if v.None? || v.value < 2 then 1 else v.value
  }

  predicate NoDuplicates(s: seq<string>)
  {
    forall i, j :: 0 <= i < j < |s| ==> s[i] != s[j]
  }

  /** `[...new Set(s)]`: every value at its first position, later repeats removed. */
  function Dedupe(s: seq<string>): (r: seq<string>)
    ensures NoDuplicates(r)
    ensures forall x :: x in r <==> x in s
    decreases |s|
  {
    if |s| == 0 then []
    else
      var init, x := Dedupe(s[..|s| - 1]), s[|s| - 1];
      assert forall y :: y in s <==> y in s[..|s| - 1] || y == x;
      if x in s[..|s| - 1] then init else init + [x]
  }

  /** A list without repeats is its own set. */
  lemma {:induction false} DedupeNoDuplicates(s: seq<string>)
    requires NoDuplicates(s)
    ensures Dedupe(s) == s
    decreases |s|
  {
    if |s| > 0 {
      var init := s[..|s| - 1];
      DedupeNoDuplicates(init);
      assert s[|s| - 1] !in init;
      assert init + [s[|s| - 1]] == s;
    }
  }

  /** Appending values already present changes nothing. */
  lemma {:induction false} DedupeAbsorbs(s: seq<string>, t: seq<string>)
    requires forall x :: x in t ==> x in s
    ensures Dedupe(s + t) == Dedupe(s)
    decreases |t|
  {
    if |t| == 0 {
      assert s + t == s;
    } else {
      var init := t[..|t| - 1];
      assert (s + t)[..|s + t| - 1] == s + init;
      DedupeAbsorbs(s, init);
    }
  }

  /** Two lists with the same values and the same set order give the same set order whatever follows. */
  lemma {:induction false} DedupeSamePrefix(a: seq<string>, b: seq<string>, t: seq<string>)
    requires Dedupe(a) == Dedupe(b)
    requires forall x :: x in a <==> x in b
    ensures Dedupe(a + t) == Dedupe(b + t)
    decreases |t|
  {
    if |t| == 0 {
      assert a + t == a && b + t == b;
    } else {
      var init, x := t[..|t| - 1], t[|t| - 1];
      assert (a + t)[..|a + t| - 1] == a + init;
      assert (b + t)[..|b + t| - 1] == b + init;
      DedupeSamePrefix(a, b, init);
      assert x in a + init <==> x in b + init;
    }
  }

  const DefaultMethods: seq<string> := ["Nakit", "Havale / EFT"]
  const DefaultCategories: seq<string> :=
    ["Market", "Yemek", "Ulaşım", "Teknoloji", "Online Alışveriş", "Fatura", "Giyim", "Sağlık", "Eğlence", "Diğer"]

  /** A restored list: the defaults first, then the backup's own values, without repeats. */
  function MergeWithDefaults(defaults: seq<string>, saved: seq<string>): (r: seq<string>)
    ensures NoDuplicates(r)
    ensures forall x :: x in r <==> x in defaults || x in saved
  {
    Dedupe(defaults + saved)
  }

  /** The defaults come first, in their own order. */
  lemma MergeKeepsDefaultsFirst(defaults: seq<string>, saved: seq<string>)
    requires NoDuplicates(defaults)
    ensures var r := MergeWithDefaults(defaults, saved);
            |defaults| <= |r| && r[..|defaults|] == defaults
  {
    DedupeNoDuplicates(defaults);
    DedupePrefix(defaults, saved);
  }

  /** The set order of a list starts with the set order of any prefix. */
  lemma {:induction false} DedupePrefix(s: seq<string>, t: seq<string>)
    ensures |Dedupe(s)| <= |Dedupe(s + t)| && Dedupe(s + t)[..|Dedupe(s)|] == Dedupe(s)
    decreases |t|
  {
    if |t| == 0 {
      assert s + t == s;
    } else {
      var init := t[..|t| - 1];
      assert (s + t)[..|s + t| - 1] == s + init;
      DedupePrefix(s, init);
      var d, m := Dedupe(s), Dedupe(s + init);
      assert (m + [t[|t| - 1]])[..|d|] == m[..|d|];
    }
  }

  /** The defaults are the ones the app ships, without repeats. */
  lemma DefaultsHaveNoDuplicates()
    ensures NoDuplicates(DefaultMethods) && NoDuplicates(DefaultCategories)
  {
  }

  /**
   * Restoring a backup that was itself made after a restore gives the same
   * list again: merging with the defaults is idempotent.
   */
  lemma MergeIdempotent(defaults: seq<string>, saved: seq<string>)
    requires NoDuplicates(defaults)
    ensures MergeWithDefaults(defaults, MergeWithDefaults(defaults, saved)) == MergeWithDefaults(defaults, saved)
  {
    var m := MergeWithDefaults(defaults, saved);
    MergeKeepsDefaultsFirst(defaults, saved);
    var rest := m[|defaults|..];
    assert m == defaults + rest;
    assert defaults + m == (defaults + defaults) + rest;
    DedupeNoDuplicates(defaults);
    DedupeAbsorbs(defaults, defaults);
    DedupeSamePrefix(defaults + defaults, defaults, rest);
    DedupeNoDuplicates(m);
  }
}
