/**
 * The records the ledger keeps. Amounts are kuruş (hundredths of a lira), held
 * as JavaScript numbers: whole numbers for everything entered through a form,
 * though cashback and the edit dialog can store fractions, so they are `real`.
 * Identifiers are abstract fresh numbers.
 */
module Entities {
  import opened Common
  import opened Calendar

  /** One spending record, cash or card; card payments are records too. */
  datatype Expense = Expense(
    id: nat,
    merchant: string,
    amount: real,
    payMethod: string,
    category: string,
    date: Date,
    isCredit: bool,
    isPayment: bool,
    isRecurring: bool,
    planId: Option<nat>)

  /** A credit card with its statement cutoff day and its limit. */
  datatype Card = Card(id: nat, name: string, cutoff: int, limit: real, brand: string, last4: string)

  /** One wallet movement: positive money in, negative money out. */
  datatype BalanceLog = BalanceLog(id: nat, title: string, amount: real)

  datatype CashbackType = NoCashback | Percent | Fixed

  /** A monthly obligation the engine turns into one expense per month. */
  datatype Plan = Plan(
    id: nat,
    name: string,
    amount: real,
    day: int,
    payMethod: string,
    autoPay: bool,
    active: bool,
    cashbackType: CashbackType,
    cashbackValue: real,
    campaignEnd: Option<Date>,
    lastProcessed: Option<YearMonth>,
    createdAt: Option<YearMonth>)

  /** A monthly income credited to the wallet. */
  datatype Income = Income(id: nat, name: string, amount: real, day: int, active: bool, lastProcessed: Option<YearMonth>)

  datatype TradeKind = Buy | Sell

  /** One purchase or sale of an asset: a quantity at a unit price in kuruş. */
  datatype AssetTrade = AssetTrade(id: nat, assetType: string, quantity: real, price: real, kind: TradeKind, date: Date)

  /** The ledger's own category for card payments and the merchant text it records. */
  const PaymentMerchant: string := "Kredi Kartı Borç Ödeme"
  const PaymentCategory: string := "Kart Ödemesi"
  /** The category the engine gives every materialised obligation. */
  const SubscriptionCategory: string := "Abonelik"
}
