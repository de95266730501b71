# Cebimdeki Kasa ledger core, modelled in Dafny

Cebimdeki Kasa ("the cash in my pocket") is a single-page personal-ledger app.
All its logic sits in `main.js`. This project models the money and date engine
behind the pages, not the pages themselves. The engine covers:

- **Cash and the wallet.** Expenses are paid in cash, by transfer or by credit
  card. The wallet balance is the sum of `balanceLogs`. Every cash mutation
  writes a compensating wallet entry.
- **Credit cards.** Each card has a cut-off day and a limit. The model covers:
  - billing windows, due dates moved to the next Turkish working day, debt and
    remaining limit;
  - installment purchases and debt payments;
  - renaming a card (its records follow it) and deleting a card (its records
    and plans go with it).
- **Recurring plans.** A monthly catch-up engine materialises subscriptions
  with cashback and campaign ends, and skips a month when the card's limit is
  short. Plans can be added, edited, paused, resumed and deleted.
- **Recurring income.** An engine credits income at most once a month.
- **Versioning and backups.** A data-version-gated conversion moves stored lira
  amounts to integer kuruş. Backups store a version number, merge default lists
  on restore, and use dated file names.

## Model structure

Every entity that the source updates is a value (`Entities`). The ledger's state
is the class `Ledger.State`:

- its fields are the app's `state` arrays, a data version, and a counter that
  hands out fresh identifiers;
- `Model()` packs the fields into a `Snapshot` value;
- `Valid()` is `Consistent(Model())`: unique identifiers below the counter, and
  well-formed plans.

Each method of `State` is proved against a function on snapshots. Those
functions, and the value-level loops (`CatchUp`, `RunAllPlans`,
`BookInstallments`, `RenameAll`, `CreditIncomes`, `ConvertEach`), are in turn
related to the specifications in the other modules.

The other modules:

| module | contents |
|---|---|
| `Calendar` | calendar dates, month indices, the month overflow `new Date(y, m, d)` performs, the day walk, the weekday |
| `Holidays` | the holiday table and the bounded next-working-day walk |
| `Names` | `trim`, `toLowerCase` and the three ways the code compares names |
| `Billing` | billing windows and due dates |
| `Books` | the filter-and-sum queries over the records, debt, remaining limit, wallet balance and holdings (the wallet balance plus every cash expense) |
| `Cards` | card statements, admission checks, installment splitting and dating, renames and deletes |
| `Wallet` | the compensating wallet entries and identifier freshness |
| `Recurring` | the plan engine (`Walk`, `ProcessPlan`, `RunPlans`), the income engine and the plan form |
| `Migration` | the kuruş conversion and the restore rules |
| `DateText` | ISO and Turkish date text, the backup file name and the file-name date parser |

Modelling choices:

- **Money.** Stored amounts are `real`, because JavaScript numbers may carry
  fractions (percent cashback, lira before the conversion). Amounts entered
  through forms, already converted to kuruş, are `int`.
- **Dates** are `(year, month, day)` triples.
- **"Today"** is a parameter.
- **Identifiers** are drawn from the counter `nextId`.

## Model

| member | source | states |
|---|---|---|
| `Common.Round` | main.js:2221 | `Math.round` gives the integer within half a unit of its argument, rounding halves up |
| `Calendar.DaysInMonth` | main.js:1090 | a month has 28 to 31 days: 28 exactly for February outside leap years, 29 for February in leap years, 30 for April, June, September and November |
| `Calendar.FromIndex` | main.js:1089-1093 | a month index counted from January of year 0 gives a valid (year, month) whose index is that number, as JavaScript's month overflow normalises it |
| `Calendar.FromIndexOfMonthIndex` | main.js:1089-1093 | converting a valid month to its index and back gives the month again |
| `Calendar.MonthIndexInjective` | main.js:3869-3870 | two valid months with the same index are the same month |
| `Calendar.MonthOfShift` | main.js:1299-1300 | moving `m0` months on from January of year `y` lands in calendar month `m0 % 12 + 1` |
| `Calendar.NextMonth` | main.js:3869-3870 | the engine's month step (`m++`, with a carry into the next year past December) gives the month whose index is one more |
| `Calendar.ClampedDate` | main.js:1089-1093 | getClampedDate gives a calendar date in month `y*12 + m0`; its day is the requested day or, if smaller, the last day of that month |
| `Calendar.ClampedDayIsMin` | main.js:1091 | the clamped day is exactly `min(day, daysInMonth)` |
| `Calendar.ClampedDateExamples` | main.js:1089-1093 | month -1 of 2024 is December 2023, and a day that fits its month is kept |
| `Calendar.ClampedFebruaryExamples` | main.js:1089-1093 | the 31st clamped into February is the 29th in 2024 and the 28th in 2023 |
| `Calendar.OverflowDate` | main.js:3888 | `new Date(y, m, day)` without clamping is a calendar date no earlier than month `y*12 + m`, and is exactly that day when the day fits the month |
| `Calendar.NextDay` | main.js:2321 | `setDate(getDate() + 1)` gives a calendar date strictly later than the given one |
| `Calendar.AddDays` | main.js:1219-1220 | moving a calendar date `n` days forward gives a calendar date |
| `Calendar.AddDaysSucc` | main.js:1220 | `n + 1` days forward is one day after `n` days forward |
| `Calendar.Weekday` | main.js:2316 | `getDay()` is a number from 0 (Sunday) to 6 (Saturday) |
| `Calendar.NextDayWeekday` | main.js:2316-2321 | each step of one calendar day moves the weekday on by one, modulo 7 |
| `Calendar.WeekdayAnchor` | main.js:2316 | the weekday numbering is anchored: 11 October 2026 is a Sunday |
| `Holidays.MergedHolidayName` | main.js:2300-2301 | in 2027, 19 May is listed once, under a name that joins Youth Day and the fourth day of the Feast of Sacrifice |
| `Holidays.WorkDayWalk` | main.js:2307-2327 | the walk with a step budget always stops on a calendar date |
| `Holidays.NextWorkDay` | main.js:2307-2327 | the loop of at most 60 iterations returns what the walk specification `WorkDayWalk(date, 60)` gives |
| `Holidays.SkipCount` | main.js:2311-2324 | the walk skips no more days than its budget |
| `Holidays.WorkDayWalkSteps` | main.js:2311-2324 | the walk stops `SkipCount` days on; every day it skipped is a weekend day or a listed holiday; unless the budget ran out it stops on a working day |
| `Holidays.WorkDayWalkSpec` | main.js:2307-2327 | the result lies 0 to `budget` days (60 in the code) after the start; every earlier day is a weekend day or a holiday, so the start itself is returned when it is a working day; unless the budget ran out the result is a working day |
| `Names.SkipSpaceForward` | main.js:497 | finds the first non-white-space position at or after `i`, skipping only white space |
| `Names.SkipSpaceBackward` | main.js:497 | finds the position after the last non-white-space character before `j`, skipping only white space |
| `Names.Trim` | main.js:497 | `trim()` never lengthens a string |
| `Names.TrimSpec` | main.js:497 | the trimmed text is the slice of the input between its first and last non-white-space characters, and what was cut off is white space |
| `Names.TrimIdempotent` | main.js:497 | trimming a trimmed string changes nothing |
| `Names.LowerChar` | main.js:497 | `toLowerCase` on one character gives one or two characters (capital dotted I becomes `i` plus a combining dot) |
| `Names.Lower` | main.js:497 | lower-casing keeps a string's length or at most doubles it |
| `Names.LowerCharFixed` | main.js:497 | every character `LowerChar` produces is already lower case |
| `Names.LowerIdempotent` | main.js:497 | lower-casing twice gives the same as lower-casing once |
| `Names.ComparisonsNested` | main.js:495-498 | on non-empty names, exact equality implies `namesMatch`, and `namesMatch` implies the inline trim-and-lower comparison |
| `Names.ComparisonsDisagree` | main.js:495-498 | the converses fail: `"A"` and `"a "` match loosely but not exactly, and two blank names match after normalising but not under `namesMatch` |
| `Names.NormaliseExamples` | main.js:1148 | concrete normalisations: case and surrounding spaces are removed |
| `Names.NamesMatchEquivalence` | main.js:495-498 | `namesMatch` is symmetric and transitive, and reflexive on non-empty names |
| `Names.NormaliseIdempotent` | main.js:1148 | the trim-and-lower key is stable under normalising again |
| `Billing.ReferenceDay` | main.js:1202-1203 | the viewed day is a calendar date `offset` months from today, and is today itself when the offset is 0 |
| `Billing.BillingWindow` | main.js:1204-1213 | both ends of the billing window are calendar dates |
| `Billing.BillingWindowSpec` | main.js:1207-1213 | the window contains the viewed day; its ends lie in consecutive months and are the cut-off clamped to each month; before the cut-off it starts in the previous month, otherwise in the viewed month |
| `Billing.WindowBeforeCutoff` | main.js:1207-1209 | with cut-off 15, 10 January 2024 lies in the window 15 December 2023 to 15 January 2024 |
| `Billing.WindowFromCutoff` | main.js:1210-1212 | with cut-off 15, a day on or after the 15th of January 2024 lies in the window 15 January to 15 February 2024 |
| `Billing.DueDateSpec` | main.js:1219-1221 | the due date lies 10 to 70 days after the window's end; every day from the tenth day up to the due date is a weekend day or a holiday; it is the tenth day itself when that is a working day |
| `Books.BalanceAppend` | main.js:3983 | appending one wallet entry moves the balance by exactly its amount |
| `Books.FindCard` | main.js:3910 | `find` returns the first card whose name matches under the given comparison, and nothing exactly when no card matches |
| `Books.Drop` | main.js:1430 | `filter(x => !f(x))` keeps exactly the records `f` rejects |
| `Books.TotalDrop` | main.js:2002 | removing the records a filter selects lowers every sum by exactly their share of it |
| `Books.TotalOfId` | main.js:2002 | with unique identifiers, removing by identifier removes exactly one record's share |
| `Books.TotalMonotone` | main.js:1233-1235 | with no negative amounts, a filter that selects fewer records sums to no more |
| `Books.Debt` | main.js:1237-1243 | debt is never negative, is at least spends minus payments, and is either 0 or exactly spends minus payments |
| `Books.Remaining` | main.js:1244 | remaining limit is the limit minus the debt, so never above the limit |
| `Books.ExtendsDebt` | main.js:3912-3916 | appending spends with no negative amount never lowers a card's debt, under any name comparison |
| `DateText.NatToString` | main.js:376-378 | `String(n)` of a natural number is a non-empty run of digits |
| `DateText.NatToStringRoundTrip` | main.js:173 | `parseInt` of `String(n)` gives `n` back |
| `DateText.FourDigits` | main.js:378-379 | a year from 1000 to 9999 is written with exactly four digits |
| `DateText.Pad2` | main.js:376-377 | `padStart(2, '0')` of a number below 100 gives two digits that read back as the number |
| `DateText.LocalDateISO` | main.js:501-506 | getLocalDateISO is the year's digits followed by six more characters (`-MM-DD`) |
| `DateText.Split` | main.js:1835 | `split` gives at least one part |
| `DateText.SplitNone` | main.js:1835 | a string without the separator splits into itself alone |
| `DateText.SplitJoin` | main.js:1835 | splitting `a + sep + b`, where `a` contains no separator, gives `a` followed by the parts of `b` |
| `DateText.FormatWithoutSeparator` | main.js:1835 | formatDateTR of text without a `-` shows `undefined.undefined.` followed by the text |
| `DateText.FormatStoredDate` | main.js:1835 | formatDateTR of a stored ISO date is `DD.MM.YYYY` |
| `DateText.BackupFileName` | main.js:374-379 | the backup name is the day's Turkish date text followed by ` tarihli Cebimdeki Kasa.json` |
| `DateText.FirstMatch` | main.js:2142 | `match` without the global flag finds the leftmost position at or after the start where the pattern fits, or reports none when it fits nowhere |
| `DateText.BackupFileNameHasNoDash` | main.js:374-379 | a backup file name contains no `-` |
| `DateText.NoIsoMatchWithoutDash` | main.js:2142-2143 | a name without `-` has no `YYYY-MM-DD` match, so the parser falls through to `DD.MM.YYYY` |
| `DateText.BackupFileNameRoundTrip` | main.js:2142-2149 | reading the date back from a generated backup name gives the day it was generated for, for every four-digit year |
| `Cards.DebtIsClampedNet` | main.js:1241-1243 | a card's debt is `max(0, spends - payments)` |
| `Cards.CardStatementSpec` | main.js:1202-1244 | the single-card statement's window contains the viewed day; the due date is 10 to 70 days after the window's end; the remaining limit is the limit minus the all-time debt; the period debt is never negative and, with no negative amounts, never exceeds the all-time debt |
| `Cards.LaterSpendNotInPeriod` | main.js:1233-1235 | a spend dated after the window's end does not change the period debt |
| `Cards.AllCardsOverviewSpec` | main.js:1128-1180 | the all-cards period debt is never negative, the remaining limit never exceeds the total limit, and with no negative amounts a card's own spends are no more than the spends the overview counts over all cards |
| `Cards.UnmatchedNotInPeriod` | main.js:1147-1149 | a record whose method names no card, after normalising, is never in the all-cards period |
| `Cards.PaymentRecord` | main.js:2423-2433 | a debt payment is recorded as a credit-card payment of the amount under the card's name |
| `Cards.AdmittedPayment` | main.js:2408-2433 | an admitted payment lowers the card's net balance by exactly its amount under the exact and the loose comparison, and never raises the debt |
| `Cards.JsRem` | main.js:1291 | JavaScript `%` lies strictly between `-n` and `n` and takes the sign of the dividend |
| `Cards.SplitAsWritten` | main.js:1290-1296 | the code's split gives exactly `n` installments |
| `Cards.Split` | main.js:1290-1296 | the corrected split gives exactly `n` installments |
| `Cards.SplitSpec` | main.js:1289-1296 | the corrected installments sum to the total; each after the first is `floor(total / n)`; the first carries the non-negative remainder below `n` |
| `Cards.SplitAsWrittenAgrees` | main.js:1289-1296 | for a total that is not negative, the code's split equals the corrected one |
| `Cards.JsRemOfNegative` | main.js:1291 | on a negative dividend JavaScript's `%` is the floored remainder less `n`, or 0 when `n` divides it |
| `Cards.SplitAsWrittenSum` | main.js:1289-1296 | the code's installments sum to the total with the truncated remainder in place of the floored one: never more than the total, and exactly the total when the total is not negative or `n` divides it |
| `Cards.SplitAsWrittenLoses` | main.js:1289-1296 | for a negative total that `n` does not divide, the code's installments sum to less than the total |
| `Cards.SplitAsWrittenExample` | main.js:1289-1296 | -500 kuruş over 3 installments books -169, -167, -167, which is 503 kuruş |
| `Cards.InstallmentDateClamped` | main.js:1294-1305 | installment `i` falls on the purchase day clamped to the last day of the month `i` months after the purchase |
| `Cards.InstallmentRecord` | main.js:1309-1320 | an installment is a credit spend of its part under the card's name, recurring only when the purchase is and it is the first |
| `Cards.Installments` | main.js:1293-1321 | the loop builds one record per installment |
| `Cards.InstallmentsAt` | main.js:1293-1321 | record `i` is installment `i`, with identifier `firstId + i` |
| `Cards.AdmittedSpendKeepsLimit` | main.js:1270-1296 | an admitted purchase, booked as the code's installments on the card, raises the card's net balance by the sum of the installments: exactly its amount when the amount is not negative, never more than the amount otherwise; the debt stays at most 0.1 kuruş over the limit |
| `Cards.Renamed` | main.js:1394 | each record paid exactly under the old name now names the new one, and every other record is unchanged |
| `Cards.RenamedTotals` | main.js:1394 | after a rename, the new name's spends and payments are the old name's plus what the new name already had |
| `Cards.RenamedLeavesNothing` | main.js:1394 | after a rename, nothing is recorded under the old name |
| `Cards.RenamedDebt` | main.js:1393-1394 | when no record used the new name before, the old name's debt becomes the new name's |
| `Cards.RenamedKeepsCash` | main.js:1394 | a rename changes no cash total, so the wallet plus cash expenses is unchanged |
| `Cards.IndexOf` | main.js:1395 | `indexOf` is the first position holding the value, and nothing exactly when the value is absent |
| `Cards.RenamedMethods` | main.js:1395-1397 | after a rename the method list contains the new name and has grown by at most one entry |
| `Cards.RenamedMethodsKeepOthers` | main.js:1395-1397 | every other entry of the method list stays where it was |
| `Cards.PlansNotOn` | main.js:1434 | the surviving plans are exactly those whose method does not match the card's name under `namesMatch` |
| `Cards.DeletedCardHasNoDebt` | main.js:1430 | after the cascade, the deleted card's name carries no debt under `namesMatch` |
| `Cards.CardsWithout` | main.js:1425 | the surviving cards are exactly those with another identifier |
| `Cards.CardIndex` | main.js:1384 | `findIndex` by identifier gives the first matching position, and nothing exactly when no card has that identifier |
| `Cards.CardById` | main.js:1266 | `find` by identifier gives a card with that identifier, and nothing exactly when there is none |
| `Wallet.ExpenseIndex` | main.js:1985 | `find` by identifier gives the first matching position, and nothing exactly when no record has that identifier |
| `Wallet.AppendFresh` | main.js:1310 | records appended under consecutive identifiers from the counter keep the identifiers unique and below the advanced counter |
| `Wallet.DropFresh` | main.js:2002 | removing records keeps the identifiers unique and below the counter |
| `Wallet.UpdateFresh` | main.js:3052-3060 | overwriting a record with one that has the same identifier keeps the identifiers unique |
| `Wallet.RenamedFresh` | main.js:1394 | a rename changes no identifier |
| `Wallet.CashRecord` | main.js:940-949 | the expense form records a cash spend of the amount, not tied to a plan |
| `Wallet.CashLog` | main.js:953-959 | its wallet entry takes the amount out |
| `Wallet.CashPairKeepsHoldings` | main.js:940-959 | a cash record with a wallet entry of the opposite amount keeps the wallet plus cash expenses unchanged |
| `Wallet.CardRecordsKeepHoldings` | main.js:1309-1320 | appending credit records changes neither the wallet nor the cash expenses |
| `Wallet.EditLogs` | main.js:1942-1955 | an edit writes one wallet entry, of `old - new`, exactly for a cash record whose amount changed, and none otherwise |
| `Wallet.EditedExpense` | main.js:1959 | an edit keeps a record's identifier, method and flags, and sets the new amount |
| `Wallet.EditKeepsHoldings` | main.js:1942-1959 | an edit together with its correction keeps the wallet plus cash expenses unchanged |
| `Wallet.DeleteLogs` | main.js:1990-1997 | a delete writes one refund, of the record's amount, exactly for a cash record |
| `Wallet.DeleteKeepsHoldings` | main.js:1990-2002 | with unique identifiers, a delete together with its refund keeps the wallet plus cash expenses unchanged |
| `Wallet.PaymentLog` | main.js:2436-2442 | a debt payment's wallet entry takes the amount out |
| `Wallet.PaymentHoldings` | main.js:2423-2442 | a debt payment lowers the wallet plus cash expenses by exactly the amount paid |
| `Wallet.ManualAmount` | main.js:4135-4138 | a manual entry is never positive for money out and never negative for money in |
| `Wallet.ManualAmountMagnitude` | main.js:4135-4138 | its magnitude is within half a kuruş of the amount entered times 100, whatever the sign entered |
| `Wallet.TradeRecord` | main.js:2799-2807 | a trade records its kind, asset, quantity and unit price |
| `Wallet.TradeLog` | main.js:2812-2819 | a trade moves the rounded quantity times price out of the wallet for a purchase, and into it for a sale |
| `Wallet.TradeHeld` | main.js:2788-2809 | a trade moves the holding of its own asset by its quantity (up for a purchase, down for a sale) and leaves other assets alone; an admitted sale never makes a holding negative |
| `Recurring.NetAmount` | main.js:3884-3901 | the engine's charge is never negative, is at most the amount, equals the amount after the campaign or without cashback |
| `Recurring.PercentExample` | main.js:3895-3896 | ten percent off 100 lira charges 90 lira |
| `Recurring.FixedExample` | main.js:3897-3900 | a fixed cashback larger than the amount charges nothing |
| `Recurring.CampaignOverExample` | main.js:3886-3889 | a campaign that ended on 28 February 2026 does not cover 15 March 2026 |
| `Recurring.MonthRecord` | main.js:3904-3906 | the materialised record is dated in its month, on the plan day clamped to the month's length |
| `Recurring.PlanVisitAppends` | main.js:3924-3948 | a materialised month appends exactly one spend of no negative amount under a fresh identifier in that month; its wallet entry, when there is one, keeps the wallet plus cash expenses unchanged |
| `Recurring.PlanVisitShaped` | main.js:3925-3937 | every record the engine appends is the plan's record: recurring, in the subscription category, with the net amount, credit exactly when a card matched |
| `Recurring.EndIndex` | main.js:3872-3880 | the walk reaches the current month exactly when today is on or after the plan day clamped to this month, otherwise it stops at the month before |
| `Recurring.ProcessPlan` | main.js:3840-3961 | processing changes no field of the plan but its marker, and leaves a paused or manual plan and the records alone |
| `Recurring.Marked` | main.js:3951-3952 | the marker moves to the last month materialised when there is one; otherwise the plan is unchanged |
| `Recurring.RunPlans` | main.js:3840-3962 | the run keeps the number of plans, changes only their markers, and keeps every plan well formed |
| `Recurring.WalkPrefix` | main.js:3867-3961 | a walk keeps the existing records as a prefix and uses one fresh identifier per appended record |
| `Recurring.WalkAppends` | main.js:3924-3948 | a walk only appends spends of no negative amount, only appends to the wallet, and keeps the wallet plus cash expenses unchanged |
| `Recurring.WalkMarker` | main.js:3951-3954 | the marker is unchanged exactly when the records are unchanged; otherwise it is a month of the walk, and every month of the walk after it was refused |
| `Recurring.WalkRefused` | main.js:3918-3921 | a walk over months that are all refused for lack of limit changes nothing |
| `Recurring.WalkIds` | main.js:3925-3926 | the appended records carry consecutive fresh identifiers |
| `Recurring.WalkShapes` | main.js:3925-3937 | every appended record has the shape the month's visit gives it |
| `Recurring.WalkMonths` | main.js:3867-3906 | every appended record is dated in a month the walk visits |
| `Recurring.WalkMarkerMonth` | main.js:3951-3952 | the marker ends on the month of the last appended record |
| `Recurring.WalkMonthsIncrease` | main.js:3867-3873 | the months of the appended records strictly increase, so no month is materialised twice |
| `Recurring.RefusalStays` | main.js:3910-3921 | a month refused for lack of limit stays refused once more spends are recorded |
| `Recurring.MarkerIrrelevant` | main.js:3910-3921 | whether a month is refused does not depend on the plan's marker |
| `Recurring.ProcessPlanSettles` | main.js:3840-3961 | processing a plan only appends spends of no negative amount, only appends to the wallet, keeps the wallet plus cash expenses, keeps the plan well formed, and leaves it settled: every month it would still visit is refused |
| `Recurring.ProcessSettled` | main.js:3840-3961 | a settled plan and the records are left exactly as they are |
| `Recurring.SettledStays` | main.js:3910-3921 | a settled plan stays settled when more spends are recorded |
| `Recurring.RunPlansAppends` | main.js:3840-3962 | a run only appends spends of no negative amount, only appends to the wallet, and keeps the wallet plus cash expenses unchanged |
| `Recurring.ProcessPlanIds` | main.js:3925-3926 | processing a plan appends records under consecutive fresh identifiers and moves the counter past them |
| `Recurring.RunPlansIds` | main.js:3840-3962 | a run appends records under consecutive fresh identifiers and moves the counter past them |
| `Recurring.RunPlansSettles` | main.js:3840-3962 | after a run every plan is settled against the records the run produced |
| `Recurring.RunPlansLast` | main.js:3840 | the run over one more plan processes it against what the earlier plans left |
| `Recurring.RunSettled` | main.js:3840-3962 | with every plan settled, a run changes nothing |
| `Recurring.RunPlansIdempotent` | main.js:3834-3975 | a second run on the same day adds no record and moves no marker |
| `Recurring.RunIncome` | main.js:2919-2940 | the income run changes only markers: an income due today takes this month as its marker, and any other is unchanged |
| `Recurring.RunIncomeBalance` | main.js:2919-2940 | the run appends one wallet entry and one fresh identifier per income due, and the balance rises by exactly the amounts due |
| `Recurring.RunIncomeOncePerMonth` | main.js:2921 | an income credited today is not due again on any day of the same month |
| `Recurring.RunIncomeNothingDue` | main.js:2919-2922 | with nothing due, the run changes nothing |
| `Recurring.RunIncomeIdempotent` | main.js:2913-2940 | a second run on the same day credits nothing more |
| `Recurring.IncomeDayPastMonthEnd` | main.js:2922 | an income whose day lies past the end of the current month is never due this month |
| `Recurring.IncomeOn31stSkipsApril` | main.js:2922-2925 | an income on the 31st is not credited on 30 April 2026 |
| `Recurring.NewPlan` | main.js:3069-3086 | a new plan is active, well formed, under the fresh identifier, with no creation month |
| `Recurring.NewPlanStartsNow` | main.js:3069-3074 | the engine's walk for a new plan never starts before the current month: it starts at the current month when the plan's day has not yet passed, and after it otherwise |
| `Recurring.NewPlanPastDayIdle` | main.js:3072-3073 | a plan whose day has already passed is left alone by the engine this month |
| `Recurring.EditedPlan` | main.js:3019-3028 | an edit keeps the plan's identifier, state, marker and creation month, and stays well formed |
| `Recurring.EditNet` | main.js:3035-3044 | the edit path's charge is never negative, is at most the amount, and is the full amount (floored at zero) when the campaign is over or there is no cashback |
| `Recurring.CampaignEndDayDisagreement` | main.js:3037-3038 | on the campaign's last day, the engine charges the discounted amount and the edit path the full amount |
| `Recurring.FirstOfPlanInMonth` | main.js:3046 | `findIndex` gives the first record of the plan in the month, and nothing exactly when there is none |
| `Recurring.EditedRecord` | main.js:3047-3060 | the rewritten record keeps its identifier, plan, category and flags, takes the edit path's charge and the plan's name, is credit exactly when a card matches, and is dated on the unclamped plan day of this month |
| `Recurring.EditedDateUnclamped` | main.js:3050 | a plan moved to the 31st and edited in April gets a record dated 31 April, which is not a calendar date |
| `Recurring.PlanIndex` | main.js:3017 | `findIndex` by identifier gives the first matching plan, and nothing exactly when there is none |
| `Recurring.PlansWithout` | main.js:3273 | the surviving plans are exactly those with another identifier |
| `Recurring.DropPlanMonth` | main.js:3241 | the surviving records are exactly those that are not the plan's record in the month |
| `Recurring.DropPlanMonthHoldings` | main.js:3241 | pause and delete refund nothing: the wallet plus cash expenses falls by the cash records removed |
| `Recurring.PauseResumeLosesMonth` | main.js:3238-3249 | pausing and resuming in the month a plan was charged loses that month: the record is gone and the engine does not charge it again |
| `Migration.MigrateValue` | main.js:432-443 | a converted value is an integer; a value that does not look like lira is kept; one that does becomes within half a kuruş of 100 times itself; non-negative stays non-negative |
| `Migration.MigrateWholeLira` | main.js:436-442 | a whole value below 100000, taken for lira, is multiplied by 100 exactly |
| `Migration.MigrateTwiceScalesTwice` | main.js:427 | without the version gate the conversion is not idempotent: 5 becomes 500, then 50000 |
| `Migration.LargeWholeLiraKept` | main.js:436 | the heuristic's blind spot: a whole value of 100000 or more is taken for kuruş and left alone |
| `Migration.MigrateExact` | main.js:441-442 | a lira value with whole kuruş that needs converting is converted exactly |
| `Migration.MigrateExpense` | main.js:440-444 | an expense changes only its amount, which becomes an integer |
| `Migration.MigrateCard` | main.js:447-451 | a card changes only its limit, which becomes an integer |
| `Migration.MigrateAsset` | main.js:454-458 | a trade changes only its price, which becomes an integer; its quantity is kept |
| `Migration.MigrateLog` | main.js:461-465 | a wallet entry changes only its amount, which becomes an integer |
| `Migration.MigrateIncome` | main.js:478-482 | an income changes only its amount, which becomes an integer |
| `Migration.MapEach` | main.js:440-444 | the in-place `forEach` gives a list of the same length with each element converted |
| `Migration.MigratePlanAsWritten` | main.js:468-475 | the plan as the code converts it: amount and cashback value both become integers, whatever the cashback kind |
| `Migration.PercentCashbackAsWrittenCounterexample` | main.js:472-474 | as written, a 100-lira plan with 10 percent cashback, which charged 90 lira, becomes a plan with 1000 percent cashback that charges nothing |
| `Migration.MigratePlan` | main.js:468-475 | the corrected conversion turns the amount into an integer and keeps a percent cashback as it is |
| `Migration.MigratePlanScalesCharge` | main.js:468-475 | under the corrected conversion, a plan whose amount and fixed cashback are in lira charges exactly 100 times as much in every month |
| `Migration.RestoredVersion` | main.js:2164-2168 | the restored version is 2 or more exactly when the backup's is, and then it is the backup's version; otherwise it is below 2, so the conversion runs again |
| `Migration.Dedupe` | main.js:2116 | `[...new Set(s)]` has no repeats and holds exactly the values of `s` |
| `Migration.DedupeNoDuplicates` | main.js:2116 | a list without repeats is its own set |
| `Migration.DedupeAbsorbs` | main.js:2116 | appending values already present changes nothing |
| `Migration.MergeWithDefaults` | main.js:2112-2117 | a restored list has no repeats and holds exactly the defaults and the backup's values |
| `Migration.MergeKeepsDefaultsFirst` | main.js:2116 | the defaults come first, in their own order |
| `Migration.DefaultsHaveNoDuplicates` | main.js:2112-2113 | the shipped default methods and categories have no repeats |
| `Migration.MergeIdempotent` | main.js:2116-2117 | restoring a backup that was itself made after a restore gives the same list again |
| `Ledger.RunEngine` | main.js:3834-3975 | the engine keeps the ledger consistent, changes only the records, the wallet, the counter and the plans, only appends spends, and keeps the wallet plus cash expenses unchanged |
| `Ledger.RunEngineIdempotent` | main.js:3834-3975 | running the engine twice on the same day does the same as running it once |
| `Ledger.CatchUp` | main.js:3864-3961 | the month loop of one plan returns what the walk specification `Walk` gives |
| `Ledger.CatchUpPlan` | main.js:3840-3961 | one plan's processing returns what `ProcessPlan` gives |
| `Ledger.RunAllPlans` | main.js:3840-3962 | the `forEach` over the plans returns what `RunPlans` gives |
| `Ledger.BookInstallments` | main.js:1293-1321 | the installment loop appends exactly the installment records |
| `Ledger.RenameAll` | main.js:1394 | the rename loop gives exactly `Renamed` |
| `Ledger.CreditIncomes` | main.js:2919-2940 | the income loop gives exactly what `RunIncome` gives |
| `Ledger.ConvertEach` | main.js:440-444 | a conversion `forEach` converts every element |
| `Ledger.Migrated` | main.js:426-492 | the conversion leaves a migrated ledger alone; afterwards the version is 2; consistency, list lengths, identifiers and plan days are kept; every expense amount is an integer; every plan's cashback value is converted, a percentage included |
| `Ledger.ConvertAll` | main.js:439-485 | the six conversion loops, plans converted as written, together give `Migrated` |
| `Ledger.FirstStartMigrated` | main.js:419 | a first start stores version 1; init's conversion (main.js:587) on the empty lists only raises it to 2, giving the constructor's state |
| `Ledger.MigratedIdempotent` | main.js:426-492 | converting twice is converting once |
| `Ledger.PlanSaved` | main.js:3014-3086 | saving a plan keeps the ledger consistent, the cards and the wallet, and every record's identifier; an add appends the new plan; an edit keeps the number of plans and the counter |
| `Ledger.Paused` | main.js:3235-3242 | pausing removes the plan's record for this month without refund: the wallet plus cash expenses falls by its cash share |
| `Ledger.Resumed` | main.js:3235 | resuming activates the plan; the engine then takes it up exactly when it is an auto-pay plan |
| `Ledger.PlanDeleted` | main.js:3268-3273 | deleting removes the plan and its record for this month, without refund |
| `Ledger.CardAdded` | main.js:1402-1404 | the card is appended under the fresh identifier, and its trimmed name joins the methods if it was missing; nothing else changes |
| `Ledger.CardEdited` | main.js:1384-1398 | the card is overwritten in place, keeping its identifier; records keep their number and change only their method; the new name is in the methods; the wallet plus cash expenses is unchanged |
| `Ledger.RenamedPayMethod` | main.js:1393-1397 | a rename changes only the records' methods and the method list, keeps consistency and the wallet plus cash expenses, and puts the new name in the methods |
| `Ledger.CardSaved` | main.js:1375-1410 | an invalid form or an unknown card changes nothing; otherwise the card is added or edited; consistency and the wallet plus cash expenses are kept |
| `Ledger.RenamedCardKeepsDebt` | main.js:1393-1397 | renaming a card moves its debt to the new name and leaves none under the old name |
| `Ledger.CardDeleted` | main.js:1421-1435 | the card goes; when it had a name, exactly the records and plans that match it under `namesMatch` go too, its debt becomes 0, and the wallet plus cash expenses falls by the removed cash records |
| `Ledger.BookedPurchase` | main.js:1270-1321 | a purchase booked as installments keeps the ledger consistent and the wallet untouched; on a named card with a limit it raises the card's net by the sum of the code's installments, which is the amount when the amount is not negative, and keeps the debt within 0.1 kuruş of the limit |
| `Ledger.BookedPayment` | main.js:2404-2442 | an admitted debt payment keeps the ledger consistent, takes its amount out of the wallet, and lowers a named card's net by the amount |
| `Ledger.State.constructor` | main.js:400-420 | the state after init on a first start: empty lists, the default methods and categories, and data version 2, which init's conversion (main.js:587) sets over the stored version 1 (main.js:419) |
| `Ledger.State.AddExpense` | main.js:923-974 | a cash expense is recorded exactly when the form check passes (non-blank merchant, positive amount, accepted year, method not exactly a card's name), together with its withdrawal; otherwise nothing changes; the wallet plus cash expenses is unchanged either way |
| `Ledger.State.EditExpense` | main.js:1935-1966 | an edit happens exactly when the merchant is given, the amount is non-zero and the record exists; it rewrites the record and writes the correction; the wallet plus cash expenses is unchanged |
| `Ledger.State.DeleteExpense` | main.js:1984-2011 | a delete happens exactly when the record exists; afterwards no record has the identifier and the cash refund is written; the wallet plus cash expenses is unchanged |
| `Ledger.State.AddBalanceLog` | main.js:4125-4154 | an entry is added exactly when the amount, a non-blank title and a date are given; the balance moves by the signed amount entered |
| `Ledger.State.TradeAsset` | main.js:2777-2828 | a trade is recorded exactly when admitted; the balance moves by its value and the holding by its quantity; a sale never makes a non-negative holding negative |
| `Ledger.State.CheckRecurringTransactions` | main.js:3834-3975 | the ledger becomes `RunEngine` of the old ledger |
| `Ledger.State.CheckRecurringIncome` | main.js:2913-2947 | the wallet, the counter and the incomes become what `RunIncome` gives; the balance rises by exactly the amounts due |
| `Ledger.State.AddRecurringPlan` | main.js:2987-3117 | a plan is saved exactly when the limit check and then the field check pass, and the engine then runs; otherwise nothing changes |
| `Ledger.State.ToggleRecurringStatus` | main.js:3231-3261 | an existing plan is paused (its record for this month removed) or resumed (and the engine run); an unknown plan changes nothing |
| `Ledger.State.DeleteRecurringPlan` | main.js:3263-3286 | the ledger becomes `PlanDeleted` of the old ledger |
| `Ledger.State.MigrateToKurus` | main.js:426-492 | the ledger becomes `Migrated` of the old ledger |
| `Ledger.State.SaveCard` | main.js:1375-1410 | the save succeeds exactly when the form is valid and the card to edit exists; the ledger becomes `CardSaved` of the old ledger |
| `Ledger.State.DeleteCard` | main.js:1412-1444 | the ledger becomes `CardDeleted` of the old ledger |
| `Ledger.State.AddCreditExpense` | main.js:1261-1334 | a purchase is booked exactly when the card exists, the limit admits it, the merchant, a non-zero amount and an accepted date are given, and there is at least one installment; it then appends the installments the code's split gives and raises the card's net by their sum, which is the amount when the amount is not negative; otherwise nothing changes |
| `Ledger.State.SaveDebtPayment` | main.js:2404-2450 | a payment is recorded exactly when admitted; it appends the payment record and the withdrawal, lowers the wallet plus cash expenses by the amount, and lowers a named card's net by it |

## Left out

- Browser plumbing is not modelled: the DOM, rendering, modals, toasts,
  charts, autocomplete, local storage, `saveData`, IndexedDB file handles and
  file sync, `restoreBackup`'s FileReader and page reload, and market data.
- Merchant memory (`saveMerchant`) is not modelled; it only feeds autocomplete.
- Float parsing is not modelled: `toKurus`, `parseFloat` and the `NaN` paths.
  Operations take amounts already in kuruş; an empty field is `None`.
- IEEE-754 doubles are not modelled: amounts are computed in exact reals. A
  product that lands on a half kuruş can therefore round one kuruş away from
  the program's result: `Math.round(0.285 * 100)` is 28 in JavaScript, because
  the product is 28.499999999999996, while `Migration.MigrateValue(0.285)` is
  29. The same applies to percent cashback (main.js:3896, main.js:3040) and to
  the trade value `Math.round(amount * priceKurus)` (main.js:2812).
- Time zones are not modelled: every date is a local calendar date. The edit
  path parses the campaign end as midnight UTC; `EditCampaignActive` models it
  as "today is before the end day".
- Case mapping covers Basic Latin, Latin-1 and Latin Extended-A only. Other
  scripts lower-case to themselves.
- Identifiers from `Date.now()` and `generateUniqueId` are abstracted to one
  counter, so they are always fresh. The code's chance of a clash, and its
  truthiness test on `editId`, are not modelled.
- `periodOps` (the list the statement renders) is not modelled; only the sums
  drawn from it are. Wallet entry titles and `createdAt` stamps are simplified.
- A malformed `lastProcessedMonth` string is not modelled: markers are months.
- `restoreBackup` is modelled through `Migration.RestoredVersion` and
  `Migration.MergeWithDefaults` only. Restored data that breaks the ledger's
  invariants is outside the model.
- `null` monetary fields before the conversion are not modelled. Every field
  holds a number.
- Recurring-income add and delete forms are not part of this model; only the
  credit engine is.
- Asset editing, sell-all and deletion are not part of this model, and neither
  is the savings page's cost-basis replay.
- The form's loops run over local values that are then written to the fields
  as a whole. `State` methods therefore do not model element-wise update in
  place or aliasing between the lists.
- `Ledger.State.AddCreditExpense` requires its date, when given, to be a
  calendar date, because the date picker only offers calendar dates. The code
  would let `new Date` roll an invalid day over.
- `Ledger.State.DeleteCard` takes the card identifier directly. The code's
  early return when the all-cards view is active is not modelled.
- `Ledger.State.EditExpense` takes a calendar date for the edited day. The code
  accepts any text from the date field.
- `Ledger.State.SaveDebtPayment` takes a calendar date for the payment. The
  code does not check the date field.

## Findings

The ledger (`Ledger`) books and converts as the code is written. The corrected
definitions stand beside it, each with its intended property proved.

| source | as written | input that shows it | evidently intended | confidence | as-written member | corrected member |
|---|---|---|---|---|---|---|
| main.js:1290-1291 | `Math.floor(total / n)` for every installment, plus JavaScript's truncating `total % n` on the first | a refund of -500 kuruş over 3 installments books -169, -167 and -167, which is -503 | the installments add up to the total: the remainder should be taken towards negative infinity, matching the floor | not executed | `Cards.SplitAsWrittenLoses`, `Cards.SplitAsWrittenExample` | `Cards.Split`, proved by `Cards.SplitSpec` |
| main.js:472-474 | `cashbackValue` is multiplied by 100 whatever the cashback kind | a 100-lira plan with 10 percent cashback, charging 90 lira, becomes 10000 kuruş at 1000 percent and charges 0 | a percentage is not money: only a fixed cashback is converted, so every charge scales by exactly 100 | not executed | `Migration.PercentCashbackAsWrittenCounterexample` | `Migration.MigratePlan`, proved by `Migration.MigratePlanScalesCharge` |
