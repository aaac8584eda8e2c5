# minance core, modelled in Dafny

minance is a personal-finance web application. Users keep accounts, record
income and expense transactions against them, set a monthly budget, and get
an email when spending reaches 80% of it. This project models the
application's server-side core as pure functions over an immutable store:

- **Store** (`store.dfy`): users, accounts, transactions and budgets as
  sequences of rows. It also holds the shared prologue of every server action:
  no identity gives "Unauthorized", and an unknown identity gives a
  "user not found" error. The ledger invariant is stated here: an account's
  balance equals its opening balance plus the signed sum of its transactions,
  with EXPENSE counted as −amount and INCOME as +amount.
- **Ledger** (`ledger.dfy`, `actions/transaction.js`): posting, amending and
  reading a transaction. Each write of a row and of the account's balance is
  one step.
- **Accounts** (`accounts.dfy`, `actions/dashboard.js`): creating an account
  under the default-account rule. It also lists the caller's accounts newest
  first with their transaction counts, and serialises Decimal fields.
- **AccountSchema** (`account_schema.dfy`, `app/lib/schema.js`): the account
  form's validation.
- **JsNumbers** (`jsnumbers.dfy`): the JavaScript `parseFloat`, used on the
  balance, and decimal printing of counts.
- **Budgets** (`budgets.dfy`, `actions/budget.js`): reading the budget with
  this calendar month's expenses, and the upsert of the budget amount.
- **BudgetAlerts** (`budget_alerts.dfy`, `lib/inngest/function.js`): the
  scheduled sweep. For each budget it totals the default account's expenses
  and sends at most one alert per calendar month, stamping `lastAlertSent`.
- **Seed** (`seed.dfy`, `actions/seed.js`): regenerates the demo account's
  transactions and sets its balance to their signed sum.
- **Users** (`users.dfy`, `lib/checkUser.js`): copies the identity
  provider's user into the store on first sight.
- **Dates** (`dates.dfy`): calendar days. Covers JavaScript's day-0
  arithmetic (`new Date(y, m, 0)`, `setDate(0)`), `subDays` and the
  month-window comparisons.

Outside inputs are parameters:

- the signed-in identity (`auth`);
- the rate limiter's verdict;
- today's date;
- the ids the database assigns;
- the successive `Math.random()` draws and `crypto.randomUUID()` values;
- `calculateNextRecurringDate`, passed as a function.

Failures are `Result` values carrying the message the source throws or
returns.

Where the code and its documentation disagree, the model follows the code:

- `updateTransaction` credits the whole amendment delta to `data.accountId`. It
  neither checks that account's owner nor adjusts the transaction's previous
  account. `Ledger.UpdateTransactionMovingAccountDrifts` states the
  resulting drift.
- The alert sweep's start date is `setDate(0)`, the last day of the
  previous month. The comment there says "start of current month".
  The sweep has no upper date bound, so it counts every day from the
  previous month's last day on; `BudgetAlerts.AlertStartIncludesPreviousMonthEnd`
  states this.
- Neither transaction action validates the recurrence fields. A recurring row
  with no interval is stored with no next date.

## Model

| member | source | states |
|---|---|---|
| Store.CurrentUser | actions/budget.js:9-17 | no identity fails with "Unauthorized" before any read; an identity with no user row fails with the action's not-found message; success returns the row of that identity |
| Store.FindUserByClerk | actions/dashboard.js:12-14 | the lookup by identity-provider id finds a row with that id, and finds none exactly when no row has it |
| Store.RowsNotOf | actions/seed.js:80-82 | deleting by account keeps exactly the rows of the other accounts |
| Store.Signed | actions/transaction.js:148-149 | a row's balance effect is its amount or its negation, the amount itself exactly for INCOME (or a zero amount) |
| Store.SignedSumRowsNotOf | actions/seed.js:78-94 | deleting every row of one account leaves every other account's signed sum unchanged |
| Dates.DayZero | lib/inngest/function.js:34-35 | day 0 of a month is a valid calendar day before the 1st |
| Dates.DayZeroPrecedesFirst | lib/inngest/function.js:34-35 | no calendar day lies strictly between day 0 of a month and its 1st: a date is after day 0 exactly when it is on or after the 1st |
| Dates.BeforeIsDayKeyOrder | actions/seed.js:47-48 | calendar order of valid dates is the numeric order of year, month and day read as one number |
| Dates.MonthEnd | actions/budget.js:39-43 | day 0 of the next month is the last day of this month, December rolling into the next year |
| Dates.MonthWindowIsCalendarMonth | actions/budget.js:26-43 | the inclusive window from the 1st to the month's last day holds exactly the days of the current calendar month |
| Dates.IsNewMonth | lib/inngest/function.js:89-94 | true exactly when the two dates are not in the same calendar month; never for a date against itself |
| Dates.IsNewMonthIffOutsideWindow | lib/inngest/function.js:89-94 | two dates are in the same month by month-and-year comparison exactly when one lies in the other's month window |
| Dates.PrevDay | actions/seed.js:48 | the day before a date is a valid, earlier date |
| Dates.PrevDayPrecedes | actions/seed.js:48 | the day before a date is its immediate predecessor: a date is after it exactly when it is on or after the date itself |
| Dates.SubDays | actions/seed.js:48 | counting back n days gives a valid date, earlier when n > 0 and the same day when n = 0 |
| Dates.SubDaysStrictlyDecreasing | actions/seed.js:47-48 | counting back more days gives a strictly earlier date, so the seeded days are distinct and increase |
| Ledger.NextRecurringDate | actions/transaction.js:159-162 | a next date is stored exactly when the row is recurring and has an interval, and it is the calculator's result for the row's date |
| Ledger.AmendDelta | actions/transaction.js:39-50 | the change undoes the old row's signed amount and applies the new one; an unchanged type and amount change nothing |
| Ledger.Credit | actions/transaction.js:71-78 | an increment by account id moves the balance of every row with that id by delta and changes nothing else |
| Ledger.CreateTransaction | actions/transaction.js:92-181 | errors in source order, "User not found" for an unknown identity; "Account not found" exactly when no account with that id belongs to the caller; it succeeds exactly when the request is allowed, the caller is known and owns the account; on success one row is appended, owned by the caller and carrying every field of `data` (account, type, amount, description, date, category, recurrence, status); the account's balance moves by −amount for EXPENSE and +amount for INCOME, and nothing else changes |
| Ledger.CreateTransactionPreservesLedger | actions/transaction.js:148-172 | posting keeps every account's opening balance: balance and signed sum move together |
| Ledger.GetTransaction | actions/transaction.js:183-202 | "User not found" for an unknown identity; it succeeds exactly when the caller has a row with that id, and returns such a row; a row that is missing or belongs to another user is "Transaction not found" alike |
| Ledger.UpdateTransaction | actions/transaction.js:17-90 | fails with "User not fount" for an unknown identity; succeeds exactly when the read would and the named account exists; on success the caller's row with that id, and no other, is replaced by the amended row, which keeps the caller as owner and carries every field of `data`, and the update moves every account with id `data.accountId` by new signed amount minus old, changing nothing else |
| Ledger.UpdateTransactionFailsLikeGet | actions/transaction.js:28-78 | the amendment fails with "Transaction not found" exactly where the read does, and fails past the read exactly when no account has id `data.accountId` |
| Ledger.AmendInPlacePreservesLedger | actions/transaction.js:40-78 | replacing a row by one on the same account, with that account moved by the amend delta, keeps every account's opening balance |
| Ledger.UpdateTransactionPreservesLedger | actions/transaction.js:39-81 | an amendment that keeps the row on its account keeps every account's opening balance |
| Ledger.AmendAcrossAccountsDrifts | actions/transaction.js:40-78 | replacing a row by one on another account, crediting only the new account, shifts the old account's opening balance up and the new one's down by the old signed amount |
| Ledger.UpdateTransactionMovingAccountDrifts | actions/transaction.js:71-78 | an amendment that moves the row leaves the old account's balance alone while its rows lose the old signed amount, and leaves the new account short by the same amount |
| Ledger.UpdateThenGet | actions/transaction.js:28-61 | with unique transaction ids, the amended row reads back as the amendment |
| Ledger.CreateThenGet | actions/transaction.js:155-164 | a row posted under a fresh id reads back unchanged |
| Ledger.AmendExpenseToIncomeExample | actions/transaction.js:40-50 | amending an EXPENSE of 50 into an INCOME of 30 moves the balance by +80 |
| JsNumbers.ParseFloat | actions/dashboard.js:20-23 | the balance parses exactly when, after white space (including the Unicode space separators) and a sign, it starts with a digit or a point and a digit |
| JsNumbers.ParseFloatSkipsIdeographicSpace | actions/dashboard.js:20-23 | a balance of an ideographic space and "5" parses to 5 |
| JsNumbers.ParseFloatReadsExponent | actions/dashboard.js:20-23 | "12e3" parses to 12000: an exponent scales the digits |
| JsNumbers.ParseFloatOfDecimal | actions/dashboard.js:19-23 | a decimal literal `digits.frac` followed by text that cannot continue it (no digit, `e` or `E` next) parses to digits + frac / 10^|frac| (the value `Magnitude` names): "1234.56" to 1234.56, ".5x" to 0.5 |
| JsNumbers.ParseFloatOfDigits | actions/dashboard.js:19-20 | a digit string followed by text that cannot continue a number (no digit, point, `e` or `E` next) parses to the digits' value |
| JsNumbers.NatToString | actions/seed.js:98 | a count prints as a non-empty string of digits |
| JsNumbers.NatToStringRoundTrip | actions/seed.js:98 | the printed digits of a count have that count as their value |
| JsNumbers.ParseFloatOfNatToString | actions/seed.js:98 | parsing a printed count gives the count back |
| AccountSchema.ParseAccountType | app/lib/schema.js:6 | only "CURRENT" and "SAVINGS" are account types, each decoding to the type with that name |
| AccountSchema.AccountTypeRoundTrip | app/lib/schema.js:6 | decoding an account type's name gives the type back |
| AccountSchema.ValidateAccount | app/lib/schema.js:4-9 | the form is valid exactly when name and balance are non-empty and the type is CURRENT or SAVINGS; an omitted default flag is false; every failed check, and only those, is reported |
| Accounts.ShouldBeDefault | actions/dashboard.js:27-31 | a new account is default when requested or when the user has no account yet |
| Accounts.ClearDefaults | actions/dashboard.js:32-37 | every account of that user loses its default flag and no other row changes |
| Accounts.CountDefaultsCleared | actions/dashboard.js:32-37 | after demotion the user has no default account and every other user's count is unchanged |
| Accounts.CreateAccount | actions/dashboard.js:7-56 | errors in source order, "Invalid balance amount" exactly when the balance does not parse; it succeeds exactly when the caller is known and the balance parses; on success the new row carries the parsed balance, is default when requested or first, is appended, and demotes the owner's other rows when default |
| Accounts.CreateAccountDefaultCount | actions/dashboard.js:25-47 | after creation the owner has exactly one default account when the new one is default, and as many as before otherwise; other users are unaffected |
| Accounts.CreateAccountKeepsAtMostOneDefault | actions/dashboard.js:25-47 | account creation keeps "no user has two default accounts" |
| Accounts.CreateAccountKeepsExactlyOneDefault | actions/dashboard.js:25-47 | a user with exactly one default account, or with no account, has exactly one after creation |
| Accounts.OwnedBy | actions/dashboard.js:72-73 | selects exactly the user's rows, each as often as it occurs |
| Accounts.InsertNewestFirst | actions/dashboard.js:74 | inserting into a newest-first list keeps it newest first and adds exactly that row |
| Accounts.SortNewestFirst | actions/dashboard.js:74 | the result is ordered by creation time descending and is a permutation of the input |
| Accounts.Summaries | actions/dashboard.js:75 | each account is paired with the number of transaction rows posted against it |
| Accounts.GetUserAccounts | actions/dashboard.js:58-82 | "User not found" exactly when the identity has no user row; the list is newest first, is a permutation of the caller's accounts, and carries each one's transaction count |
| Accounts.GetUserAccountsOnlyOwn | actions/dashboard.js:72-73 | every listed account is a stored account of the caller |
| Accounts.SerializeRecord | actions/dashboard.js:85-97 | balance and amount become plain numbers of the same value, other fields and keys are kept, and it throws exactly when a truthy balance or amount is not a Decimal |
| Budgets.SumWhere | actions/budget.js:46-66 | the aggregate is 0 when no row matches and non-negative when amounts are |
| Budgets.BudgetOf | actions/budget.js:20-24 | the caller's budget row is found, or none exists |
| Budgets.GetCurrentBudget | actions/budget.js:7-72 | errors in source order; a known caller always gets a result; no budget row reads as null; the month's expenses are 0 when nothing matches |
| Budgets.CurrentExpensesAreCalendarMonth | actions/budget.js:26-59 | the expenses read are exactly the caller's EXPENSE rows of the current calendar month, on the given account when one is given |
| Budgets.MarchWindowExample | actions/budget.js:27-32 | the comment's example: 2025-03-10 gives the window 2025-03-01 to 2025-03-31 |
| Budgets.UpdateBudget | actions/budget.js:74-107 | "Unauthorized" without an identity, "User not found" for an identity with no user row; otherwise an upsert on the caller's user id: it creates a row only when the caller has none, otherwise it rewrites the caller's first budget row in place with the new amount; other users' budgets are untouched; no row's `lastAlertSent` is written, and a newly created row has none |
| Budgets.UpdateBudgetKeepsOneBudgetPerUser | actions/budget.js:85-96 | the upsert keeps one budget per user and leaves the caller with exactly one |
| Budgets.UpdateThenGetBudget | actions/budget.js:85-96 | reading the budget after the upsert returns the row just written |
| BudgetAlerts.PercentOfPositiveBudget | lib/inngest/function.js:52-58 | for a positive budget, "expenses / budget × 100 ≥ 80" holds exactly when 100 × expenses ≥ 80 × budget |
| BudgetAlerts.PercentOfNegativeBudget | lib/inngest/function.js:52-58 | for a negative budget, "expenses / budget × 100 ≥ 80" holds exactly when 100 × expenses ≤ 80 × budget (dividing by a negative number flips the comparison) |
| BudgetAlerts.ReachesThreshold | lib/inngest/function.js:52-58 | for a non-zero budget the test is exactly "expenses / budget × 100 ≥ 80"; for a zero budget it passes exactly when something was spent |
| BudgetAlerts.ShouldAlert | lib/inngest/function.js:57-61 | on calendar days: alert exactly when the threshold is reached and the last alert, if any, lies outside the current month's window |
| BudgetAlerts.AlertStart | lib/inngest/function.js:34-35 | the start date is the last day of a month before the current month |
| BudgetAlerts.AlertStartIncludesPreviousMonthEnd | lib/inngest/function.js:34-35 | the sweep counts every day from the previous month's last day on: every day from the 1st of the current month on, plus that one day |
| BudgetAlerts.DefaultAccountOf | lib/inngest/function.js:11-30 | the owner's default account is found, or the owner has none |
| BudgetAlerts.Evaluate | lib/inngest/function.js:28-85 | a budget whose owner has no default account is skipped; an alert goes out exactly when the threshold is reached and no alert was sent this month, sent to the budget owner's email, naming the account and carrying the budget amount and the summed expenses |
| BudgetAlerts.AlertsOfStep | lib/inngest/function.js:28-85 | the alerts of a prefix of budgets extend by the next budget's alert, if it fires |
| BudgetAlerts.CheckBudgetAlerts | lib/inngest/function.js:7-87 | one pass stamps `lastAlertSent` on exactly the budgets that fired, sends their alerts in order, and writes nothing else |
| BudgetAlerts.NoRealertWithinMonth | lib/inngest/function.js:56-61 | a budget stamped this month does not fire again this month, whatever the spending |
| BudgetAlerts.RearmsInNewMonth | lib/inngest/function.js:56-61 | with a stamp from another month, a budget over the threshold fires again |
| BudgetAlerts.NoAlertsAfterStamp | lib/inngest/function.js:78-82 | after a stamp, no sweep in the same month alerts that budget |
| BudgetAlerts.AtMostOneAlertPerMonth | lib/inngest/function.js:56-82 | however many back-to-back sweeps run within one month, each budget is alerted at most once; since an amount update keeps every row's alert stamp (see Budgets.UpdateBudget), editing a budget between sweeps does not re-arm its alert |
| Seed.RoundedWithin | actions/seed.js:30 | rounding to cents (halves up) keeps a value between two whole numbers between them |
| Seed.RandomAmount | actions/seed.js:29-31 | the drawn amount, rounded to cents, lies within the category's range |
| Seed.RandomCategory | actions/seed.js:34-39 | the drawn category is one of the type's categories and its amount is within that category's range |
| Seed.WithinSomeCategoryMeans | actions/seed.js:10-26 | the category test holds exactly when some category of the list has the name and a range holding the amount |
| Seed.WithinSomeCategoryIntro | actions/seed.js:35-38 | an amount within the range of the category at any position passes the category test under that category's name |
| Seed.GeneratedRow | actions/seed.js:53-70 | a generated row is a completed, non-recurring row of the demo user on the demo account, with a category and amount of its type, the matching description, dated `daysAgo` days before today (one of the eleven days ending today), INCOME exactly when the draw is below 0.4 |
| Seed.AllSeededAppend | actions/seed.js:73 | appending a well-formed row that takes the next UUID keeps the whole list well formed |
| Seed.AllSeededOnSeedAccount | actions/seed.js:67 | every generated row is posted against the demo account |
| Seed.GenerateDay | actions/seed.js:48-74 | one day keeps the rows so far and appends 1 to 3 well-formed rows, all dated `daysAgo` days back, so only that day's count grows; it reads one draw plus three per row and keeps the running total equal to the signed sum |
| Seed.GenerateTransactions | actions/seed.js:44-75 | the loops produce well-formed rows taking the UUIDs in order, 1 to 3 on each of the eleven days ending today, and the running total is their signed sum on the demo account |
| Seed.Replace | actions/seed.js:78-94 | the account's rows are replaced by the generated ones and its balance set, or, when the account does not exist, the whole block fails |
| Seed.ReplaceKeepsOtherLedgers | actions/seed.js:78-94 | after the replacement the demo account's signed sum is that of the generated rows and every other account's is unchanged |
| Seed.ReplaceReseeds | actions/seed.js:78-98 | replacing with rows all on the demo account at their signed sum leaves the store reseeded: rows swapped, balance equal to both the new rows' sum and the account's ledger sum, other ledgers untouched, count in the message |
| Seed.SeedTransactions | actions/seed.js:41-104 | 11 days of 1 to 3 rows each; the account's rows are replaced by them and its balance becomes their signed sum, so its ledger invariant holds with opening 0; other accounts keep theirs; the message gives the count |
| Users.CheckUser | lib/checkUser.js:7-35 | no session gives no user; an existing row is returned with no write; otherwise one row is created with the provider's name, first email and image; with no email nothing is written and there is no user |
| Users.CheckUserKeepsClerkIdsUnique | lib/checkUser.js:14-29 | the sync never makes two rows with the same identity-provider id |
| Users.CheckUserIdempotent | lib/checkUser.js:7-31 | a second call for the same identity writes nothing and returns the same row |

## Left out

- `scanReceipt` (actions/transaction.js) calls a generative-AI service on an uploaded file; it is outside this core.
- The rate limiter, the identity provider, the email sender, the scheduler's cron, retries and `step.run` memoisation are external services. Their verdicts and identities are inputs, and a sent email is an output value.
- `revalidatePath` cache invalidation and all UI components change no stored state.
- Money is exact (`real`). The database's fixed-point Decimal, JavaScript floating-point rounding in `balance + delta`, and `toFixed(2)` on binary fractions are not modelled. `Seed.Round2` rounds the exact value half up.
- Time of day is not modelled: dates are calendar days. The source compares full instants. Its `lte endOfMonth` is midnight at the start of the last day, so rows later that day fall outside the window; the model keeps the whole last day. The `setDate(0)` start keeps the current time of day, so only the part of the previous month's last day from the current time on counts; the model keeps the whole day.
- `calculateNextRecurringDate` is neither imported nor defined in actions/transaction.js (imports at lines 3-8), yet it is called at lines 64 and 161. As written, creating or updating a recurring row with an interval therefore throws a ReferenceError inside the database transaction, which the catch rethrows, so nothing is written. The model assumes a defined calculator: it is a function parameter, so `Ledger.NextRecurringDate` states only when it is called and with what, and those creates and updates succeed in the model.
- Accounts.CreateAccount: actions/dashboard.js:32-47 runs the `updateMany` that clears other defaults and the `create` as two separate writes, outside a database transaction. The model treats them as one atomic step, so a failure between them (defaults cleared, no account created) is not modelled.
- JsNumbers.ParseFloat: "Infinity" is not recognised, so such inputs fail.
- The store's foreign keys and unique constraints are not enforced by the model. A transaction may name a missing account, and a budget's owner is assumed to exist. Where that relation is missing, `BudgetAlerts.Evaluate` sends nothing; the source would throw. Uniqueness of ids is a precondition where a lemma needs it.
- Store.RecordNotFound: the ORM's message for an update of a missing row is stood in for by a fixed string.
- Ledger.CreateTransaction: the `status` field is stored but, as in the source, plays no part in balance arithmetic.
- BudgetAlerts.Evaluate: the email body's formatting (`parseInt(...).toFixed(1)`) and template rendering are not modelled. The email carries the raw amounts.
- Seed.SeedTransactions: the draws are a supplied sequence of at least 110 values in [0, 1), and the UUIDs a sequence of at least 33. `createdAt`/`updatedAt` are not modelled.
- Users.CheckUser: the store's unique constraint on email is not modelled, so a create that would violate it succeeds here. The source would log the error and return nothing.
- Logging (`console.log` / `console.error`) has no effect on state and is dropped.
