/** The budget server actions (actions/budget.js): reading the caller's
    budget with this month's expenses, and setting the budget amount. Both
    return their failures as values rather than throwing them. */
module Budgets {
  import opened Results
  import opened Dates
  import opened Store

  /** The ORM's `_sum: { amount: true }` over the rows `p` selects, with an
      empty selection read as 0 (`_sum.amount ? ... : 0`). */
  function SumWhere(txs: seq<Transaction>, p: Transaction -> bool): (r: real)
    ensures (forall t :: t in txs ==> !p(t)) ==> r == 0.0
    ensures (forall t :: t in txs ==> t.amount >= 0.0) ==> r >= 0.0
    decreases |txs|
  {
    if |txs| == 0 then 0.0
    else
      var init, last := txs[..|txs| - 1], txs[|txs| - 1];
      assert forall t :: t in init ==> t in txs;
      SumWhere(init, p) + (if p(last) then last.amount else 0.0)
  }

  /** Two filters that agree on every row select the same sum. */
  lemma {:induction false} SumWhereCongruent(txs: seq<Transaction>, p: Transaction -> bool, q: Transaction -> bool)
    requires forall t :: t in txs ==> p(t) == q(t)
    ensures SumWhere(txs, p) == SumWhere(txs, q)
    decreases |txs|
  {
    if |txs| > 0 {
      var init := txs[..|txs| - 1];
      assert forall t :: t in init ==> t in txs;
      SumWhereCongruent(init, p, q);
    }
  }

  /** The `where` clause of getCurrentBudget's aggregate: the caller's
      EXPENSE rows dated inside [start of month, end of month], on
      `accountId` when one is given (an undefined `accountId` filters nothing). */
  predicate InBudgetWindow(t: Transaction, userId: Id, accountId: Option<Id>, today: Date) {
    && t.userId == userId && t.kind == Expense
    && 1 <= today.month <= 12
    && NotAfter(MonthStart(today), t.date) && NotAfter(t.date, MonthEnd(today))
    && (accountId.None? || t.accountId == accountId.value)
  }

  datatype BudgetView = BudgetView(budget: Option<Budget>, currentExpenses: real)

  /** `budget.findFirst({ where: { userId } })`. */
  function BudgetOf(budgets: seq<Budget>, userId: Id): (r: Option<Budget>)
    ensures r.Some? ==> r.value in budgets && r.value.userId == userId
    ensures r.None? <==> forall b :: b in budgets ==> b.userId != userId
  {
    match FirstWhere(budgets, (b: Budget) => b.userId == userId)
    case Some(k) => Some(budgets[k])
    case None =>
      assert forall b :: b in budgets ==> b.userId != userId by {
        forall b | b in budgets ensures b.userId != userId {
          var j :| 0 <= j < |budgets| && budgets[j] == b;
        }
      }
      None
  }

  /** `getCurrentBudget(accountId)` on the calendar day `today`. */
  function GetCurrentBudget(st: State, auth: Option<string>, accountId: Option<Id>, today: Date)
    : (r: Result<BudgetView>)
    requires Valid(today)
    ensures auth.None? ==> r == Err(Unauthorized)
    ensures auth.Some? ==> (r == Err(UserNotFound) <==> forall u :: u in st.users ==> u.clerkUserId != auth.value)
    ensures r.Ok? <==> auth.Some? && exists u :: u in st.users && u.clerkUserId == auth.value
    ensures r.Ok? ==>
              var user := FindUserByClerk(st, auth.value).value;
              // no budget row reads as null
              && (r.value.budget.None? <==> forall b :: b in st.budgets ==> b.userId != user.id)
              && (r.value.budget.Some? ==> r.value.budget.value in st.budgets && r.value.budget.value.userId == user.id)
              // nothing matching sums to 0
              && ((forall t :: t in st.transactions ==> !InBudgetWindow(t, user.id, accountId, today))
                  ==> r.value.currentExpenses == 0.0)
              && ((forall t :: t in st.transactions ==> t.amount >= 0.0) ==> r.value.currentExpenses >= 0.0)
  {
    var user :- CurrentUser(st, auth, UserNotFound);
    var expenses := SumWhere(st.transactions, (t: Transaction) => InBudgetWindow(t, user.id, accountId, today));
    Ok(BudgetView(BudgetOf(st.budgets, user.id), expenses))
  }

  /** The month window selects exactly the caller's expenses of the calendar
      month of `today`: e.g. on 2025-03-10 the days 2025-03-01 to 2025-03-31. */
  lemma CurrentExpensesAreCalendarMonth(st: State, auth: Option<string>, accountId: Option<Id>, today: Date)
    requires Valid(today)
    requires forall t :: t in st.transactions ==> Valid(t.date)
    requires GetCurrentBudget(st, auth, accountId, today).Ok?
    ensures var user := FindUserByClerk(st, auth.value).value;
            GetCurrentBudget(st, auth, accountId, today).value.currentExpenses
            == SumWhere(st.transactions, (t: Transaction) =>
                 t.userId == user.id && t.kind == Expense && SameMonth(t.date, today)
                 && (accountId.None? || t.accountId == accountId.value))
  {
    var user := FindUserByClerk(st, auth.value).value;
    forall t | t in st.transactions
      ensures InBudgetWindow(t, user.id, accountId, today)
              == (t.userId == user.id && t.kind == Expense && SameMonth(t.date, today)
                  && (accountId.None? || t.accountId == accountId.value))
    {
      MonthWindowIsCalendarMonth(today, t.date);
    }
    SumWhereCongruent(st.transactions,
      (t: Transaction) => InBudgetWindow(t, user.id, accountId, today),
      (t: Transaction) => t.userId == user.id && t.kind == Expense && SameMonth(t.date, today)
                          && (accountId.None? || t.accountId == accountId.value));
  }

  /** The worked example in the source's comment: 2025-03-10 gives the window
      2025-03-01 to 2025-03-31. */
  lemma MarchWindowExample()
    ensures MonthStart(Date(2025, 3, 10)) == Date(2025, 3, 1)
    ensures MonthEnd(Date(2025, 3, 10)) == Date(2025, 3, 31)
  {
  }

  /** The number of budget rows `userId` has. */
  function BudgetCount(budgets: seq<Budget>, userId: Id): nat
    decreases |budgets|
  {
    if |budgets| == 0 then 0
    else BudgetCount(budgets[..|budgets| - 1], userId) + (if budgets[|budgets| - 1].userId == userId then 1 else 0)
  }

  /** The store's unique constraint on `Budget.userId`. */
  ghost predicate OneBudgetPerUser(budgets: seq<Budget>) {
    forall u :: BudgetCount(budgets, u) <= 1
  }

  /** `updateBudget(amount)`: an upsert keyed by the caller's user id. */
  function UpdateBudget(st: State, auth: Option<string>, amount: real, newId: Id): (r: Result<(State, Budget)>)
    ensures auth.None? ==> r == Err(Unauthorized)
    ensures auth.Some? ==> (r.Err? <==> forall u :: u in st.users ==> u.clerkUserId != auth.value)
    ensures auth.Some? && FindUserByClerk(st, auth.value).None? ==> r == Err(UserNotFound)
    ensures r.Err? ==> r.error == Unauthorized || r.error == UserNotFound
    ensures r.Ok? ==>
              var (st2, b) := r.value;
              var user := FindUserByClerk(st, auth.value).value;
              && b.userId == user.id && b.amount == amount
              && st2.users == st.users && st2.accounts == st.accounts && st2.transactions == st.transactions
              // created only when the caller had no budget
              && (|st2.budgets| == |st.budgets| + 1 <==> BudgetOf(st.budgets, user.id).None?)
              && (BudgetOf(st.budgets, user.id).None? ==> st2.budgets == st.budgets + [b] && b.id == newId && b.lastAlertSent.None?)
              && (BudgetOf(st.budgets, user.id).Some? ==>
                    b == BudgetOf(st.budgets, user.id).value.(amount := amount)
                    // the caller's first budget row is the one rewritten
                    && exists k :: 0 <= k < |st.budgets| && st.budgets[k] == BudgetOf(st.budgets, user.id).value
                                   && (forall j :: 0 <= j < k ==> st.budgets[j].userId != user.id)
                                   && st2.budgets == st.budgets[k := b])
              // other users' budgets are untouched
              && (forall j :: 0 <= j < |st.budgets| && st.budgets[j].userId != user.id ==>
                    st2.budgets[j] == st.budgets[j])
              // no row's alert stamp is written, and a new row starts without one
              && (forall j :: 0 <= j < |st.budgets| ==> st2.budgets[j].lastAlertSent == st.budgets[j].lastAlertSent)
              && (forall j :: |st.budgets| <= j < |st2.budgets| ==> st2.budgets[j].lastAlertSent.None?)
  {
    var user :- CurrentUser(st, auth, UserNotFound);
    match FirstWhere(st.budgets, (b: Budget) => b.userId == user.id)
    case Some(k) =>
      var b := st.budgets[k].(amount := amount);
      Ok((st.(budgets := st.budgets[k := b]), b))
    case None =>
      var b := Budget(newId, user.id, amount, None);
      Ok((st.(budgets := st.budgets + [b]), b))
  }

  lemma {:induction false} BudgetCountAppend(budgets: seq<Budget>, b: Budget, userId: Id)
    ensures BudgetCount(budgets + [b], userId) == BudgetCount(budgets, userId) + (if b.userId == userId then 1 else 0)
  {
    assert (budgets + [b])[..|budgets|] == budgets;
  }

  lemma {:induction false} BudgetCountReplace(budgets: seq<Budget>, k: nat, b: Budget, userId: Id)
    requires k < |budgets| && b.userId == budgets[k].userId
    ensures BudgetCount(budgets[k := b], userId) == BudgetCount(budgets, userId)
    decreases |budgets|
  {
    var n := |budgets| - 1;
    if k < n {
      assert budgets[k := b][..n] == budgets[..n][k := b];
      BudgetCountReplace(budgets[..n], k, b, userId);
    } else {
      assert budgets[k := b][..n] == budgets[..n];
    }
  }

  lemma {:induction false} BudgetCountZero(budgets: seq<Budget>, userId: Id)
    requires forall b :: b in budgets ==> b.userId != userId
    ensures BudgetCount(budgets, userId) == 0
    decreases |budgets|
  {
    if |budgets| > 0 {
      assert forall b :: b in budgets[..|budgets| - 1] ==> b in budgets;
      BudgetCountZero(budgets[..|budgets| - 1], userId);
    }
  }

  /** The upsert keeps one budget per user, and leaves the caller with
      exactly one. */
  lemma UpdateBudgetKeepsOneBudgetPerUser(st: State, auth: Option<string>, amount: real, newId: Id)
    requires UpdateBudget(st, auth, amount, newId).Ok?
    requires OneBudgetPerUser(st.budgets)
    ensures var (st2, b) := UpdateBudget(st, auth, amount, newId).value;
            OneBudgetPerUser(st2.budgets) && BudgetCount(st2.budgets, b.userId) == 1
  {
    var user := FindUserByClerk(st, auth.value).value;
    var (st2, b) := UpdateBudget(st, auth, amount, newId).value;
    match FirstWhere(st.budgets, (x: Budget) => x.userId == user.id)
    case Some(k) =>
      forall u ensures BudgetCount(st2.budgets, u) == BudgetCount(st.budgets, u) {
        BudgetCountReplace(st.budgets, k, b, u);
      }
      assert BudgetCount(st.budgets, user.id) >= 1 by {
        BudgetCountPositive(st.budgets, k, user.id);
      }
    case None =>
      forall u ensures BudgetCount(st2.budgets, u) == BudgetCount(st.budgets, u) + (if u == user.id then 1 else 0) {
        BudgetCountAppend(st.budgets, b, u);
      }
      BudgetCountZero(st.budgets, user.id);
  }

  lemma {:induction false} BudgetCountPositive(budgets: seq<Budget>, k: nat, userId: Id)
    requires k < |budgets| && budgets[k].userId == userId
    ensures BudgetCount(budgets, userId) >= 1
    decreases |budgets|
  {
    if k < |budgets| - 1 {
      BudgetCountPositive(budgets[..|budgets| - 1], k, userId);
    }
  }

  /** Reading the budget back after `updateBudget` gives the amount just set. */
  lemma UpdateThenGetBudget(st: State, auth: Option<string>, amount: real, newId: Id, accountId: Option<Id>, today: Date)
    requires Valid(today)
    requires UpdateBudget(st, auth, amount, newId).Ok?
    ensures var (st2, b) := UpdateBudget(st, auth, amount, newId).value;
            var view := GetCurrentBudget(st2, auth, accountId, today);
            view.Ok? && view.value.budget == Some(b)
  {
    var user := FindUserByClerk(st, auth.value).value;
    var (st2, b) := UpdateBudget(st, auth, amount, newId).value;
    assert FindUserByClerk(st2, auth.value) == Some(user);
    var p := (x: Budget) => x.userId == user.id;
    match FirstWhere(st.budgets, p)
    case Some(k) =>
      assert forall j :: 0 <= j < k ==> st2.budgets[j] == st.budgets[j];
      assert FirstWhere(st2.budgets, p) == Some(k) by {
        FirstWhereIs(st2.budgets, p, k);
      }
    case None =>
      var n := |st.budgets|;
      assert forall j :: 0 <= j < n ==> st2.budgets[j] == st.budgets[j];
      FirstWhereIs(st2.budgets, p, n);
  }
}
