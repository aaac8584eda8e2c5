/** The scheduled budget-alert sweep (lib/inngest/function.js): for every
    budget, total the EXPENSE rows of the owner's default account since the
    sweep's start date, and when 80% of the budget is used and no alert has
    gone out this calendar month, send one and stamp `lastAlertSent`. The
    clock reading `now` is an input; sending the email is an output event. */
module BudgetAlerts {
  import opened Results
  import opened Dates
  import opened Store
  import opened Budgets

  /** `percentageUsed >= 80` with `percentageUsed = totalExpenses / budgetAmount * 100`
      in JavaScript arithmetic: a zero budget gives Infinity when something was
      spent (which passes) and NaN or -Infinity otherwise (which fail). */
  function ReachesThreshold(total: real, amount: real): (r: bool)
    ensures amount != 0.0 ==> (r <==> total / amount * 100.0 >= 80.0)
    ensures amount == 0.0 ==> (r <==> total > 0.0)
  {
    if amount > 0.0 then
      PercentOfPositiveBudget(total, amount);
      100.0 * total >= 80.0 * amount
    else if amount < 0.0 then
      PercentOfNegativeBudget(total, amount);
      100.0 * total <= 80.0 * amount
    else total > 0.0
  }

  /** Multiplying through by a positive budget keeps the comparison. */
  lemma PercentOfPositiveBudget(total: real, amount: real)
    requires amount > 0.0
    ensures total / amount * 100.0 >= 80.0 <==> 100.0 * total >= 80.0 * amount
  {
    var q := total / amount;
    assert q * amount == total;
    if q * 100.0 >= 80.0 {
      assert q * 100.0 * amount >= 80.0 * amount;
    } else {
      assert q * 100.0 * amount < 80.0 * amount;
    }
  }

  /** Multiplying through by a negative budget reverses the comparison. */
  lemma PercentOfNegativeBudget(total: real, amount: real)
    requires amount < 0.0
    ensures total / amount * 100.0 >= 80.0 <==> 100.0 * total <= 80.0 * amount
  {
    var q := total / amount;
    assert q * amount == total;
    if q * 100.0 >= 80.0 {
      assert q * 100.0 * amount <= 80.0 * amount;
    } else {
      assert q * 100.0 * amount > 80.0 * amount;
    }
  }

  /** The alert condition: the threshold is reached, and either no alert was
      ever sent or the last one was sent in another calendar month. */
  function ShouldAlert(total: real, amount: real, lastAlertSent: Option<Date>, now: Date): (r: bool)
    // on calendar days: no earlier alert falls inside the current month's window
    ensures Valid(now) && (lastAlertSent.Some? ==> Valid(lastAlertSent.value)) ==>
              (r <==> ReachesThreshold(total, amount)
                      && (lastAlertSent.None?
                          || !(NotAfter(MonthStart(now), lastAlertSent.value)
                               && NotAfter(lastAlertSent.value, MonthEnd(now)))))
  {
    if Valid(now) && lastAlertSent.Some? && Valid(lastAlertSent.value) then
      IsNewMonthIffOutsideWindow(lastAlertSent.value, now);
      ReachesThreshold(total, amount) && IsNewMonth(lastAlertSent.value, now)
    else
      ReachesThreshold(total, amount) && (lastAlertSent.None? || IsNewMonth(lastAlertSent.value, now))
  }

  /** `startDate.setDate(0)` on today's date: the last day of the previous
      month (the source's comment calls it the start of the current month). */
  function AlertStart(now: Date): (r: Date)
    requires 1 <= now.month <= 12
    ensures Valid(r) && r.day == DaysInMonth(r.year, r.month)
    ensures DayKey(r) < DayKey(MonthStart(now)) && !SameMonth(r, now)
  {
    DayZero(now.year, now.month)
  }

  /** The sweep counts every day from the previous month's last day on: the
      days from the 1st of the current month on, and that one day more. */
  lemma AlertStartIncludesPreviousMonthEnd(now: Date, e: Date)
    requires Valid(now) && Valid(e)
    ensures NotAfter(AlertStart(now), e) <==> NotAfter(MonthStart(now), e) || e == AlertStart(now)
    ensures e == AlertStart(now) ==> !SameMonth(e, now) && NotAfter(AlertStart(now), e)
  {
  }

  /** A row the sweep's aggregate sums: an EXPENSE of the budget's owner on
      the default account, dated on or after the start date. */
  predicate CountsTowardAlert(t: Transaction, userId: Id, accountId: Id, start: Date) {
    t.userId == userId && t.accountId == accountId && t.kind == Expense && NotAfter(start, t.date)
  }

  /** `user.accounts` filtered by `isDefault: true`, first row. */
  function DefaultAccountOf(accounts: seq<Account>, userId: Id): (r: Option<Account>)
    ensures r.Some? ==> r.value in accounts && r.value.userId == userId && r.value.isDefault
    ensures r.None? <==> forall a :: a in accounts ==> !(a.userId == userId && a.isDefault)
  {
    match FirstWhere(accounts, (a: Account) => a.userId == userId && a.isDefault)
    case Some(k) => Some(accounts[k])
    case None =>
      assert forall a :: a in accounts ==> !(a.userId == userId && a.isDefault) by {
        forall a | a in accounts ensures !(a.userId == userId && a.isDefault) {
          var j :| 0 <= j < |accounts| && accounts[j] == a;
        }
      }
      None
  }

  function UserById(users: seq<User>, id: Id): (r: Option<User>)
    ensures r.Some? ==> r.value in users && r.value.id == id
    ensures r.None? ==> forall j :: 0 <= j < |users| ==> users[j].id != id
  {
    match FirstWhere(users, (u: User) => u.id == id)
    case Some(k) => Some(users[k])
    case None => None
  }

  /** The email the sweep sends, reduced to what identifies it. */
  datatype Email = Email(to: string, subject: string, budgetId: Id, accountName: string,
                         budgetAmount: real, totalExpenses: real)

  function TotalExpenses(st: State, b: Budget, account: Account, now: Date): real
    requires Valid(now)
  {
    SumWhere(st.transactions, (t: Transaction) => CountsTowardAlert(t, b.userId, account.id, AlertStart(now)))
  }

  /** One budget's step of the sweep: the alert it sends, if any. A budget
      whose owner has no default account is skipped. */
  function Evaluate(st: State, b: Budget, now: Date): (r: Option<Email>)
    requires Valid(now)
    ensures DefaultAccountOf(st.accounts, b.userId).None? ==> r.None?
    ensures r.Some? ==>
              var account := DefaultAccountOf(st.accounts, b.userId).value;
              && ShouldAlert(TotalExpenses(st, b, account, now), b.amount, b.lastAlertSent, now)
              && r.value.budgetId == b.id && r.value.accountName == account.name
              && r.value.budgetAmount == b.amount
              && r.value.totalExpenses == TotalExpenses(st, b, account, now)
              && r.value.subject == "Budget Alert for " + account.name
              // addressed to the budget's owner
              && UserById(st.users, b.userId).Some?
              && r.value.to == UserById(st.users, b.userId).value.email
    ensures r.None? && DefaultAccountOf(st.accounts, b.userId).Some? && UserById(st.users, b.userId).Some? ==>
              !ShouldAlert(TotalExpenses(st, b, DefaultAccountOf(st.accounts, b.userId).value, now),
                           b.amount, b.lastAlertSent, now)
  {
    match DefaultAccountOf(st.accounts, b.userId)
    case None => None
    case Some(account) =>
      match UserById(st.users, b.userId)
      // unreachable while every budget's owner exists: the relation is required
      case None => None
      case Some(user) =>
        var total := TotalExpenses(st, b, account, now);
        if ShouldAlert(total, b.amount, b.lastAlertSent, now) then
          Some(Email(user.email, "Budget Alert for " + account.name, b.id, account.name, b.amount, total))
        else None
  }

  /** The budget row after its step: `lastAlertSent = now` only when an
      alert went out. */
  function Stamped(st: State, b: Budget, now: Date): Budget
    requires Valid(now)
  {
    if Evaluate(st, b, now).Some? then b.(lastAlertSent := Some(now)) else b
  }

  /** The first `k` budgets, each stamped or left alone. */
  function StampedPrefix(st: State, k: nat, now: Date): (r: seq<Budget>)
    requires Valid(now) && k <= |st.budgets|
    ensures |r| == k
  {
    seq(k, j requires 0 <= j < k => Stamped(st, st.budgets[j], now))
  }

  lemma StampedPrefixStep(st: State, k: nat, now: Date)
    requires Valid(now) && k < |st.budgets|
    ensures StampedPrefix(st, k + 1, now) == StampedPrefix(st, k, now) + [Stamped(st, st.budgets[k], now)]
  {
  }

  /** The state after a whole sweep: each budget stamped or left alone. */
  function Swept(st: State, now: Date): (r: State)
    requires Valid(now)
    ensures |r.budgets| == |st.budgets|
    ensures r.users == st.users && r.accounts == st.accounts && r.transactions == st.transactions
  {
    st.(budgets := StampedPrefix(st, |st.budgets|, now))
  }

  /** The alerts a sweep over `budgets` sends, in order. */
  function AlertsOf(st: State, budgets: seq<Budget>, now: Date): seq<Email>
    requires Valid(now)
    decreases |budgets|
  {
    if |budgets| == 0 then []
    else
      var init, last := budgets[..|budgets| - 1], budgets[|budgets| - 1];
      AlertsOf(st, init, now) + (match Evaluate(st, last, now) case Some(e) => [e] case None => [])
  }

  /** The alerts of one more budget follow those of the budgets before it. */
  lemma AlertsOfStep(st: State, budgets: seq<Budget>, k: nat, now: Date)
    requires Valid(now) && k < |budgets|
    ensures AlertsOf(st, budgets[..k + 1], now)
            == AlertsOf(st, budgets[..k], now)
               + (match Evaluate(st, budgets[k], now) case Some(e) => [e] case None => [])
  {
    assert budgets[..k + 1][..k] == budgets[..k];
  }

  /** `checkBudgetAlert`: one pass over the budgets read at its start. The
      transactions and accounts are not written, so every step reads the
      same rows. */
  method CheckBudgetAlerts(st: State, now: Date) returns (st2: State, sent: seq<Email>)
    requires Valid(now)
    ensures st2.users == st.users && st2.accounts == st.accounts && st2.transactions == st.transactions
    ensures |st2.budgets| == |st.budgets|
    // only `lastAlertSent` is written, only on the firing branch, and only on the evaluated budget
    ensures forall j :: 0 <= j < |st.budgets| ==>
              st2.budgets[j] == if Evaluate(st, st.budgets[j], now).Some?
                                then st.budgets[j].(lastAlertSent := Some(now))
                                else st.budgets[j]
    ensures sent == AlertsOf(st, st.budgets, now)
    ensures |sent| <= |st.budgets|
  {
    var budgets: seq<Budget> := [];
    var k := 0;
    sent := [];
    while k < |st.budgets|
      invariant 0 <= k <= |st.budgets|
      invariant budgets == StampedPrefix(st, k, now)
      invariant sent == AlertsOf(st, st.budgets[..k], now)
      invariant |sent| <= k
    {
      var b := st.budgets[k];
      var alert := Evaluate(st, b, now);
      AlertsOfStep(st, st.budgets, k, now);
      StampedPrefixStep(st, k, now);
      if alert.Some? {
        sent := sent + [alert.value];
        budgets := budgets + [b.(lastAlertSent := Some(now))];
      } else {
        budgets := budgets + [b];
      }
      k := k + 1;
    }
    assert st.budgets[..k] == st.budgets;
    st2 := st.(budgets := budgets);
  }

  /** Once a budget carries a watermark from this month, it does not fire
      again this month, whatever the spending. */
  lemma NoRealertWithinMonth(st: State, b: Budget, stamp: Date, now: Date)
    requires Valid(now)
    requires b.lastAlertSent == Some(stamp) && SameMonth(stamp, now)
    ensures Evaluate(st, b, now).None?
  {
  }

  /** A month later the alert re-arms: with a watermark from another month,
      a budget over the threshold fires again. */
  lemma RearmsInNewMonth(st: State, b: Budget, now: Date)
    requires Valid(now)
    requires b.lastAlertSent.Some? && !SameMonth(b.lastAlertSent.value, now)
    requires UserById(st.users, b.userId).Some? && DefaultAccountOf(st.accounts, b.userId).Some?
    requires ReachesThreshold(TotalExpenses(st, b, DefaultAccountOf(st.accounts, b.userId).value, now), b.amount)
    ensures Evaluate(st, b, now).Some?
  {
  }

  /** How many of the sweeps at `times` send an alert for the `j`-th budget. */
  function AlertCount(st: State, times: seq<Date>, j: nat): nat
    requires forall i :: 0 <= i < |times| ==> Valid(times[i])
    requires j < |st.budgets|
    decreases |times|
  {
    if |times| == 0 then 0
    else (if Evaluate(st, st.budgets[j], times[0]).Some? then 1 else 0)
         + AlertCount(Swept(st, times[0]), times[1..], j)
  }

  lemma {:induction false} NoAlertsAfterStamp(st: State, times: seq<Date>, j: nat, stamp: Date)
    requires forall i :: 0 <= i < |times| ==> Valid(times[i]) && SameMonth(stamp, times[i])
    requires j < |st.budgets| && st.budgets[j].lastAlertSent == Some(stamp)
    ensures AlertCount(st, times, j) == 0
    decreases |times|
  {
    if |times| > 0 {
      NoRealertWithinMonth(st, st.budgets[j], stamp, times[0]);
      var st2 := Swept(st, times[0]);
      assert st2.budgets[j] == st.budgets[j];
      NoAlertsAfterStamp(st2, times[1..], j, stamp);
    }
  }

  /** At most one alert per budget per calendar month: however many sweeps run
      within one month, each budget is alerted at most once. */
  lemma {:induction false} AtMostOneAlertPerMonth(st: State, times: seq<Date>, j: nat, month: Date)
    requires forall i :: 0 <= i < |times| ==> Valid(times[i]) && SameMonth(month, times[i])
    requires j < |st.budgets|
    ensures AlertCount(st, times, j) <= 1
    decreases |times|
  {
    if |times| > 0 {
      var st2 := Swept(st, times[0]);
      if Evaluate(st, st.budgets[j], times[0]).Some? {
        assert st2.budgets[j].lastAlertSent == Some(times[0]);
        NoAlertsAfterStamp(st2, times[1..], j, times[0]);
      } else {
        AtMostOneAlertPerMonth(st2, times[1..], j, month);
      }
    }
  }
}
