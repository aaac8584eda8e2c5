/** The transaction server actions (actions/transaction.js): posting a new
    transaction, amending one, and reading one back, with the signed
    balance arithmetic that keeps `Account.balance` in step with the rows. */
module Ledger {
  import opened Results
  import opened Dates
  import opened Store

  /** The `data` object a client submits: every column the row takes from it. */
  datatype TransactionInput = TransactionInput(
    kind: TxType, amount: real, description: string, date: Date, category: string,
    accountId: Id, isRecurring: bool, recurringInterval: Option<Interval>, status: string)

  /** The rate limiter's verdict on a request, supplied from outside. */
  datatype RateDecision = Allow | DenyRateLimit(remaining: int, resetSeconds: int) | DenyOther

  const TooManyRequests := "Too many requests. Please try again later."
  const RequestBlocked := "Request blocked"
  const AccountNotFound := "Account not found"
  const TransactionNotFound := "Transaction not found"
  /** updateTransaction's own wording of the missing-user error. */
  const UpdateUserNotFound := "User not fount"

  /** `nextRecurringDate` of a written row; `nextDate` stands for
      `calculateNextRecurringDate`, which is not part of this model. */
  function NextRecurringDate(data: TransactionInput, nextDate: (Date, Interval) -> Date): (r: Option<Date>)
    ensures r.Some? <==> data.isRecurring && data.recurringInterval.Some?
    ensures r.Some? ==> r.value == nextDate(data.date, data.recurringInterval.value)
  {
    if data.isRecurring && data.recurringInterval.Some?
    then Some(nextDate(data.date, data.recurringInterval.value))
    else None
  }

  /** `t` holds every column `...data` spreads into the written row. */
  predicate CarriesInput(t: Transaction, data: TransactionInput) {
    && t.accountId == data.accountId && t.kind == data.kind && t.amount == data.amount
    && t.description == data.description && t.date == data.date && t.category == data.category
    && t.isRecurring == data.isRecurring && t.recurringInterval == data.recurringInterval
    && t.status == data.status
  }

  /** The row `{ ...data, userId, nextRecurringDate }` stored under `id`. */
  function Row(id: Id, userId: Id, data: TransactionInput, nextDate: (Date, Interval) -> Date): Transaction {
    Transaction(id, userId, data.accountId, data.kind, data.amount, data.description,
                data.date, data.category, data.isRecurring, data.recurringInterval,
                NextRecurringDate(data, nextDate), data.status)
  }

  /** `account.update({ where: { id: accountId }, data: { balance: { increment: delta } } })`. */
  function Credit(accounts: seq<Account>, accountId: Id, delta: real): (r: seq<Account>)
    ensures |r| == |accounts|
    ensures forall j :: 0 <= j < |r| ==>
              r[j] == if accounts[j].id == accountId
                      then accounts[j].(balance := accounts[j].balance + delta)
                      else accounts[j]
  {
    seq(|accounts|, j requires 0 <= j < |accounts| =>
      if accounts[j].id == accountId then accounts[j].(balance := accounts[j].balance + delta)
      else accounts[j])
  }

  /** The amendment's balance change: new signed amount minus prior signed amount. */
  function AmendDelta(oldKind: TxType, oldAmount: real, newKind: TxType, newAmount: real): (r: real)
    // undoing the old row and applying the new one
    ensures Signed(oldKind, oldAmount) + r == Signed(newKind, newAmount)
    ensures oldKind == newKind && oldAmount == newAmount ==> r == 0.0
  {
    Signed(newKind, newAmount) - Signed(oldKind, oldAmount)
  }

  /** `createTransaction(data)`. */
  function CreateTransaction(
    st: State, auth: Option<string>, decision: RateDecision, data: TransactionInput,
    newId: Id, nextDate: (Date, Interval) -> Date): (r: Result<(State, Transaction)>)
    // no identity: rejected before the rate limiter or the store is consulted
    ensures auth.None? ==> r == Err(Unauthorized)
    ensures auth.Some? && decision.DenyRateLimit? ==> r == Err(TooManyRequests)
    ensures auth.Some? && decision.DenyOther? ==> r == Err(RequestBlocked)
    ensures auth.Some? && decision.Allow? && (forall u :: u in st.users ==> u.clerkUserId != auth.value)
            ==> r == Err(UserNotFound)
    // a permitted request by a known caller on one of their accounts succeeds
    ensures r.Ok? <==>
              auth.Some? && decision.Allow?
              && (exists u :: u in st.users && u.clerkUserId == auth.value)
              && exists a :: a in st.accounts && a.id == data.accountId
                             && a.userId == FindUserByClerk(st, auth.value).value.id
    // an account that does not exist or is not the caller's is not found
    ensures r == Err(AccountNotFound) <==>
              auth.Some? && decision.Allow?
              && (exists u :: u in st.users && u.clerkUserId == auth.value)
              && forall a :: a in st.accounts && a.id == data.accountId ==>
                   a.userId != FindUserByClerk(st, auth.value).value.id
    ensures r.Ok? ==>
              var (st2, t) := r.value;
              && auth.Some? && decision.Allow?
              && (exists u :: u in st.users && u.clerkUserId == auth.value && u.id == t.userId)
              && FindUserByClerk(st, auth.value).Some?
              && t.userId == FindUserByClerk(st, auth.value).value.id
              && (exists a :: a in st.accounts && a.id == data.accountId && a.userId == t.userId)
              && t.id == newId && CarriesInput(t, data)
              && t.nextRecurringDate == NextRecurringDate(data, nextDate)
              // the row and the balance change are one step
              && st2.transactions == st.transactions + [t]
              && st2.users == st.users && st2.budgets == st.budgets
              && |st2.accounts| == |st.accounts|
              && forall j :: 0 <= j < |st.accounts| ==>
                   var a, a2 := st.accounts[j], st2.accounts[j];
                   && a2 == a.(balance := a2.balance)
                   && (a.id != data.accountId ==> a2.balance == a.balance)
                   && (a.id == data.accountId && data.kind == Expense ==> a2.balance == a.balance - data.amount)
                   && (a.id == data.accountId && data.kind == Income ==> a2.balance == a.balance + data.amount)
  {
    if auth.None? then Err(Unauthorized)
    else if decision.DenyRateLimit? then Err(TooManyRequests)
    else if decision.DenyOther? then Err(RequestBlocked)
    else
      var user :- CurrentUser(st, auth, UserNotFound);
      match FirstWhere(st.accounts, (a: Account) => a.id == data.accountId && a.userId == user.id)
      case None => Err(AccountNotFound)
      case Some(_) =>
        var t := Row(newId, user.id, data, nextDate);
        var st2 := st.(transactions := st.transactions + [t],
                       accounts := Credit(st.accounts, data.accountId, Signed(data.kind, data.amount)));
        Ok((st2, t))
  }

  /** `getTransaction(id)`: the caller's own row with that id. */
  function GetTransaction(st: State, auth: Option<string>, id: Id): (r: Result<Transaction>)
    ensures auth.None? ==> r == Err(Unauthorized)
    ensures (auth.Some? && forall u :: u in st.users ==> u.clerkUserId != auth.value)
            ==> r == Err(UserNotFound)
    // the caller's existing row is returned
    ensures r.Ok? <==>
              auth.Some? && (exists u :: u in st.users && u.clerkUserId == auth.value)
              && exists t :: t in st.transactions && t.id == id
                             && t.userId == FindUserByClerk(st, auth.value).value.id
    ensures r.Ok? ==>
              && r.value in st.transactions && r.value.id == id
              && r.value.userId == FindUserByClerk(st, auth.value).value.id
    // a row that does not exist or belongs to someone else is reported the same way
    ensures r == Err(TransactionNotFound) <==>
              auth.Some? && (exists u :: u in st.users && u.clerkUserId == auth.value)
              && forall t :: t in st.transactions && t.id == id ==>
                   t.userId != FindUserByClerk(st, auth.value).value.id
  {
    var user :- CurrentUser(st, auth, UserNotFound);
    match FirstWhere(st.transactions, (t: Transaction) => t.id == id && t.userId == user.id)
    case None => Err(TransactionNotFound)
    case Some(k) => Ok(st.transactions[k])
  }

  /** `updateTransaction(id, data)`. The whole delta goes to `data.accountId`,
      which is not checked against the caller, and the transaction's previous
      account is never adjusted. */
  function UpdateTransaction(
    st: State, auth: Option<string>, id: Id, data: TransactionInput,
    nextDate: (Date, Interval) -> Date): (r: Result<(State, Transaction)>)
    ensures auth.None? ==> r == Err(Unauthorized)
    ensures (auth.Some? && forall u :: u in st.users ==> u.clerkUserId != auth.value)
            ==> r == Err(UpdateUserNotFound)
    // an owned row naming an existing account is amended
    ensures r.Ok? <==>
              GetTransaction(st, auth, id).Ok? && exists a :: a in st.accounts && a.id == data.accountId
    ensures r.Ok? ==>
              var (st2, t) := r.value;
              var prior := GetTransaction(st, auth, id);
              && prior.Ok?
              // the caller's row now holds the amended row
              && (exists k :: 0 <= k < |st.transactions| && st.transactions[k] == prior.value
                                && st2.transactions == st.transactions[k := t])
              && t.id == id && t.userId == prior.value.userId
              && auth.Some? && FindUserByClerk(st, auth.value).Some?
              && t.userId == FindUserByClerk(st, auth.value).value.id
              && CarriesInput(t, data)
              && t.nextRecurringDate == NextRecurringDate(data, nextDate)
              && (exists a :: a in st.accounts && a.id == data.accountId)
              && st2.users == st.users && st2.budgets == st.budgets
              && |st2.transactions| == |st.transactions|
              && (forall k :: 0 <= k < |st.transactions| ==>
                    st2.transactions[k] == st.transactions[k] || st.transactions[k] == prior.value)
              && |st2.accounts| == |st.accounts|
              // every row named data.accountId moves by the amend delta, whoever owns it
              && forall j :: 0 <= j < |st.accounts| ==>
                   st2.accounts[j] == if st.accounts[j].id == data.accountId
                     then st.accounts[j].(balance := st.accounts[j].balance
                                            + AmendDelta(prior.value.kind, prior.value.amount, data.kind, data.amount))
                     else st.accounts[j]
  {
    var user :- CurrentUser(st, auth, UpdateUserNotFound);
    match FirstWhere(st.transactions, (t: Transaction) => t.id == id && t.userId == user.id)
    case None => Err(TransactionNotFound)
    case Some(k) =>
      var prior := st.transactions[k];
      var delta := AmendDelta(prior.kind, prior.amount, data.kind, data.amount);
      if FirstWhere(st.accounts, (a: Account) => a.id == data.accountId).None? then
        Err(RecordNotFound)
      else
        var t := Row(id, user.id, data, nextDate);
        var st2 := st.(transactions := st.transactions[k := t],
                       accounts := Credit(st.accounts, data.accountId, delta));
        Ok((st2, t))
  }

  /** The amendment fails exactly where the read fails, with the same
      message, and past the read only for an account id that does not exist. */
  lemma UpdateTransactionFailsLikeGet(
    st: State, auth: Option<string>, id: Id, data: TransactionInput,
    nextDate: (Date, Interval) -> Date)
    ensures GetTransaction(st, auth, id) == Err(TransactionNotFound)
            <==> UpdateTransaction(st, auth, id, data, nextDate) == Err(TransactionNotFound)
    ensures UpdateTransaction(st, auth, id, data, nextDate) == Err(RecordNotFound) <==>
              GetTransaction(st, auth, id).Ok? && forall a :: a in st.accounts ==> a.id != data.accountId
  {
  }

  /** Posting keeps balance = opening balance + signed sum for every account. */
  lemma CreateTransactionPreservesLedger(
    st: State, auth: Option<string>, decision: RateDecision, data: TransactionInput,
    newId: Id, nextDate: (Date, Interval) -> Date)
    requires CreateTransaction(st, auth, decision, data, newId, nextDate).Ok?
    ensures LedgerPreserved(st, CreateTransaction(st, auth, decision, data, newId, nextDate).value.0)
  {
    var (st2, t) := CreateTransaction(st, auth, decision, data, newId, nextDate).value;
    forall j | 0 <= j < |st.accounts|
      ensures Opening(st2.accounts[j], st2.transactions) == Opening(st.accounts[j], st.transactions)
    {
      SignedSumAppend(st.transactions, t, st.accounts[j].id);
    }
  }

  /** Replacing row `k` by `t` on the same account, and moving that account's
      balance by the amend delta, keeps every account's opening balance. */
  lemma AmendInPlacePreservesLedger(st: State, k: nat, t: Transaction)
    requires k < |st.transactions| && st.transactions[k].accountId == t.accountId
    ensures var prior := st.transactions[k];
            LedgerPreserved(st, st.(transactions := st.transactions[k := t],
                                    accounts := Credit(st.accounts, t.accountId,
                                                       AmendDelta(prior.kind, prior.amount, t.kind, t.amount))))
  {
    forall j | 0 <= j < |st.accounts| {
      SignedSumReplace(st.transactions, k, t, st.accounts[j].id);
    }
  }

  /** An amendment that keeps the transaction on its account keeps the ledger
      invariant for every account. */
  lemma UpdateTransactionPreservesLedger(
    st: State, auth: Option<string>, id: Id, data: TransactionInput,
    nextDate: (Date, Interval) -> Date)
    requires UpdateTransaction(st, auth, id, data, nextDate).Ok?
    requires GetTransaction(st, auth, id).Ok? ==> GetTransaction(st, auth, id).value.accountId == data.accountId
    ensures LedgerPreserved(st, UpdateTransaction(st, auth, id, data, nextDate).value.0)
  {
    var user := CurrentUser(st, auth, UpdateUserNotFound).value;
    var k := FirstWhere(st.transactions, (t: Transaction) => t.id == id && t.userId == user.id).value;
    assert GetTransaction(st, auth, id) == Ok(st.transactions[k]);
    var t := Row(id, user.id, data, nextDate);
    AmendInPlacePreservesLedger(st, k, t);
  }

  /** Replacing row `k` by `t` on another account, while crediting only
      `t`'s account with the amend delta, shifts both accounts' opening
      balances by the prior signed amount. */
  lemma AmendAcrossAccountsDrifts(st: State, k: nat, t: Transaction)
    requires k < |st.transactions| && st.transactions[k].accountId != t.accountId
    ensures var prior := st.transactions[k];
            var st2 := st.(transactions := st.transactions[k := t],
                           accounts := Credit(st.accounts, t.accountId,
                                              AmendDelta(prior.kind, prior.amount, t.kind, t.amount)));
            forall j :: 0 <= j < |st.accounts| ==>
              && (st.accounts[j].id == prior.accountId ==>
                    && st2.accounts[j] == st.accounts[j]
                    && Opening(st2.accounts[j], st2.transactions)
                       == Opening(st.accounts[j], st.transactions) + Signed(prior.kind, prior.amount))
              && (st.accounts[j].id == t.accountId ==>
                    Opening(st2.accounts[j], st2.transactions)
                    == Opening(st.accounts[j], st.transactions) - Signed(prior.kind, prior.amount))
  {
    forall j | 0 <= j < |st.accounts| {
      SignedSumReplace(st.transactions, k, t, st.accounts[j].id);
    }
  }

  /** When an amendment moves a transaction to another account, the prior
      account's balance is left as it was while its rows lose the prior signed
      amount, and the new account is short by the same amount: the ledger
      invariant breaks on both whenever the prior amount is non-zero. */
  lemma UpdateTransactionMovingAccountDrifts(
    st: State, auth: Option<string>, id: Id, data: TransactionInput,
    nextDate: (Date, Interval) -> Date)
    requires UpdateTransaction(st, auth, id, data, nextDate).Ok?
    requires GetTransaction(st, auth, id).Ok?
    requires GetTransaction(st, auth, id).value.accountId != data.accountId
    ensures var st2 := UpdateTransaction(st, auth, id, data, nextDate).value.0;
            var prior := GetTransaction(st, auth, id).value;
            forall j :: 0 <= j < |st.accounts| ==>
              && (st.accounts[j].id == prior.accountId ==>
                    && st2.accounts[j] == st.accounts[j]
                    && Opening(st2.accounts[j], st2.transactions)
                       == Opening(st.accounts[j], st.transactions) + Signed(prior.kind, prior.amount))
              && (st.accounts[j].id == data.accountId ==>
                    Opening(st2.accounts[j], st2.transactions)
                    == Opening(st.accounts[j], st.transactions) - Signed(prior.kind, prior.amount))
  {
    var user := CurrentUser(st, auth, UpdateUserNotFound).value;
    var k := FirstWhere(st.transactions, (t: Transaction) => t.id == id && t.userId == user.id).value;
    assert GetTransaction(st, auth, id) == Ok(st.transactions[k]);
    AmendAcrossAccountsDrifts(st, k, Row(id, user.id, data, nextDate));
  }

  /** A posted transaction reads back unchanged when its id was fresh. */
  lemma CreateThenGet(
    st: State, auth: Option<string>, decision: RateDecision, data: TransactionInput,
    newId: Id, nextDate: (Date, Interval) -> Date)
    requires forall t :: t in st.transactions ==> t.id != newId
    requires CreateTransaction(st, auth, decision, data, newId, nextDate).Ok?
    ensures var (st2, t) := CreateTransaction(st, auth, decision, data, newId, nextDate).value;
            GetTransaction(st2, auth, newId) == Ok(t)
  {
    var (st2, t) := CreateTransaction(st, auth, decision, data, newId, nextDate).value;
    var user := CurrentUser(st, auth, UserNotFound).value;
    assert CurrentUser(st2, auth, UserNotFound) == Ok(user);
    var p := (x: Transaction) => x.id == newId && x.userId == user.id;
    assert forall j :: 0 <= j < |st.transactions| ==> !p(st2.transactions[j]);
    assert p(st2.transactions[|st.transactions|]);
  }

  /** Transaction ids are the table's primary key. */
  predicate UniqueTransactionIds(txs: seq<Transaction>) {
    forall i, j :: 0 <= i < j < |txs| ==> txs[i].id != txs[j].id
  }

  /** An amended row reads back as the amendment. */
  lemma UpdateThenGet(
    st: State, auth: Option<string>, id: Id, data: TransactionInput,
    nextDate: (Date, Interval) -> Date)
    requires UniqueTransactionIds(st.transactions)
    requires UpdateTransaction(st, auth, id, data, nextDate).Ok?
    ensures var (st2, t) := UpdateTransaction(st, auth, id, data, nextDate).value;
            GetTransaction(st2, auth, id) == Ok(t)
  {
    var (st2, t) := UpdateTransaction(st, auth, id, data, nextDate).value;
    var user := CurrentUser(st, auth, UpdateUserNotFound).value;
    var p := (x: Transaction) => x.id == id && x.userId == user.id;
    var k := FirstWhere(st.transactions, p).value;
    assert st2.transactions == st.transactions[k := t];
    assert forall j :: 0 <= j < k ==> !p(st2.transactions[j]);
    FirstWhereIs(st2.transactions, p, k);
  }

  /** The amendment from an EXPENSE of 50 to an INCOME of 30 moves the balance by +80. */
  lemma AmendExpenseToIncomeExample()
    ensures AmendDelta(Expense, 50.0, Income, 30.0) == 80.0
  {
  }
}
