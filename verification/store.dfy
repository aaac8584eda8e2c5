/** The relational store behind the application, as an immutable value:
    users, accounts, transactions and budgets. Every server action is a pure
    function from one `State` to the next, and each ORM `$transaction` block is
    one step of such a function, so a failure leaves the state it started from. */
module Store {
  import opened Results
  import opened Dates

  /** Primary keys are opaque strings (UUIDs in the database). */
  type Id = string

  datatype TxType = Income | Expense
  datatype AccountType = Current | Savings
  datatype Interval = Daily | Weekly | Monthly | Yearly

  datatype User = User(id: Id, clerkUserId: string, name: string, email: string, imageUrl: string)

  /** `createdAt` is the creation instant, as a clock reading. */
  datatype Account = Account(
    id: Id, userId: Id, name: string, kind: AccountType,
    balance: real, isDefault: bool, createdAt: int)

  /** `amount` is a magnitude; its direction comes from `kind`. */
  datatype Transaction = Transaction(
    id: Id, userId: Id, accountId: Id, kind: TxType, amount: real,
    description: string, date: Date, category: string,
    isRecurring: bool, recurringInterval: Option<Interval>,
    nextRecurringDate: Option<Date>, status: string)

  datatype Budget = Budget(id: Id, userId: Id, amount: real, lastAlertSent: Option<Date>)

  datatype State = State(
    users: seq<User>, accounts: seq<Account>,
    transactions: seq<Transaction>, budgets: seq<Budget>)

  const Unauthorized := "Unauthorized"
  const UserNotFound := "User not found"
  /** Stand-in for the ORM's error when an `update` names a row that does not
      exist; the action rethrows that error's message unchanged. */
  const RecordNotFound := "Record to update not found."

  /** The index of the first element satisfying `p`: the row a `findUnique`
      or `findFirst` query returns. */
  function FirstWhere<T>(s: seq<T>, p: T -> bool): (r: Option<nat>)
    ensures r.Some? ==> r.value < |s| && p(s[r.value])
    ensures r.Some? ==> forall j :: 0 <= j < r.value ==> !p(s[j])
    ensures r.None? <==> forall j :: 0 <= j < |s| ==> !p(s[j])
  {
    if |s| == 0 then None
    else if p(s[0]) then Some(0)
    else match FirstWhere(s[1..], p)
      case None => None
      case Some(k) => Some(k + 1)
  }

  /** `FirstWhere` finds index `k` when `k` matches and nothing before it does. */
  lemma FirstWhereIs<T>(s: seq<T>, p: T -> bool, k: nat)
    requires k < |s| && p(s[k])
    requires forall j :: 0 <= j < k ==> !p(s[j])
    ensures FirstWhere(s, p) == Some(k)
  {
  }

  /** `db.user.findUnique({ where: { clerkUserId } })`. */
  function FindUserByClerk(st: State, clerkUserId: string): (r: Option<User>)
    ensures r.Some? ==> r.value in st.users && r.value.clerkUserId == clerkUserId
    ensures r.None? <==> forall u :: u in st.users ==> u.clerkUserId != clerkUserId
  {
    match FirstWhere(st.users, (u: User) => u.clerkUserId == clerkUserId)
    case Some(i) => Some(st.users[i])
    case None =>
      assert forall u :: u in st.users ==> u.clerkUserId != clerkUserId by {
        forall u | u in st.users ensures u.clerkUserId != clerkUserId {
          var j :| 0 <= j < |st.users| && st.users[j] == u;
        }
      }
      None
  }

  /** The prologue shared by the server actions: no identity fails with
      "Unauthorized" before any read, and an identity without a user row
      fails with `notFound` (the exact wording differs between actions). */
  function CurrentUser(st: State, auth: Option<string>, notFound: string): (r: Result<User>)
    ensures auth.None? ==> r == Err(Unauthorized)
    ensures auth.Some? && r.Err? ==> r.error == notFound
    ensures auth.Some? ==> (r.Ok? <==> exists u :: u in st.users && u.clerkUserId == auth.value)
    ensures r.Ok? ==> auth.Some? && r.value in st.users && r.value.clerkUserId == auth.value
  {
    if auth.None? then Err(Unauthorized)
    else match FindUserByClerk(st, auth.value)
      case Some(u) => Ok(u)
      case None => Err(notFound)
  }

  /** The signed-amount convention: EXPENSE counts as -a and INCOME as +a. */
  function Signed(kind: TxType, amount: real): (r: real)
    ensures r == amount || r == -amount
    ensures r == amount <==> kind.Income? || amount == 0.0
  {
    if kind == Expense then -amount else amount
  }

  /** What one transaction row contributes to the balance of account `accountId`. */
  function Contribution(t: Transaction, accountId: Id): real {
    if t.accountId == accountId then Signed(t.kind, t.amount) else 0.0
  }

  /** The signed sum of the transactions posted against account `accountId`. */
  function SignedSum(txs: seq<Transaction>, accountId: Id): real
    decreases |txs|
  {
    if |txs| == 0 then 0.0
    else SignedSum(txs[..|txs| - 1], accountId) + Contribution(txs[|txs| - 1], accountId)
  }

  /** The part of an account's balance its transactions do not explain: the
      opening balance. The ledger invariant is that every step keeps it. */
  function Opening(a: Account, txs: seq<Transaction>): real {
    a.balance - SignedSum(txs, a.id)
  }

  /** Every account keeps its opening balance across a step from `st` to `st2`,
      i.e. balance = opening balance + signed sum of its transactions holds
      after the step whenever it held before. */
  predicate LedgerPreserved(st: State, st2: State) {
    && |st2.accounts| == |st.accounts|
    && forall j :: 0 <= j < |st.accounts| ==>
         st2.accounts[j].id == st.accounts[j].id
         && Opening(st2.accounts[j], st2.transactions) == Opening(st.accounts[j], st.transactions)
  }

  lemma {:induction false} SignedSumAppend(txs: seq<Transaction>, t: Transaction, accountId: Id)
    ensures SignedSum(txs + [t], accountId) == SignedSum(txs, accountId) + Contribution(t, accountId)
  {
    assert (txs + [t])[..|txs + [t]| - 1] == txs;
  }

  lemma {:induction false} SignedSumConcat(a: seq<Transaction>, b: seq<Transaction>, accountId: Id)
    ensures SignedSum(a + b, accountId) == SignedSum(a, accountId) + SignedSum(b, accountId)
    decreases |b|
  {
    if |b| == 0 {
      assert a + b == a;
    } else {
      var b' := b[..|b| - 1];
      assert (a + b)[..|a + b| - 1] == a + b';
      SignedSumConcat(a, b', accountId);
    }
  }

  /** Replacing one row changes the signed sum by exactly the difference of
      the two rows' contributions. */
  lemma {:induction false} SignedSumReplace(txs: seq<Transaction>, k: nat, t: Transaction, accountId: Id)
    requires k < |txs|
    ensures SignedSum(txs[k := t], accountId)
            == SignedSum(txs, accountId) - Contribution(txs[k], accountId) + Contribution(t, accountId)
  {
    var pre, post := txs[..k], txs[k + 1..];
    assert txs == pre + [txs[k]] + post;
    assert txs[k := t] == pre + [t] + post;
    SignedSumConcat(pre + [txs[k]], post, accountId);
    SignedSumConcat(pre + [t], post, accountId);
    SignedSumAppend(pre, txs[k], accountId);
    SignedSumAppend(pre, t, accountId);
  }

  /** Rows of other accounts do not enter an account's signed sum. */
  lemma {:induction false} SignedSumNoRows(txs: seq<Transaction>, accountId: Id)
    requires forall t :: t in txs ==> t.accountId != accountId
    ensures SignedSum(txs, accountId) == 0.0
    decreases |txs|
  {
    if |txs| > 0 {
      assert forall t :: t in txs[..|txs| - 1] ==> t in txs;
      SignedSumNoRows(txs[..|txs| - 1], accountId);
    }
  }

  /** The transactions posted against `accountId`, in store order. */
  function RowsOf(txs: seq<Transaction>, accountId: Id): (r: seq<Transaction>)
    ensures forall t :: t in r <==> t in txs && t.accountId == accountId
    ensures |r| <= |txs|
    decreases |txs|
  {
    if |txs| == 0 then []
    else if txs[|txs| - 1].accountId == accountId then RowsOf(txs[..|txs| - 1], accountId) + [txs[|txs| - 1]]
    else RowsOf(txs[..|txs| - 1], accountId)
  }

  /** The rows of every other account, in store order (`deleteMany` by account). */
  function RowsNotOf(txs: seq<Transaction>, accountId: Id): (r: seq<Transaction>)
    ensures forall t :: t in r <==> t in txs && t.accountId != accountId
    ensures |r| <= |txs|
    decreases |txs|
  {
    if |txs| == 0 then []
    else if txs[|txs| - 1].accountId != accountId then RowsNotOf(txs[..|txs| - 1], accountId) + [txs[|txs| - 1]]
    else RowsNotOf(txs[..|txs| - 1], accountId)
  }

  /** Deleting every row of one account leaves the signed sums of all other
      accounts as they were. */
  lemma {:induction false} SignedSumRowsNotOf(txs: seq<Transaction>, removed: Id, accountId: Id)
    requires accountId != removed
    ensures SignedSum(RowsNotOf(txs, removed), accountId) == SignedSum(txs, accountId)
    decreases |txs|
  {
    if |txs| > 0 {
      var init, last := txs[..|txs| - 1], txs[|txs| - 1];
      SignedSumRowsNotOf(init, removed, accountId);
      if last.accountId != removed {
        SignedSumAppend(RowsNotOf(init, removed), last, accountId);
      }
    }
  }
}
