/** The dashboard server actions (actions/dashboard.js): creating an account
    under the default-account rule, listing the caller's accounts newest
    first, and the Decimal-to-number serialisation of returned rows. */
module Accounts {
  import opened Results
  import opened Store
  import opened AccountSchema
  import opened JsNumbers

  const InvalidBalance := "Invalid balance amount"

  /** How many of `userId`'s accounts are flagged default. */
  function CountDefaults(accounts: seq<Account>, userId: Id): nat
    decreases |accounts|
  {
    if |accounts| == 0 then 0
    else
      var last := accounts[|accounts| - 1];
      CountDefaults(accounts[..|accounts| - 1], userId)
      + (if last.userId == userId && last.isDefault then 1 else 0)
  }

  /** The default-account invariant: no user has two default accounts. */
  ghost predicate AtMostOneDefault(accounts: seq<Account>) {
    forall u :: CountDefaults(accounts, u) <= 1
  }

  predicate HasAccounts(accounts: seq<Account>, userId: Id) {
    exists a :: a in accounts && a.userId == userId
  }

  /** `account.updateMany({ where: { userId, isDefault: true }, data: { isDefault: false } })`. */
  function ClearDefaults(accounts: seq<Account>, userId: Id): (r: seq<Account>)
    ensures |r| == |accounts|
    ensures forall j :: 0 <= j < |r| ==>
              r[j] == if accounts[j].userId == userId then accounts[j].(isDefault := false) else accounts[j]
  {
    seq(|accounts|, j requires 0 <= j < |accounts| =>
      if accounts[j].userId == userId then accounts[j].(isDefault := false) else accounts[j])
  }

  /** `createAccount(data)`; `newId` and `now` are the id and the creation
      time the database assigns. */
  function CreateAccount(st: State, auth: Option<string>, data: AccountInput, newId: Id, now: int)
    : (r: Result<(State, Account)>)
    ensures auth.None? ==> r == Err(Unauthorized)
    ensures (auth.Some? && forall u :: u in st.users ==> u.clerkUserId != auth.value)
            ==> r == Err(UserNotFound)
    // a non-numeric balance is rejected before any account is touched
    ensures r == Err(InvalidBalance) <==>
              auth.Some? && (exists u :: u in st.users && u.clerkUserId == auth.value)
              && ParseFloat(data.balance).None?
    // a known caller with a numeric balance gets the account
    ensures r.Ok? <==>
              auth.Some? && (exists u :: u in st.users && u.clerkUserId == auth.value)
              && ParseFloat(data.balance).Some?
    ensures r.Ok? ==>
              var (st2, a) := r.value;
              && auth.Some? && (exists u :: u in st.users && u.clerkUserId == auth.value && u.id == a.userId)
              && a.id == newId && a.name == data.name && a.kind == data.kind && a.createdAt == now
              && ParseFloat(data.balance) == Some(a.balance)
              // a user's first account is default whatever was requested
              && a.isDefault == (data.isDefault || !HasAccounts(st.accounts, a.userId))
              && st2.users == st.users && st2.transactions == st.transactions && st2.budgets == st.budgets
              && |st2.accounts| == |st.accounts| + 1 && st2.accounts[|st.accounts|] == a
              // a new default account demotes the owner's other accounts; nothing else changes
              && forall j :: 0 <= j < |st.accounts| ==>
                   st2.accounts[j] == if a.isDefault && st.accounts[j].userId == a.userId
                                      then st.accounts[j].(isDefault := false)
                                      else st.accounts[j]
  {
    var user :- CurrentUser(st, auth, UserNotFound);
    var balance := ParseFloat(data.balance);
    if balance.None? then Err(InvalidBalance)
    else
      var shouldBeDefault := ShouldBeDefault(st.accounts, user.id, data.isDefault);
      var kept := if shouldBeDefault then ClearDefaults(st.accounts, user.id) else st.accounts;
      var account := Account(newId, user.id, data.name, data.kind, balance.value, shouldBeDefault, now);
      Ok((st.(accounts := kept + [account]), account))
  }

  /** `existingAccounts.length === 0 ? true : data.isDefault`. */
  function ShouldBeDefault(accounts: seq<Account>, userId: Id, requested: bool): (r: bool)
    ensures r == (requested || !HasAccounts(accounts, userId))
  {
    match FirstWhere(accounts, (a: Account) => a.userId == userId)
    case None =>
      assert !HasAccounts(accounts, userId) by {
        forall a | a in accounts ensures a.userId != userId {
          var j :| 0 <= j < |accounts| && accounts[j] == a;
        }
      }
      true
    case Some(k) =>
      assert accounts[k] in accounts;
      requested
  }

  lemma {:induction false} CountDefaultsAppend(accounts: seq<Account>, a: Account, userId: Id)
    ensures CountDefaults(accounts + [a], userId)
            == CountDefaults(accounts, userId) + (if a.userId == userId && a.isDefault then 1 else 0)
  {
    assert (accounts + [a])[..|accounts|] == accounts;
  }

  /** Demoting one user's accounts zeroes that user's count and leaves every
      other user's count as it was. */
  lemma {:induction false} CountDefaultsCleared(accounts: seq<Account>, cleared: Id, userId: Id)
    ensures CountDefaults(ClearDefaults(accounts, cleared), userId)
            == if userId == cleared then 0 else CountDefaults(accounts, userId)
    decreases |accounts|
  {
    if |accounts| > 0 {
      var n := |accounts| - 1;
      var r := ClearDefaults(accounts, cleared);
      assert r[..n] == ClearDefaults(accounts[..n], cleared);
      CountDefaultsCleared(accounts[..n], cleared, userId);
    }
  }

  /** After `createAccount` the owner has exactly one default account when the
      new one is default, and as many as before otherwise; every other user's
      count is unchanged. */
  lemma CreateAccountDefaultCount(st: State, auth: Option<string>, data: AccountInput, newId: Id, now: int)
    requires CreateAccount(st, auth, data, newId, now).Ok?
    ensures var (st2, a) := CreateAccount(st, auth, data, newId, now).value;
            && CountDefaults(st2.accounts, a.userId)
               == (if a.isDefault then 1 else CountDefaults(st.accounts, a.userId))
            && forall u :: u != a.userId ==> CountDefaults(st2.accounts, u) == CountDefaults(st.accounts, u)
  {
    var (st2, a) := CreateAccount(st, auth, data, newId, now).value;
    var kept := st2.accounts[..|st.accounts|];
    assert st2.accounts == kept + [a];
    forall u
      ensures CountDefaults(st2.accounts, u)
              == CountDefaults(kept, u) + (if a.userId == u && a.isDefault then 1 else 0)
    {
      CountDefaultsAppend(kept, a, u);
    }
    if a.isDefault {
      assert kept == ClearDefaults(st.accounts, a.userId);
      forall u ensures CountDefaults(kept, u) == if u == a.userId then 0 else CountDefaults(st.accounts, u) {
        CountDefaultsCleared(st.accounts, a.userId, u);
      }
    } else {
      assert kept == st.accounts;
    }
  }

  /** `createAccount` keeps the invariant that no user has two default accounts. */
  lemma CreateAccountKeepsAtMostOneDefault(st: State, auth: Option<string>, data: AccountInput, newId: Id, now: int)
    requires CreateAccount(st, auth, data, newId, now).Ok?
    requires AtMostOneDefault(st.accounts)
    ensures AtMostOneDefault(CreateAccount(st, auth, data, newId, now).value.0.accounts)
  {
    CreateAccountDefaultCount(st, auth, data, newId, now);
  }

  /** A user with exactly one default account still has exactly one after
      `createAccount`, and a user's first account makes exactly one. */
  lemma CreateAccountKeepsExactlyOneDefault(st: State, auth: Option<string>, data: AccountInput, newId: Id, now: int)
    requires CreateAccount(st, auth, data, newId, now).Ok?
    requires var a := CreateAccount(st, auth, data, newId, now).value.1;
             CountDefaults(st.accounts, a.userId) == 1 || !HasAccounts(st.accounts, a.userId)
    ensures var (st2, a) := CreateAccount(st, auth, data, newId, now).value;
            CountDefaults(st2.accounts, a.userId) == 1
  {
    CreateAccountDefaultCount(st, auth, data, newId, now);
  }

  /** An account row with `_count.transactions`, as `getUserAccounts` returns it. */
  datatype AccountSummary = AccountSummary(account: Account, transactionCount: nat)

  /** Newest first: `orderBy: { createdAt: "desc" }`. */
  predicate NewestFirst(s: seq<Account>) {
    forall i, j :: 0 <= i < j < |s| ==> s[i].createdAt >= s[j].createdAt
  }

  /** `userId`'s accounts, in store order. */
  function OwnedBy(accounts: seq<Account>, userId: Id): (r: seq<Account>)
    ensures forall a :: a in r <==> a in accounts && a.userId == userId
    ensures forall a: Account :: a.userId == userId ==> multiset(r)[a] == multiset(accounts)[a]
    ensures forall a: Account :: a.userId != userId ==> multiset(r)[a] == 0
    decreases |accounts|
  {
    if |accounts| == 0 then []
    else
      var init, last := accounts[..|accounts| - 1], accounts[|accounts| - 1];
      assert accounts == init + [last];
      if last.userId == userId then OwnedBy(init, userId) + [last] else OwnedBy(init, userId)
  }

  lemma NewestFirstCons(x: Account, s: seq<Account>)
    requires NewestFirst(s)
    requires forall b :: b in s ==> x.createdAt >= b.createdAt
    ensures NewestFirst([x] + s)
  {
    var r := [x] + s;
    forall i, j | 0 <= i < j < |r| ensures r[i].createdAt >= r[j].createdAt {
      if i > 0 {
        assert r[i] == s[i - 1] && r[j] == s[j - 1];
      } else {
        assert r[j] == s[j - 1] && r[j] in s;
      }
    }
  }

  /** The head of a newest-first list is at least as new as every element. */
  lemma HeadIsNewest(s: seq<Account>)
    requires NewestFirst(s) && |s| > 0
    ensures forall b :: b in s ==> s[0].createdAt >= b.createdAt
  {
    forall b | b in s ensures s[0].createdAt >= b.createdAt {
      var i :| 0 <= i < |s| && s[i] == b;
    }
  }

  /** Putting the old head back in front of the list `a` was inserted into. */
  lemma InsertBehindHead(a: Account, s: seq<Account>, rest: seq<Account>)
    requires NewestFirst(s) && |s| > 0 && a.createdAt < s[0].createdAt
    requires NewestFirst(rest) && multiset(rest) == multiset(s[1..]) + multiset{a}
    ensures NewestFirst([s[0]] + rest)
    ensures multiset([s[0]] + rest) == multiset(s) + multiset{a}
  {
    HeadIsNewest(s);
    forall b | b in rest ensures s[0].createdAt >= b.createdAt {
      assert b in multiset(rest);
      if b != a {
        assert b in multiset(s[1..]);
        assert b in s[1..];
      }
    }
    NewestFirstCons(s[0], rest);
    assert s == [s[0]] + s[1..];
  }

  function InsertNewestFirst(a: Account, s: seq<Account>): (r: seq<Account>)
    requires NewestFirst(s)
    ensures NewestFirst(r)
    ensures multiset(r) == multiset(s) + multiset{a}
  {
    if |s| == 0 || a.createdAt >= s[0].createdAt then
      assert forall b :: b in s ==> a.createdAt >= b.createdAt by {
        if |s| > 0 { HeadIsNewest(s); }
      }
      NewestFirstCons(a, s);
      [a] + s
    else
      var rest := InsertNewestFirst(a, s[1..]);
      InsertBehindHead(a, s, rest);
      [s[0]] + rest
  }

  function SortNewestFirst(s: seq<Account>): (r: seq<Account>)
    ensures NewestFirst(r)
    ensures multiset(r) == multiset(s)
  {
    if |s| == 0 then []
    else
      assert s == [s[0]] + s[1..];
      InsertNewestFirst(s[0], SortNewestFirst(s[1..]))
  }

  function Summaries(accounts: seq<Account>, txs: seq<Transaction>): (r: seq<AccountSummary>)
    ensures |r| == |accounts|
    ensures forall i :: 0 <= i < |r| ==>
              r[i].account == accounts[i] && r[i].transactionCount == |RowsOf(txs, accounts[i].id)|
  {
    seq(|accounts|, i requires 0 <= i < |accounts| =>
      AccountSummary(accounts[i], |RowsOf(txs, accounts[i].id)|))
  }

  /** `getUserAccounts()`. */
  function GetUserAccounts(st: State, auth: Option<string>): (r: Result<seq<AccountSummary>>)
    ensures auth.None? ==> r == Err(Unauthorized)
    ensures auth.Some? ==> (r.Err? <==> forall u :: u in st.users ==> u.clerkUserId != auth.value)
    ensures auth.Some? && r.Err? ==> r == Err(UserNotFound)
    ensures r.Ok? ==>
              var accounts := seq(|r.value|, i requires 0 <= i < |r.value| => r.value[i].account);
              && NewestFirst(accounts)
              // exactly the caller's accounts, each once per row it has in the store
              && (exists u :: u in st.users && u.clerkUserId == auth.value
                   && multiset(accounts) == multiset(OwnedBy(st.accounts, u.id)))
              && forall i :: 0 <= i < |r.value| ==>
                   r.value[i].transactionCount == |RowsOf(st.transactions, r.value[i].account.id)|
  {
    var user :- CurrentUser(st, auth, UserNotFound);
    var sorted := SortNewestFirst(OwnedBy(st.accounts, user.id));
    var summaries := Summaries(sorted, st.transactions);
    assert seq(|summaries|, i requires 0 <= i < |summaries| => summaries[i].account) == sorted;
    Ok(summaries)
  }

  /** Every listed account belongs to the caller. */
  lemma GetUserAccountsOnlyOwn(st: State, auth: Option<string>)
    requires GetUserAccounts(st, auth).Ok?
    ensures var user := FindUserByClerk(st, auth.value).value;
            forall s :: s in GetUserAccounts(st, auth).value ==> s.account in st.accounts && s.account.userId == user.id
  {
    var user := FindUserByClerk(st, auth.value).value;
    var r := GetUserAccounts(st, auth).value;
    var owned := OwnedBy(st.accounts, user.id);
    var sorted := SortNewestFirst(owned);
    assert r == Summaries(sorted, st.transactions);
    forall s | s in r ensures s.account in st.accounts && s.account.userId == user.id {
      var i :| 0 <= i < |r| && r[i] == s;
      assert s.account == sorted[i];
      assert s.account in multiset(sorted);
      assert s.account in owned;
    }
  }

  /** Field values of a row object at the serialisation boundary: a Prisma
      `Decimal` object or a plain JavaScript value. */
  datatype Value = Decimal(d: real) | Number(n: real) | Text(s: string) | Flag(b: bool) | Null | Object

  /** JavaScript truthiness; every object, a `Decimal` included, is truthy. */
  predicate Truthy(v: Value) {
    match v
    case Decimal(_) => true
    case Number(n) => n != 0.0
    case Text(s) => |s| > 0
    case Flag(b) => b
    case Null => false
    case Object => true
  }

  /** Calling `.toNumber()` on `obj[key]`; only a `Decimal` has that method. */
  function ToNumberField(obj: map<string, Value>, key: string): Result<map<string, Value>>
  {
    if key in obj && Truthy(obj[key]) then
      if obj[key].Decimal? then Ok(obj[key := Number(obj[key].d)])
      else Err("obj." + key + ".toNumber is not a function")
    else Ok(obj)
  }

  /** `serializeTransaction(obj)`: a present `balance` and `amount` become
      plain numbers of the same value; every other field is copied. */
  function SerializeRecord(obj: map<string, Value>): (r: Result<map<string, Value>>)
    ensures r.Ok? ==> r.value.Keys == obj.Keys
    ensures r.Ok? ==> forall k :: k in obj && k != "balance" && k != "amount" ==> r.value[k] == obj[k]
    ensures r.Ok? ==> forall k :: (k == "balance" || k == "amount") && k in obj ==>
              && !r.value[k].Decimal?
              && (obj[k].Decimal? ==> r.value[k] == Number(obj[k].d))
              && (!obj[k].Decimal? ==> r.value[k] == obj[k])
    // only a truthy field that is not a Decimal makes `.toNumber()` throw
    ensures r.Err? <==> exists k :: (k == "balance" || k == "amount") && k in obj
                                    && Truthy(obj[k]) && !obj[k].Decimal?
  {
    var withBalance :- ToNumberField(obj, "balance");
    ToNumberField(withBalance, "amount")
  }
}
