/** The demo-data seeder (actions/seed.js): replaces every transaction of one
    fixed account by eleven days of generated income and expenses, and sets
    the account's balance to their signed sum, all in one step.
    `Math.random()` and `crypto.randomUUID()` are supplied as streams of draws. */
module Seed {
  import opened Results
  import opened Dates
  import opened Store
  import opened JsNumbers

  const SeedAccountId: Id := "62720506-8dff-4b3d-8b05-0c025b873f90"
  const SeedUserId: Id := "bc149197-4d18-4bd9-a4ca-b0651d6f759a"
  const Completed := "COMPLETED"
  /** The seeded days run from `SeedDays` days ago to today. */
  const SeedDays: nat := 10

  /** A category with the range its generated amounts are drawn from. */
  datatype Category = Category(name: string, min: int, max: int)

  /** `CATEGORIES[type]`. */
  function Categories(kind: TxType): seq<Category> {
    match kind
    case Income => [Category("工资收益", 5000, 8000), Category("基金收益", 1000, 3000)]
    case Expense => [
      Category("房租", 1000, 2000), Category("交通", 100, 500), Category("通讯", 50, 200),
      Category("娱乐", 50, 200), Category("饮食", 50, 150), Category("购物", 100, 500),
      Category("教育", 100, 1000), Category("医疗", 50, 300), Category("旅游", 500, 2000)]
  }

  /** `Number(x.toFixed(2))`: `x` rounded to the nearest hundredth, halves up. */
  function Round2(x: real): real {
    ((x * 100.0 + 0.5).Floor as real) / 100.0
  }

  /** A draw in [0, 1) scales a width `w` to somewhere in [0, w]. */
  lemma ScaledDraw(r: real, w: real)
    requires 0.0 <= r < 1.0 && w >= 0.0
    ensures 0.0 <= r * w <= w
  {
  }

  /** Rounding to cents keeps a value between two whole numbers between them. */
  lemma RoundedWithin(min: int, max: int, x: real)
    requires min as real <= x <= max as real
    ensures min as real <= Round2(x) <= max as real
  {
    assert 100 * min <= (x * 100.0 + 0.5).Floor <= 100 * max;
  }

  /** `getRandomAmount(min, max)` for the draw `r` of `Math.random()`. */
  function RandomAmount(min: int, max: int, r: real): (a: real)
    requires min <= max && 0.0 <= r < 1.0
    ensures min as real <= a <= max as real
  {
    var x := r * (max - min) as real + min as real;
    ScaledDraw(r, (max - min) as real);
    RoundedWithin(min, max, x);
    Round2(x)
  }

  /** `getRandomCategory(type)` for the draws `pick` (which category) and `r`
      (which amount). */
  function RandomCategory(kind: TxType, pick: real, r: real): (result: (string, real))
    requires 0.0 <= pick < 1.0 && 0.0 <= r < 1.0
    ensures WithinSomeCategory(Categories(kind), result.0, result.1)
  {
    var categories := Categories(kind);
    var i := (pick * |categories| as real).Floor;
    assert 0 <= i < |categories| by {
      assert pick * |categories| as real < |categories| as real;
    }
    var c := categories[i];
    assert c in categories;
    var amount := RandomAmount(c.min, c.max, r);
    WithinSomeCategoryIntro(categories, i, amount);
    (c.name, amount)
  }

  /** `${type === "INCOME" ? "收入：" : "支出："} ${category}`. */
  function Description(kind: TxType, category: string): string {
    (if kind == Income then "收入：" else "支出：") + " " + category
  }

  /** `amount` lies in the range of a category in `cs` named `name`. */
  predicate WithinSomeCategory(cs: seq<Category>, name: string, amount: real)
    decreases |cs|
  {
    |cs| > 0
    && ((cs[0].name == name && cs[0].min as real <= amount <= cs[0].max as real)
        || WithinSomeCategory(cs[1..], name, amount))
  }

  /** `WithinSomeCategory` is exactly "some category of `cs` has this name
      and a range holding the amount". */
  lemma {:induction false} WithinSomeCategoryMeans(cs: seq<Category>, name: string, amount: real)
    ensures WithinSomeCategory(cs, name, amount) <==>
              exists c :: c in cs && c.name == name && c.min as real <= amount <= c.max as real
    decreases |cs|
  {
    if |cs| > 0 {
      WithinSomeCategoryMeans(cs[1..], name, amount);
      forall c | c in cs ensures c == cs[0] || c in cs[1..] {
        var k :| 0 <= k < |cs| && cs[k] == c;
        if k > 0 { assert cs[1..][k - 1] == c; }
      }
    }
  }

  lemma {:induction false} WithinSomeCategoryIntro(cs: seq<Category>, k: nat, amount: real)
    requires k < |cs| && cs[k].min as real <= amount <= cs[k].max as real
    ensures WithinSomeCategory(cs, cs[k].name, amount)
    decreases k
  {
    if k > 0 {
      WithinSomeCategoryIntro(cs[1..], k - 1, amount);
    }
  }

  /** What every generated row satisfies. */
  ghost predicate Seeded(t: Transaction, today: Date)
    requires Valid(today)
  {
    && t.userId == SeedUserId && t.accountId == SeedAccountId && t.status == Completed
    && WithinSomeCategory(Categories(t.kind), t.category, t.amount)
    && t.description == Description(t.kind, t.category)
    && !t.isRecurring && t.recurringInterval.None? && t.nextRecurringDate.None?
    // one of the eleven days ending today
    && exists n: nat :: n <= SeedDays && t.date == SubDays(today, n)
  }

  /** One generated row: `kindDraw` decides the type (40% INCOME), `pick`
      the category and `amountDraw` the amount, dated `daysAgo` days before
      `today`. */
  function GeneratedRow(id: Id, today: Date, daysAgo: nat, kindDraw: real, pick: real, amountDraw: real): (t: Transaction)
    requires Valid(today) && daysAgo <= 10
    requires 0.0 <= pick < 1.0 && 0.0 <= amountDraw < 1.0
    ensures Seeded(t, today) && t.id == id
    ensures t.date == SubDays(today, daysAgo)
    ensures t.kind == Income <==> kindDraw < 0.4
  {
    var kind := if kindDraw < 0.4 then Income else Expense;
    var (category, amount) := RandomCategory(kind, pick, amountDraw);
    var date := SubDays(today, daysAgo);
    Transaction(id, SeedUserId, SeedAccountId, kind, amount, Description(kind, category),
                date, category, false, None, None, Completed)
  }

  /** Every generated row is well formed and takes the next UUID in turn. */
  ghost predicate AllSeeded(generated: seq<Transaction>, today: Date, uuids: seq<Id>)
    requires Valid(today)
  {
    && |generated| <= |uuids|
    && forall k :: 0 <= k < |generated| ==> Seeded(generated[k], today) && generated[k].id == uuids[k]
  }

  /** How many of `rows` are dated `d`. */
  function CountOn(rows: seq<Transaction>, d: Date): nat
    decreases |rows|
  {
    if |rows| == 0 then 0
    else CountOn(rows[..|rows| - 1], d) + (if rows[|rows| - 1].date == d then 1 else 0)
  }

  lemma CountOnAppend(rows: seq<Transaction>, t: Transaction)
    ensures forall d :: CountOn(rows + [t], d) == CountOn(rows, d) + (if t.date == d then 1 else 0)
  {
    assert (rows + [t])[..|rows|] == rows;
  }

  /** A whole seeding's output: one to three rows for each of the eleven
      days, every row seeded. */
  ghost predicate SeededBatch(generated: seq<Transaction>, today: Date, uuids: seq<Id>)
    requires Valid(today)
  {
    && 11 <= |generated| <= 33 && AllSeeded(generated, today, uuids)
    && forall n: nat :: n <= SeedDays ==> 1 <= CountOn(generated, SubDays(today, n)) <= 3
  }

  lemma AllSeededAppend(generated: seq<Transaction>, today: Date, uuids: seq<Id>, t: Transaction)
    requires Valid(today) && AllSeeded(generated, today, uuids)
    requires |generated| < |uuids| && Seeded(t, today) && t.id == uuids[|generated|]
    ensures AllSeeded(generated + [t], today, uuids)
  {
    var g := generated + [t];
    forall k | 0 <= k < |g| ensures Seeded(g[k], today) && g[k].id == uuids[k] {
      if k < |generated| {
        assert g[k] == generated[k];
      } else {
        assert g[k] == t;
      }
    }
  }

  /** The generated rows all belong to the demo account. */
  lemma AllSeededOnSeedAccount(generated: seq<Transaction>, today: Date, uuids: seq<Id>)
    requires Valid(today) && AllSeeded(generated, today, uuids)
    ensures forall t :: t in generated ==> t.accountId == SeedAccountId
  {
    forall t | t in generated ensures t.accountId == SeedAccountId {
      var k :| 0 <= k < |generated| && generated[k] == t;
      assert Seeded(generated[k], today);
    }
  }

  /** One day of the generation loop: 1 to 3 rows dated `daysAgo` days
      before `today`, appended to `generated`. The draws are read from
      `rand` at `pos` on: one for the row count, then three per row (type,
      category, amount). */
  method GenerateDay(today: Date, daysAgo: nat, rand: seq<real>, pos: nat, uuids: seq<Id>,
                     generated: seq<Transaction>, totalBalance: real)
    returns (generated2: seq<Transaction>, totalBalance2: real, pos2: nat)
    requires Valid(today) && daysAgo <= SeedDays
    requires pos + 10 <= |rand| && forall i :: 0 <= i < |rand| ==> 0.0 <= rand[i] < 1.0
    requires |generated| + 3 <= |uuids|
    requires AllSeeded(generated, today, uuids)
    requires totalBalance == SignedSum(generated, SeedAccountId)
    ensures |generated| + 1 <= |generated2| <= |generated| + 3
    ensures pos2 == pos + 1 + 3 * (|generated2| - |generated|)
    ensures AllSeeded(generated2, today, uuids)
    ensures totalBalance2 == SignedSum(generated2, SeedAccountId)
    // the rows so far are kept, and every new row is dated `daysAgo` back
    ensures forall k :: 0 <= k < |generated| ==> generated2[k] == generated[k]
    ensures forall k :: |generated| <= k < |generated2| ==> generated2[k].date == SubDays(today, daysAgo)
    ensures CountOn(generated2, SubDays(today, daysAgo))
            == CountOn(generated, SubDays(today, daysAgo)) + (|generated2| - |generated|)
    ensures forall d :: d != SubDays(today, daysAgo) ==> CountOn(generated2, d) == CountOn(generated, d)
  {
    var day := SubDays(today, daysAgo);
    var perDay := (rand[pos] * 3.0).Floor + 1;
    assert 1 <= perDay <= 3 by {
      assert rand[pos] * 3.0 < 3.0;
    }
    generated2, totalBalance2, pos2 := generated, totalBalance, pos + 1;
    var j := 0;
    while j < perDay
      invariant 0 <= j <= perDay
      invariant |generated2| == |generated| + j
      invariant pos2 == pos + 1 + 3 * j
      invariant totalBalance2 == SignedSum(generated2, SeedAccountId)
      invariant AllSeeded(generated2, today, uuids)
      invariant forall k :: 0 <= k < |generated| ==> generated2[k] == generated[k]
      invariant forall k :: |generated| <= k < |generated2| ==> generated2[k].date == day
      invariant CountOn(generated2, day) == CountOn(generated, day) + j
      invariant forall d :: d != day ==> CountOn(generated2, d) == CountOn(generated, d)
    {
      var t := GeneratedRow(uuids[|generated2|], today, daysAgo, rand[pos2], rand[pos2 + 1], rand[pos2 + 2]);
      pos2 := pos2 + 3;
      totalBalance2 := totalBalance2 + (if t.kind == Income then t.amount else -t.amount);
      SignedSumAppend(generated2, t, SeedAccountId);
      AllSeededAppend(generated2, today, uuids, t);
      CountOnAppend(generated2, t);
      generated2 := generated2 + [t];
      j := j + 1;
    }
  }

  /** The generation loops of `seedTransactions()`: for each day from ten
      days ago to today, 1 to 3 rows. `rand` holds the successive
      `Math.random()` draws and `uuids` the successive `crypto.randomUUID()`
      values; `totalBalance` is the running signed sum. */
  method GenerateTransactions(today: Date, rand: seq<real>, uuids: seq<Id>)
    returns (generated: seq<Transaction>, totalBalance: real)
    requires Valid(today)
    requires |rand| >= 110 && forall i :: 0 <= i < |rand| ==> 0.0 <= rand[i] < 1.0
    requires |uuids| >= 33
    ensures SeededBatch(generated, today, uuids)
    ensures totalBalance == SignedSum(generated, SeedAccountId)
  {
    generated := [];
    totalBalance := 0.0;
    var pos: nat := 0;
    var i := SeedDays as int;
    while i >= 0
      invariant -1 <= i <= SeedDays
      invariant SeedDays - i <= |generated| <= 3 * (SeedDays - i)
      invariant pos <= 10 * (SeedDays - i)
      invariant totalBalance == SignedSum(generated, SeedAccountId)
      invariant AllSeeded(generated, today, uuids)
      // the days already generated hold 1 to 3 rows each, the others none
      invariant forall n: nat :: i < n <= SeedDays ==> 1 <= CountOn(generated, SubDays(today, n)) <= 3
      invariant forall n: nat :: n <= i ==> CountOn(generated, SubDays(today, n)) == 0
    {
      var day := SubDays(today, i);
      forall n: nat | n <= SeedDays && n != i ensures SubDays(today, n) != day {
        if n < i {
          SubDaysStrictlyDecreasing(today, n, i);
        } else {
          SubDaysStrictlyDecreasing(today, i, n);
        }
      }
      generated, totalBalance, pos := GenerateDay(today, i, rand, pos, uuids, generated, totalBalance);
      i := i - 1;
    }
  }

  /** What a successful seeding leaves behind: the account's earlier rows
      are replaced by exactly the generated list, its balance is the signed
      sum of the new rows (INCOME +, EXPENSE -) so its ledger holds with
      opening 0, every other account and its ledger is untouched, and the
      message gives the count. */
  predicate Reseeded(st: State, st2: State, message: string, generated: seq<Transaction>) {
    && st2.transactions == RowsNotOf(st.transactions, SeedAccountId) + generated
    && st2.users == st.users && st2.budgets == st.budgets
    && |st2.accounts| == |st.accounts|
    && (forall j :: 0 <= j < |st.accounts| ==>
          if st.accounts[j].id == SeedAccountId
          then st2.accounts[j] == st.accounts[j].(balance := st2.accounts[j].balance)
               && st2.accounts[j].balance == SignedSum(generated, SeedAccountId)
               && st2.accounts[j].balance == SignedSum(st2.transactions, SeedAccountId)
          else st2.accounts[j] == st.accounts[j]
               && SignedSum(st2.transactions, st.accounts[j].id) == SignedSum(st.transactions, st.accounts[j].id))
    && message == "Created " + NatToString(|generated|) + " transactions"
  }

  /** `seedTransactions()` on the calendar day `today`, with the draws and
      UUIDs of `GenerateTransactions`; `generated` is the generated list. */
  method SeedTransactions(st: State, today: Date, rand: seq<real>, uuids: seq<Id>)
    returns (r: Result<(State, string)>, generated: seq<Transaction>)
    requires Valid(today)
    requires |rand| >= 110 && forall i :: 0 <= i < |rand| ==> 0.0 <= rand[i] < 1.0
    requires |uuids| >= 33
    ensures SeededBatch(generated, today, uuids)
    ensures r.Err? <==> forall a :: a in st.accounts ==> a.id != SeedAccountId
    ensures r.Ok? ==> Reseeded(st, r.value.0, r.value.1, generated)
  {
    var totalBalance;
    generated, totalBalance := GenerateTransactions(today, rand, uuids);
    AllSeededOnSeedAccount(generated, today, uuids);
    ReplaceReseeds(st, generated, totalBalance);
    r := Replace(st, generated, totalBalance);
  }

  /** The `$transaction` block: delete the account's rows, insert the
      generated ones, set the balance. The update fails when the account does
      not exist, and then nothing is written. */
  function Replace(st: State, generated: seq<Transaction>, totalBalance: real): (r: Result<(State, string)>)
    ensures r.Err? <==> forall a :: a in st.accounts ==> a.id != SeedAccountId
    ensures r.Ok? ==>
              && r.value.0.transactions == RowsNotOf(st.transactions, SeedAccountId) + generated
              && r.value.0.users == st.users && r.value.0.budgets == st.budgets
              && |r.value.0.accounts| == |st.accounts|
              && (forall j :: 0 <= j < |st.accounts| ==>
                    r.value.0.accounts[j] == if st.accounts[j].id == SeedAccountId
                                             then st.accounts[j].(balance := totalBalance)
                                             else st.accounts[j])
              && r.value.1 == "Created " + NatToString(|generated|) + " transactions"
  {
    match FirstWhere(st.accounts, (a: Account) => a.id == SeedAccountId)
    case None =>
      assert forall a :: a in st.accounts ==> a.id != SeedAccountId by {
        forall a | a in st.accounts ensures a.id != SeedAccountId {
          var j :| 0 <= j < |st.accounts| && st.accounts[j] == a;
        }
      }
      Err(RecordNotFound)
    case Some(k) =>
      assert st.accounts[k] in st.accounts;
      var accounts := seq(|st.accounts|, j requires 0 <= j < |st.accounts| =>
        if st.accounts[j].id == SeedAccountId then st.accounts[j].(balance := totalBalance) else st.accounts[j]);
      var st2 := st.(transactions := RowsNotOf(st.transactions, SeedAccountId) + generated, accounts := accounts);
      Ok((st2, "Created " + NatToString(|generated|) + " transactions"))
  }

  /** Replacing the seeded account's rows leaves that account with the
      generated rows' signed sum and every other account's sum unchanged. */
  lemma ReplaceKeepsOtherLedgers(st: State, generated: seq<Transaction>)
    requires forall t :: t in generated ==> t.accountId == SeedAccountId
    ensures SignedSum(RowsNotOf(st.transactions, SeedAccountId) + generated, SeedAccountId)
            == SignedSum(generated, SeedAccountId)
    ensures forall id :: id != SeedAccountId ==>
              SignedSum(RowsNotOf(st.transactions, SeedAccountId) + generated, id) == SignedSum(st.transactions, id)
  {
    var kept := RowsNotOf(st.transactions, SeedAccountId);
    SignedSumConcat(kept, generated, SeedAccountId);
    SignedSumNoRows(kept, SeedAccountId);
    forall id | id != SeedAccountId
      ensures SignedSum(kept + generated, id) == SignedSum(st.transactions, id)
    {
      SignedSumConcat(kept, generated, id);
      SignedSumNoRows(generated, id);
      SignedSumRowsNotOf(st.transactions, SeedAccountId, id);
    }
  }

  /** Replacing with rows all on the seeded account, at their signed sum,
      reseeds the store. */
  lemma ReplaceReseeds(st: State, generated: seq<Transaction>, totalBalance: real)
    requires forall t :: t in generated ==> t.accountId == SeedAccountId
    requires totalBalance == SignedSum(generated, SeedAccountId)
    ensures Replace(st, generated, totalBalance).Ok? ==>
              Reseeded(st, Replace(st, generated, totalBalance).value.0,
                       Replace(st, generated, totalBalance).value.1, generated)
  {
    ReplaceKeepsOtherLedgers(st, generated);
  }
}
