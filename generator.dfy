/**
 * The mock-data generator (etl/generate_mock_data.py). Each `generate_*`
 * function is a counting loop that appends one record per iteration, with
 * every value drawn from the `random` generator or from Faker. The records
 * are the raw rows the cleaning stage later reads back from CSV.
 */
module Generator {
  import opened Wrappers
  import opened Calendar
  import opened DateFormat
  import opened Cleaning
  import opened Randomness

  const Cities := ["Lilongwe", "Blantyre", "Mzuzu", "Zomba", "Mangochi"]
  const Genders := ["Male", "Female"]
  const BranchIds := [1, 2, 3, 4, 5]
  const AccountTypes := ["savings", "current"]
  const TransactionTypes := ["deposit", "withdrawal", "transfer"]

  /** The five fixed branches, one per city. */
  const Branches := [
    RawBranch(1, Some("Lilongwe Main"), Some("Lilongwe")),
    RawBranch(2, Some("Blantyre Central"), Some("Blantyre")),
    RawBranch(3, Some("Mzuzu Branch"), Some("Mzuzu")),
    RawBranch(4, Some("Zomba Branch"), Some("Zomba")),
    RawBranch(5, Some("Mangochi Branch"), Some("Mangochi"))]

  /** How far back Faker's `'-5y'` and `'-4y'` reach (365.24 days per year), and the transaction window. */
  const JoinWindowDays := 1827
  const OpenWindowDays := 1461
  const TransactionWindowDays := 365

  /**
   * A day on which the generator can run: pandas can represent every date it
   * writes, the earliest five years back.
   */
  predicate GenerationDay(today: Date) {
    && Valid(today)
    && Ordinal(TimestampMin) + JoinWindowDays <= Ordinal(today) <= Ordinal(TimestampMax)
  }

  /** A generation day is far from the last day the calendar can hold. */
  lemma GenerationDayFits(today: Date)
    requires GenerationDay(today)
    ensures Ordinal(today) < Ordinal(LastDate)
  {
    assert Ordinal(TimestampMax) < Ordinal(LastDate) by {
      assert DaysBeforeYear(2262) < DaysBeforeYear(9999);
    }
  }

  /** The text holds a date no later than `today` and at most `days` earlier. */
  predicate DatedWithin(text: Option<string>, today: Date, days: nat)
    requires Valid(today)
  {
    && text.Some?
    && ParseDate(text.value).Some?
    && Ordinal(today) - days <= Ordinal(ParseDate(text.value).value) <= Ordinal(today)
  }

  /** A day drawn from the window, written with `strftime('%Y-%m-%d')`, reads back as that day. */
  lemma FormattedInWindow(d: Date, today: Date, days: nat)
    requires GenerationDay(today) && days <= JoinWindowDays
    requires Valid(d) && Ordinal(today) - days <= Ordinal(d) <= Ordinal(today)
    ensures DatedWithin(Some(FormatDate(d)), today, days)
  {
    ParseFormatDate(d);
  }

  /** The first day of the window `days` long that ends on `today`. */
  function WindowStart(today: Date, days: nat): (d: Date)
    requires GenerationDay(today) && days <= JoinWindowDays
    ensures Valid(d) && Ordinal(d) == Ordinal(today) - days
  {
    SubDays(today, days)
  }

  // ---------------------------------------------------------------- customers

  /** What a generated customer row satisfies. */
  predicate GeneratedCustomer(c: RawCustomer, id: int, fake: Faker, today: Date)
    requires Valid(today)
  {
    && c.customerId == id
    && c.gender.Some? && c.gender.value in Genders
    && c.name.Some?
    && (c.gender.value == "Male" ==> c.name.value in fake.maleNames)
    && (c.gender.value == "Female" ==> c.name.value in fake.femaleNames)
    && c.age.Some? && c.age.value == c.age.value.Floor as real && 18.0 <= c.age.value <= 75.0
    && c.city.Some? && c.city.value in Cities
    && DatedWithin(c.joinDate, today, JoinWindowDays)
  }

  /** `generate_customers(n)`: customers 1..n in order. */
  method GenerateCustomers(n: nat, rng: Random, fake: Faker, today: Date) returns (rows: seq<RawCustomer>)
    requires fake.Ready() && GenerationDay(today)
    modifies rng, fake
    ensures |rows| == n
    ensures forall k :: 0 <= k < n ==> GeneratedCustomer(rows[k], k + 1, fake, today)
    ensures rng.position == old(rng.position) + 3 * n
    ensures fake.position == old(fake.position) + 2 * n
  {
    rows := [];
    for i := 1 to n + 1
      invariant |rows| == i - 1
      invariant forall k :: 0 <= k < |rows| ==> GeneratedCustomer(rows[k], k + 1, fake, today)
      invariant rng.position == old(rng.position) + 3 * (i - 1)
      invariant fake.position == old(fake.position) + 2 * (i - 1)
    {
      var c := GenerateCustomer(i, rng, fake, today);
      rows := rows + [c];
    }
  }

  /** One customer row: gender, a name of that gender, age, city and joining day, drawn in the source's order. */
  method GenerateCustomer(id: int, rng: Random, fake: Faker, today: Date) returns (c: RawCustomer)
    requires fake.Ready() && GenerationDay(today)
    modifies rng, fake
    ensures GeneratedCustomer(c, id, fake, today)
    ensures rng.position == old(rng.position) + 3
    ensures fake.position == old(fake.position) + 2
  {
    var gender := rng.Choice(Genders);
    var name;
    if gender == "Male" {
      name := fake.NameMale();
    } else {
      name := fake.NameFemale();
    }
    var age := rng.RandInt(18, 75);
    var city := rng.Choice(Cities);
    var joined := fake.DateBetween(WindowStart(today, JoinWindowDays), today);
    FormattedInWindow(joined, today, JoinWindowDays);
    c := RawCustomer(id, Some(name), Some(gender), Some(age.value as real), Some(city), Some(FormatDate(joined)));
  }

  // ---------------------------------------------------------------- branches

  /** `generate_branches()`: the fixed table, ids 1..5, the i-th branch in the i-th city. */
  function GenerateBranches(): (rows: seq<RawBranch>)
    ensures |rows| == |Cities| == 5
    ensures forall k :: 0 <= k < |rows| ==>
      && rows[k].branchId == k + 1 == BranchIds[k]
      && rows[k].branchName.Some?
      && rows[k].city == Some(Cities[k])
  {
    Branches
  }

  // ---------------------------------------------------------------- accounts

  /** What a generated account row satisfies. */
  predicate GeneratedAccount(a: RawAccount, id: int, nCustomers: nat, today: Date)
    requires Valid(today)
  {
    && a.accountId == id
    && 1 <= a.customerId <= nCustomers
    && a.branchId.Some? && a.branchId.value in BranchIds
    && a.accountType.Some? && a.accountType.value in AccountTypes
    && DatedWithin(a.openDate, today, OpenWindowDays)
  }

  /** One account row: the draws for branch, type and opening day, in the source's order. */
  method GenerateAccount(accountId: int, customerId: int, nCustomers: nat, rng: Random, fake: Faker, today: Date)
    returns (a: RawAccount)
    requires GenerationDay(today) && 1 <= customerId <= nCustomers
    modifies rng, fake
    ensures GeneratedAccount(a, accountId, nCustomers, today) && a.customerId == customerId
    ensures rng.position == old(rng.position) + 2
    ensures fake.position == old(fake.position) + 1
  {
    var branch := rng.Choice(BranchIds);
    var kind := rng.Choice(AccountTypes);
    var openDay := fake.DateBetween(WindowStart(today, OpenWindowDays), today);
    FormattedInWindow(openDay, today, OpenWindowDays);
    a := RawAccount(accountId, customerId, Some(branch), Some(kind), Some(FormatDate(openDay)));
  }

  function Max(a: int, b: int): int { if a < b then b else a }

  /** What one run of `generate_accounts` produces. */
  predicate AccountsGenerated(rows: seq<RawAccount>, n: nat, nCustomers: nat, today: Date)
    requires Valid(today)
  {
    && |rows| == Max(n, nCustomers)
    && (forall k :: 0 <= k < |rows| ==> GeneratedAccount(rows[k], k + 1, nCustomers, today))
    && (forall k :: 0 <= k < nCustomers ==> rows[k].customerId == k + 1)
  }

  /**
   * `generate_accounts(n, n_customers)`: one account per customer, in
   * customer order, then extra accounts for random customers until there are
   * `n`. With no customers and `n >= 1` the first extra account asks for
   * `randint(1, 0)`, which raises.
   */
  method GenerateAccounts(n: nat, nCustomers: nat, rng: Random, fake: Faker, today: Date)
    returns (r: Result<seq<RawAccount>, RandomError>)
    requires GenerationDay(today)
    modifies rng, fake
    ensures r.Failure? <==> nCustomers == 0 && n >= 1
    ensures r.Failure? ==> r.error == EmptyRange(1, 0)
    ensures r.Success? ==> AccountsGenerated(r.value, n, nCustomers, today)
    ensures r.Success? ==> rng.position == old(rng.position) + 2 * nCustomers + 3 * (Max(n, nCustomers) - nCustomers)
    ensures r.Success? ==> fake.position == old(fake.position) + Max(n, nCustomers)
    ensures r.Failure? ==> rng.position == old(rng.position) && fake.position == old(fake.position)
  {
    var rows: seq<RawAccount> := [];
    var accountId := 1;
    for customerId := 1 to nCustomers + 1
      invariant accountId == customerId && |rows| == customerId - 1
      invariant nCustomers == 0 ==> accountId == 1
      invariant forall k :: 0 <= k < |rows| ==> GeneratedAccount(rows[k], k + 1, nCustomers, today)
      invariant forall k :: 0 <= k < |rows| ==> rows[k].customerId == k + 1
      invariant rng.position == old(rng.position) + 2 * (customerId - 1)
      invariant fake.position == old(fake.position) + (customerId - 1)
    {
      var a := GenerateAccount(accountId, customerId, nCustomers, rng, fake, today);
      rows := rows + [a];
      accountId := accountId + 1;
    }
    while accountId <= n
      invariant |rows| == accountId - 1 == Max(accountId - 1, nCustomers)
      invariant accountId - 1 <= Max(n, nCustomers)
      invariant nCustomers == 0 ==> accountId == 1
      invariant forall k :: 0 <= k < |rows| ==> GeneratedAccount(rows[k], k + 1, nCustomers, today)
      invariant forall k :: 0 <= k < nCustomers ==> rows[k].customerId == k + 1
      invariant rng.position == old(rng.position) + 2 * nCustomers + 3 * (accountId - 1 - nCustomers)
      invariant fake.position == old(fake.position) + (accountId - 1)
      decreases n - accountId
    {
      var owner := rng.RandInt(1, nCustomers);
      if owner.Failure? {
        return Failure(owner.error);
      }
      var a := GenerateAccount(accountId, owner.value, nCustomers, rng, fake, today);
      rows := rows + [a];
      accountId := accountId + 1;
    }
    return Success(rows);
  }

  /** Customer `c` owns some account of `rows`. */
  predicate OwnsAccount(rows: seq<RawAccount>, c: int) {
    exists k :: 0 <= k < |rows| && rows[k].customerId == c
  }

  /** Every customer owns at least one account, and every account belongs to an existing customer. */
  lemma EveryCustomerHasAccount(rows: seq<RawAccount>, n: nat, nCustomers: nat, today: Date)
    requires Valid(today) && AccountsGenerated(rows, n, nCustomers, today)
    ensures forall c :: 1 <= c <= nCustomers ==> OwnsAccount(rows, c)
    ensures forall k :: 0 <= k < |rows| ==> 1 <= rows[k].customerId <= nCustomers
  {
    forall c | 1 <= c <= nCustomers
      ensures OwnsAccount(rows, c)
    {
      assert rows[c - 1].customerId == c;
    }
  }

  // ---------------------------------------------------------------- transactions

  /** The range `randint` draws the amount from, by transaction type. */
  function AmountRange(kind: string): (r: (int, int))
    ensures 5000 <= r.0 <= r.1
  {
    if kind == "deposit" then (5000, 2000000)
    else if kind == "withdrawal" then (10000, 1000000)
    else (5000, 500000)
  }

  /** What a generated transaction row satisfies. */
  predicate GeneratedTransaction(t: RawTransaction, id: int, nAccounts: nat, today: Date)
    requires Valid(today)
  {
    && t.transactionId == id
    && 1 <= t.accountId <= nAccounts
    && t.transactionType.Some? && t.transactionType.value in TransactionTypes
    && t.amount.Some? && AmountRange(t.transactionType.value).0 <= t.amount.value <= AmountRange(t.transactionType.value).1
    && DatedWithin(t.date, today, TransactionWindowDays)
  }

  /** The amount of a transaction of type `kind`: the `if`/`elif`/`else` of `randint` ranges. */
  method DrawAmount(kind: string, rng: Random) returns (amount: int)
    modifies rng
    ensures AmountRange(kind).0 <= amount <= AmountRange(kind).1
    ensures rng.position == old(rng.position) + 1
  {
    var r;
    if kind == "deposit" {
      r := rng.RandInt(5000, 2000000);
    } else if kind == "withdrawal" {
      r := rng.RandInt(10000, 1000000);
    } else {
      r := rng.RandInt(5000, 500000);
    }
    amount := r.value;
  }

  /** `start + timedelta(days=days_ago)` with `start = now - 365 days`. */
  function TransactionDay(today: Date, daysAgo: nat): (d: Date)
    requires GenerationDay(today) && daysAgo <= TransactionWindowDays
    ensures Valid(d) && Ordinal(d) == Ordinal(today) - TransactionWindowDays + daysAgo
  {
    GenerationDayFits(today);
    AddDays(WindowStart(today, TransactionWindowDays), daysAgo)
  }

  /** `days_ago` in 0..365 added to the day a year before `today`, written as `YYYY-MM-DD`. */
  method DrawTransactionDate(rng: Random, today: Date) returns (date: string)
    requires GenerationDay(today)
    modifies rng
    ensures DatedWithin(Some(date), today, TransactionWindowDays)
    ensures exists k :: 0 <= k <= TransactionWindowDays && date == FormatDate(TransactionDay(today, k))
    ensures rng.position == old(rng.position) + 1
  {
    var daysAgo := rng.RandInt(0, 365);
    var day := TransactionDay(today, daysAgo.value);
    FormattedInWindow(day, today, TransactionWindowDays);
    date := FormatDate(day);
  }

  /** One transaction row: account, type, amount and `days_ago`, drawn in the source's order. */
  method GenerateTransaction(id: int, nAccounts: nat, rng: Random, today: Date)
    returns (r: Result<RawTransaction, RandomError>)
    requires GenerationDay(today)
    modifies rng
    ensures r.Failure? <==> nAccounts == 0
    ensures r.Failure? ==> r.error == EmptyRange(1, 0)
    ensures r.Success? ==> GeneratedTransaction(r.value, id, nAccounts, today)
    ensures r.Success? ==> rng.position == old(rng.position) + 4
    ensures r.Failure? ==> rng.position == old(rng.position)
  {
    var account := rng.RandInt(1, nAccounts);
    if account.Failure? {
      return Failure(account.error);
    }
    var kind := rng.Choice(TransactionTypes);
    var amount := DrawAmount(kind, rng);
    var date := DrawTransactionDate(rng, today);
    return Success(RawTransaction(id, account.value, Some(date), Some(kind), Some(amount)));
  }

  /**
   * `generate_transactions(n, n_accounts)`: transactions 1..n, each dated
   * `days_ago` in 0..365 days after the day a year before `today`. With no
   * accounts and `n >= 1` the first `randint(1, 0)` raises.
   */
  method GenerateTransactions(n: nat, nAccounts: nat, rng: Random, today: Date)
    returns (r: Result<seq<RawTransaction>, RandomError>)
    requires GenerationDay(today)
    modifies rng
    ensures r.Failure? <==> nAccounts == 0 && n >= 1
    ensures r.Failure? ==> r.error == EmptyRange(1, 0)
    ensures r.Success? ==> |r.value| == n
    ensures r.Success? ==> forall k :: 0 <= k < n ==> GeneratedTransaction(r.value[k], k + 1, nAccounts, today)
    ensures r.Success? ==> rng.position == old(rng.position) + 4 * n
    ensures r.Failure? ==> rng.position == old(rng.position)
  {
    var rows: seq<RawTransaction> := [];
    for i := 1 to n + 1
      invariant |rows| == i - 1
      invariant nAccounts == 0 ==> i == 1
      invariant forall k :: 0 <= k < |rows| ==> GeneratedTransaction(rows[k], k + 1, nAccounts, today)
      invariant rng.position == old(rng.position) + 4 * (i - 1)
    {
      var t := GenerateTransaction(i, nAccounts, rng, today);
      if t.Failure? {
        return Failure(t.error);
      }
      rows := rows + [t.value];
    }
    return Success(rows);
  }

  // ---------------------------------------------------------------- the whole data set

  /** The four raw tables `main` writes. */
  datatype Dataset = Dataset(
    customers: seq<RawCustomer>, branches: seq<RawBranch>,
    accounts: seq<RawAccount>, transactions: seq<RawTransaction>)

  /**
   * `main` without the files: 200 customers, the branches, 300 accounts over
   * those customers and 3000 transactions over those accounts. Every
   * reference between the tables resolves.
   */
  method GenerateDataset(rng: Random, fake: Faker, today: Date) returns (data: Dataset)
    requires fake.Ready() && GenerationDay(today)
    modifies rng, fake
    ensures |data.customers| == 200 && |data.accounts| == 300 && |data.transactions| == 3000
    ensures data.branches == GenerateBranches()
    ensures forall k :: 0 <= k < 200 ==> GeneratedCustomer(data.customers[k], k + 1, fake, today)
    ensures AccountsGenerated(data.accounts, 300, 200, today)
    ensures forall k :: 0 <= k < 3000 ==> GeneratedTransaction(data.transactions[k], k + 1, 300, today)
    ensures forall k :: 0 <= k < |data.accounts| ==>
      var c := data.accounts[k].customerId;
      1 <= c <= |data.customers| && data.customers[c - 1].customerId == c
    ensures forall k :: 0 <= k < |data.transactions| ==>
      var a := data.transactions[k].accountId;
      1 <= a <= |data.accounts| && data.accounts[a - 1].accountId == a
    ensures rng.position == old(rng.position) + 13300
    ensures fake.position == old(fake.position) + 700
  {
    var customers := GenerateCustomers(200, rng, fake, today);
    var branches := GenerateBranches();
    var accounts := GenerateAccounts(300, 200, rng, fake, today);
    var transactions := GenerateTransactions(3000, 300, rng, today);
    data := Dataset(customers, branches, accounts.value, transactions.value);
  }
}
