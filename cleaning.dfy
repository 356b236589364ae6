/**
 * The cleaning stage (etl/etl_pipeline.py): each `clean_*` function normalises
 * the column names of one table and rewrites its columns field by field.
 * Every rule is a per-row map, apart from the median of the ages; no row is
 * ever added or dropped.
 */
module Cleaning {
  import opened Wrappers
  import opened Text
  import opened Calendar
  import opened DateFormat
  import opened Statistics

  /** A DataFrame: its header and its rows, each row a record of the entity's fields. */
  datatype Table<R> = Table(columns: seq<string>, rows: seq<R>)

  /** `df[name]` on a column the frame does not have. */
  datatype CleanError = KeyError(column: string)

  // ---------------------------------------------------------------- column names

  /** One header cell: lower-cased, then every space replaced by an underscore. */
  function NormalizeColumnName(c: string): string {
    ReplaceChar(Lower(c), ' ', '_')
  }

  /** Character by character: a space becomes `_`, a letter its lower case, anything else stays. */
  lemma NormalizeColumnNameAt(c: string)
    ensures |NormalizeColumnName(c)| == |c|
    ensures forall i :: 0 <= i < |c| ==>
      NormalizeColumnName(c)[i] == if c[i] == ' ' then '_' else LowerChar(c[i])
  {
    LowerAt(c);
    ReplaceCharAt(Lower(c), ' ', '_');
  }

  /** A normalised name has no space and no upper-case letter, and the same length. */
  lemma NormalizeColumnNameClean(c: string)
    ensures |NormalizeColumnName(c)| == |c|
    ensures forall i :: 0 <= i < |c| ==>
      NormalizeColumnName(c)[i] != ' ' && !IsUpper(NormalizeColumnName(c)[i])
  {
    NormalizeColumnNameAt(c);
  }

  /** Normalising a normalised name changes nothing. */
  lemma NormalizeColumnNameIdempotent(c: string)
    ensures NormalizeColumnName(NormalizeColumnName(c)) == NormalizeColumnName(c)
  {
    var n := NormalizeColumnName(c);
    NormalizeColumnNameAt(c);
    NormalizeColumnNameAt(n);
  }

  /** A name with no upper-case letter and no space is already normalised. */
  lemma NormalizeColumnNameOfClean(c: string)
    requires forall i :: 0 <= i < |c| ==> c[i] != ' ' && !IsUpper(c[i])
    ensures NormalizeColumnName(c) == c
  {
    NormalizeColumnNameAt(c);
  }

  /** `clean_column_names`: `df.columns.str.lower().str.replace(' ', '_')`. */
  function CleanColumnNames(columns: seq<string>): (r: seq<string>)
    ensures |r| == |columns|
    ensures forall i :: 0 <= i < |r| ==> r[i] == NormalizeColumnName(columns[i])
  {
    if columns == [] then [] else [NormalizeColumnName(columns[0])] + CleanColumnNames(columns[1..])
  }

  /** Cleaning the header twice is cleaning it once. */
  lemma CleanColumnNamesIdempotent(columns: seq<string>)
    ensures CleanColumnNames(CleanColumnNames(columns)) == CleanColumnNames(columns)
  {
    var once := CleanColumnNames(columns);
    forall i | 0 <= i < |once|
      ensures CleanColumnNames(once)[i] == once[i]
    {
      NormalizeColumnNameIdempotent(columns[i]);
    }
  }

  /** `df[c] = ...`: an existing column is overwritten in place, a new one is appended. */
  function SetColumn(columns: seq<string>, c: string): (r: seq<string>)
    ensures c in r
    ensures forall x :: x in columns ==> x in r
    ensures forall x :: x in r ==> x in columns || x == c
  {
    if c in columns then columns else columns + [c]
  }

  /** `df.drop(c, axis=1)`: every column named `c` goes. */
  function DropColumn(columns: seq<string>, c: string): (r: seq<string>)
    ensures c !in r
    ensures forall x :: x in r <==> x in columns && x != c
  {
    if columns == [] then []
    else if columns[0] == c then DropColumn(columns[1..], c)
    else [columns[0]] + DropColumn(columns[1..], c)
  }

  /** `fillna(v)` followed by nothing else: the cell, or `v` when it is missing. */
  function Fill<T>(cell: Option<T>, v: T): T {
    cell.GetOr(v)
  }

  /**
   * `pd.to_datetime(cell, errors='coerce').dt.strftime('%Y-%m-%d')`: a
   * parseable date is rewritten as `YYYY-MM-DD`, anything else becomes missing.
   */
  function CleanDateText(cell: Option<string>): Option<string> {
    match cell
    case None => None
    case Some(s) =>
      match ParseDate(s)
      case None => None
      case Some(d) => Some(FormatDate(d))
  }

  /** A cleaned date is either missing or canonical text, and cleaning it again changes nothing. */
  lemma CleanDateTextCanonical(cell: Option<string>)
    ensures CleanDateText(cell).Some? ==> ParseDate(CleanDateText(cell).value).Some?
    ensures CleanDateText(CleanDateText(cell)) == CleanDateText(cell)
    ensures CleanDateText(cell).Some? ==> CleanDateText(cell) == cell
  {
    if cell.Some? && ParseDate(cell.value).Some? {
      var d := ParseDate(cell.value).value;
      ParseFormatDate(d);
      FormatParseDate(cell.value);
    }
  }

  // ---------------------------------------------------------------- customers

  datatype RawCustomer = RawCustomer(
    customerId: int, name: Option<string>, gender: Option<string>,
    age: Option<real>, city: Option<string>, joinDate: Option<string>)

  datatype Customer = Customer(
    customerId: int, name: string, gender: string,
    age: Option<real>, city: string, joinDate: Option<string>)

  const MinAge: real := 18.0
  const MaxAge: real := 100.0

  /** `clip(lower=18, upper=100)` on one cell; a missing age stays missing. */
  function ClipAge(age: Option<real>): Option<real> {
    match age
    case None => None
    case Some(a) => Some(if a < MinAge then MinAge else if a > MaxAge then MaxAge else a)
  }

  /** The ages that are present, in row order (what `median()` skips NaN to see). */
  function PresentAges(rows: seq<RawCustomer>): (r: seq<real>)
    ensures |r| <= |rows|
    ensures (exists i :: 0 <= i < |rows| && rows[i].age.Some?) <==> |r| > 0
  {
    if rows == [] then []
    else
      var rest := PresentAges(rows[1..]);
      assert forall i :: 1 <= i < |rows| ==> rows[i] == rows[1..][i - 1];
      if rows[0].age.Some? then [rows[0].age.value] + rest else rest
  }

  /** Collecting the ages keeps the rows' order: the ages of two blocks of rows are the ages of each, one after the other. */
  lemma {:induction false} PresentAgesAppend(a: seq<RawCustomer>, b: seq<RawCustomer>)
    ensures PresentAges(a + b) == PresentAges(a) + PresentAges(b)
    decreases |a|
  {
    if a == [] {
      assert a + b == b;
    } else {
      assert (a + b)[0] == a[0] && (a + b)[1..] == a[1..] + b;
      PresentAgesAppend(a[1..], b);
      var head := if a[0].age.Some? then [a[0].age.value] else [];
      assert PresentAges(a + b) == head + PresentAges(a[1..] + b);
      assert PresentAges(a) == head + PresentAges(a[1..]);
    }
  }

  /** Exactly the ages some row holds are collected. */
  lemma {:induction false} PresentAgesContents(rows: seq<RawCustomer>)
    ensures forall x :: x in PresentAges(rows) <==> exists i :: 0 <= i < |rows| && rows[i].age == Some(x)
    decreases |rows|
  {
    if rows != [] {
      PresentAgesContents(rows[1..]);
      assert forall i :: 1 <= i < |rows| ==> rows[i] == rows[1..][i - 1];
    }
  }

  /** Taking one row out of the middle of a block takes its age, if any, out of the collected ages. */
  lemma PresentAgesSplit(left: seq<RawCustomer>, x: RawCustomer, right: seq<RawCustomer>)
    ensures multiset(PresentAges(left + [x] + right)) == multiset(PresentAges([x])) + multiset(PresentAges(left + right))
  {
    PresentAgesAppend(left, right);
    PresentAgesAppend(left + [x], right);
    PresentAgesAppend(left, [x]);
  }

  /** Rows that are a permutation of each other have the same present ages, counted with repetition. */
  lemma {:induction false} PresentAgesPermutation(rows: seq<RawCustomer>, other: seq<RawCustomer>)
    requires multiset(rows) == multiset(other)
    ensures multiset(PresentAges(rows)) == multiset(PresentAges(other))
    decreases |rows|
  {
    if rows != [] {
      var x := rows[0];
      assert x in multiset(other);
      var k :| 0 <= k < |other| && other[k] == x;
      var left, right := other[..k], other[k + 1..];
      assert other == left + [x] + right;
      assert rows == [x] + rows[1..];
      assert multiset(rows[1..]) == multiset(left + right) by {
        calc {
          multiset([x]) + multiset(rows[1..]);
          multiset(rows);
          multiset(other);
          multiset(left) + multiset([x]) + multiset(right);
          multiset([x]) + multiset(left + right);
        }
        assert multiset(rows[1..]) == multiset([x]) + multiset(rows[1..]) - multiset([x]);
        assert multiset(left + right) == multiset([x]) + multiset(left + right) - multiset([x]);
      }
      PresentAgesPermutation(rows[1..], left + right);
      PresentAgesSplit(left, x, right);
      PresentAgesAppend([x], rows[1..]);
    }
  }

  /** The age that fills the gaps does not depend on the order of the customer rows. */
  lemma AgeMedianOrderIndependent(rows: seq<RawCustomer>, other: seq<RawCustomer>)
    requires multiset(rows) == multiset(other)
    ensures Median(PresentAges(rows)) == Median(PresentAges(other))
  {
    PresentAgesPermutation(rows, other);
    MedianOrderIndependent(PresentAges(rows), PresentAges(other));
  }

  /** One customer row, given the median of the column's present ages. */
  function CleanCustomer(r: RawCustomer, median: Option<real>): Customer {
    Customer(
      r.customerId,
      Fill(r.name, "Unknown"),
      Fill(r.gender, "Unknown"),
      ClipAge(if r.age.Some? then r.age else median),
      Fill(r.city, "Unknown"),
      CleanDateText(r.joinDate))
  }

  /** The row-wise part of `clean_customers`, once the median is known. */
  function MapCustomers(rows: seq<RawCustomer>, median: Option<real>): (r: seq<Customer>)
    ensures |r| == |rows|
    ensures forall i :: 0 <= i < |rows| ==> r[i] == CleanCustomer(rows[i], median)
  {
    seq(|rows|, i requires 0 <= i < |rows| => CleanCustomer(rows[i], median))
  }

  const CustomerColumnsRead := ["name", "gender", "age", "city", "join_date"]

  /**
   * `clean_customers`: missing name, gender and city become "Unknown"; a
   * missing age becomes the median of the present ages; the join date is
   * rewritten as `YYYY-MM-DD` or becomes missing; ages are clipped to 18..100.
   */
  function CleanCustomers(t: Table<RawCustomer>): (r: Result<Table<Customer>, CleanError>)
    ensures r.Failure? <==> FirstAbsent(CleanColumnNames(t.columns), CustomerColumnsRead).Some?
    ensures r.Success? ==> r.value.columns == CleanColumnNames(t.columns) && |r.value.rows| == |t.rows|
    ensures r.Success? ==> forall i :: 0 <= i < |t.rows| ==>
      var (raw, c) := (t.rows[i], r.value.rows[i]);
      && c.customerId == raw.customerId
      && c.name == (if raw.name.Some? then raw.name.value else "Unknown")
      && c.gender == (if raw.gender.Some? then raw.gender.value else "Unknown")
      && c.city == (if raw.city.Some? then raw.city.value else "Unknown")
      && c.joinDate == CleanDateText(raw.joinDate)
      && (c.age.Some? ==> MinAge <= c.age.value <= MaxAge)
      && (raw.age.Some? && MinAge <= raw.age.value <= MaxAge ==> c.age == raw.age)
      && (raw.age.Some? ==> c.age == Some(if raw.age.value < MinAge then MinAge else if raw.age.value > MaxAge then MaxAge else raw.age.value))
      && (raw.age.None? ==> c.age == ClipAge(Median(PresentAges(t.rows))))
      && (c.age.None? <==> |PresentAges(t.rows)| == 0 && raw.age.None?)
  {
    var columns := CleanColumnNames(t.columns);
    match FirstAbsent(columns, CustomerColumnsRead)
    case Some(c) => Failure(KeyError(c))
    case None =>
      Success(Table(columns, MapCustomers(t.rows, Median(PresentAges(t.rows)))))
  }

  // ---------------------------------------------------------------- branches

  datatype RawBranch = RawBranch(branchId: int, branchName: Option<string>, city: Option<string>)

  datatype Branch = Branch(branchId: int, branchName: string, city: string)

  const BranchColumnsRead := ["branch_name", "city"]

  /** `clean_branches`: a missing branch name becomes "Unknown Branch", a missing city "Unknown". */
  function CleanBranches(t: Table<RawBranch>): (r: Result<Table<Branch>, CleanError>)
    ensures r.Failure? <==> FirstAbsent(CleanColumnNames(t.columns), BranchColumnsRead).Some?
    ensures r.Success? ==> r.value.columns == CleanColumnNames(t.columns) && |r.value.rows| == |t.rows|
    ensures r.Success? ==> forall i :: 0 <= i < |t.rows| ==>
      var (raw, b) := (t.rows[i], r.value.rows[i]);
      && b.branchId == raw.branchId
      && b.branchName == (if raw.branchName.Some? then raw.branchName.value else "Unknown Branch")
      && b.city == (if raw.city.Some? then raw.city.value else "Unknown")
  {
    var columns := CleanColumnNames(t.columns);
    match FirstAbsent(columns, BranchColumnsRead)
    case Some(c) => Failure(KeyError(c))
    case None =>
      Success(Table(columns, seq(|t.rows|, i requires 0 <= i < |t.rows| =>
        var raw := t.rows[i];
        Branch(raw.branchId, Fill(raw.branchName, "Unknown Branch"), Fill(raw.city, "Unknown")))))
  }

  // ---------------------------------------------------------------- accounts

  datatype RawAccount = RawAccount(
    accountId: int, customerId: int, branchId: Option<int>,
    accountType: Option<string>, openDate: Option<string>)

  datatype Account = Account(
    accountId: int, customerId: int, branchId: int,
    accountType: string, openDate: Option<string>)

  /** Missing becomes "savings", then lower-case, then the synonym "checking" becomes "current". */
  function NormalizeAccountType(cell: Option<string>): string {
    var t := Lower(Fill(cell, "savings"));
    if t == "checking" then "current" else t
  }

  /** What the account-type rule does, case by case. */
  lemma NormalizeAccountTypeCases(cell: Option<string>)
    ensures cell.None? ==> NormalizeAccountType(cell) == "savings"
    ensures cell.Some? && Lower(cell.value) == "checking" ==> NormalizeAccountType(cell) == "current"
    ensures cell.Some? && Lower(cell.value) != "checking" ==> NormalizeAccountType(cell) == Lower(cell.value)
    ensures NormalizeAccountType(cell) != "checking"
    ensures forall i :: 0 <= i < |NormalizeAccountType(cell)| ==> !IsUpper(NormalizeAccountType(cell)[i])
  {
    var r := NormalizeAccountType(cell);
    assert cell.None? ==> r == "savings" by {
      LowerAt("savings");
    }
    assert r != "checking" by {
      assert |"current"| != |"checking"|;
    }
    assert forall i :: 0 <= i < |r| ==> !IsUpper(r[i]) by {
      LowerHasNoUpper(Fill(cell, "savings"));
      assert forall i :: 0 <= i < |"current"| ==> !IsUpper("current"[i]);
    }
  }

  const AccountColumnsRead := ["account_type", "branch_id", "open_date"]

  /** `clean_accounts`. */
  function CleanAccounts(t: Table<RawAccount>): (r: Result<Table<Account>, CleanError>)
    ensures r.Failure? <==> FirstAbsent(CleanColumnNames(t.columns), AccountColumnsRead).Some?
    ensures r.Success? ==> r.value.columns == CleanColumnNames(t.columns) && |r.value.rows| == |t.rows|
    ensures r.Success? ==> forall i :: 0 <= i < |t.rows| ==>
      var (raw, a) := (t.rows[i], r.value.rows[i]);
      && a.accountId == raw.accountId && a.customerId == raw.customerId
      && a.branchId == (if raw.branchId.Some? then raw.branchId.value else 1)
      && a.accountType == NormalizeAccountType(raw.accountType)
      && a.accountType != "checking"
      && a.openDate == CleanDateText(raw.openDate)
  {
    var columns := CleanColumnNames(t.columns);
    match FirstAbsent(columns, AccountColumnsRead)
    case Some(c) => Failure(KeyError(c))
    case None =>
      Success(Table(columns, seq(|t.rows|, i requires 0 <= i < |t.rows| =>
        var raw := t.rows[i];
        NormalizeAccountTypeCases(raw.accountType);
        Account(raw.accountId, raw.customerId, Fill(raw.branchId, 1),
                NormalizeAccountType(raw.accountType), CleanDateText(raw.openDate)))))
  }

  // ---------------------------------------------------------------- transactions

  datatype RawTransaction = RawTransaction(
    transactionId: int, accountId: int, date: Option<string>,
    transactionType: Option<string>, amount: Option<int>)

  /** A cleaned transaction, with the four derived columns. */
  datatype Transaction = Transaction(
    transactionId: int, accountId: int, date: Option<string>,
    transactionType: string, amount: int,
    transactionMonth: string, riskFlag: int,
    dayOfWeek: Option<string>, week: Option<int>)

  /** Missing becomes "deposit", then lower-case, then the synonym "withdraw" becomes "withdrawal". */
  function NormalizeTransactionType(cell: Option<string>): string {
    var t := Lower(Fill(cell, "deposit"));
    if t == "withdraw" then "withdrawal" else t
  }

  lemma NormalizeTransactionTypeCases(cell: Option<string>)
    ensures cell.None? ==> NormalizeTransactionType(cell) == "deposit"
    ensures cell.Some? && Lower(cell.value) == "withdraw" ==> NormalizeTransactionType(cell) == "withdrawal"
    ensures cell.Some? && Lower(cell.value) != "withdraw" ==> NormalizeTransactionType(cell) == Lower(cell.value)
    ensures NormalizeTransactionType(cell) != "withdraw"
    ensures forall i :: 0 <= i < |NormalizeTransactionType(cell)| ==> !IsUpper(NormalizeTransactionType(cell)[i])
  {
    var r := NormalizeTransactionType(cell);
    assert cell.None? ==> r == "deposit" by {
      LowerAt("deposit");
    }
    assert r != "withdraw" by {
      assert |"withdrawal"| != |"withdraw"|;
    }
    assert forall i :: 0 <= i < |r| ==> !IsUpper(r[i]) by {
      LowerHasNoUpper(Fill(cell, "deposit"));
      assert forall i :: 0 <= i < |"withdrawal"| ==> !IsUpper("withdrawal"[i]);
    }
  }

  /** Withdrawals above MWK 500,000 are flagged. */
  const RiskThreshold := 500000

  function Abs(x: int): int { if x < 0 then -x else x }

  /** What `str(Period)` gives for a date that did not parse. */
  const NotATime := "NaT"

  /** One transaction row, column statement by column statement. */
  function CleanTransaction(raw: RawTransaction): Transaction {
    var kind := NormalizeTransactionType(raw.transactionType);
    var amount := Abs(Fill(raw.amount, 0));
    var parsed := if raw.date.Some? then ParseDate(raw.date.value) else None;
    var month := if parsed.Some? then FormatMonth(parsed.value) else NotATime;
    var date := if parsed.Some? then Some(FormatDate(parsed.value)) else None;
    var risk := if kind == "withdrawal" && amount > RiskThreshold then 1 else 0;
    // line 114 parses the reformatted text a second time
    var dateDt := if date.Some? then ParseDate(date.value) else None;
    var dayOfWeek := if dateDt.Some? then Some(DayName(dateDt.value)) else None;
    var week := if dateDt.Some? then Some(IsoCalendar(dateDt.value).week) else None;
    Transaction(raw.transactionId, raw.accountId, date, kind, amount, month, risk, dayOfWeek, week)
  }

  /**
   * The meaning of a cleaned transaction: a non-negative amount, the risk flag
   * exactly for withdrawals above the threshold, and month, weekday and ISO
   * week all taken from the same parsed day; an unparsable date leaves the
   * date, weekday and week missing and the month "NaT".
   */
  lemma CleanTransactionSpec(raw: RawTransaction)
    ensures CleanTransaction(raw).transactionId == raw.transactionId
    ensures CleanTransaction(raw).accountId == raw.accountId
    ensures CleanTransaction(raw).transactionType == NormalizeTransactionType(raw.transactionType)
    ensures CleanTransaction(raw).amount >= 0
    ensures CleanTransaction(raw).amount == (if raw.amount.None? then 0 else Abs(raw.amount.value))
    ensures CleanTransaction(raw).riskFlag == 1 <==>
      CleanTransaction(raw).transactionType == "withdrawal" && CleanTransaction(raw).amount > RiskThreshold
    ensures CleanTransaction(raw).riskFlag == 0 || CleanTransaction(raw).riskFlag == 1
    ensures CleanTransaction(raw).date == CleanDateText(raw.date)
    ensures CleanTransaction(raw).date.None? ==>
      && CleanTransaction(raw).transactionMonth == NotATime
      && CleanTransaction(raw).dayOfWeek.None? && CleanTransaction(raw).week.None?
    ensures CleanTransaction(raw).date.Some? ==> CleanTransactionDated(raw)
  {
    if raw.date.Some? && ParseDate(raw.date.value).Some? {
      CleanTransactionParsed(raw);
    }
  }

  /** Month, weekday and ISO week of a cleaned transaction all come from the day its date parses to. */
  predicate CleanTransactionDated(raw: RawTransaction)
    requires raw.date.Some? && ParseDate(raw.date.value).Some?
  {
    var t := CleanTransaction(raw);
    var d := ParseDate(raw.date.value).value;
    && t.date == Some(FormatDate(d))
    && t.transactionMonth == FormatMonth(d) == t.date.value[..7]
    && t.dayOfWeek == Some(DayName(d))
    && t.week == Some(IsoCalendar(d).week)
    && 1 <= t.week.value <= 53
  }

  lemma CleanTransactionParsed(raw: RawTransaction)
    requires raw.date.Some? && ParseDate(raw.date.value).Some?
    ensures CleanTransactionDated(raw)
  {
    var d := ParseDate(raw.date.value).value;
    ParseFormatDate(d);
    FormatDateFields(d);
    IsoCalendarIsIsoWeek(d);
  }

  const TransactionColumnsRead := ["type", "amount", "date"]

  const DerivedTransactionColumns := ["transaction_month", "risk_flag", "day_of_week", "week"]

  /** The header after the derived columns are added and the helper `date_dt` is dropped again. */
  function TransactionColumns(columns: seq<string>): seq<string> {
    var withMonth := SetColumn(columns, "transaction_month");
    var withRisk := SetColumn(withMonth, "risk_flag");
    var withDt := SetColumn(withRisk, "date_dt");
    var withDay := SetColumn(withDt, "day_of_week");
    var withWeek := SetColumn(withDay, "week");
    DropColumn(withWeek, "date_dt")
  }

  /** The derived columns are present, `date_dt` is not, and no other column appears or goes. */
  lemma TransactionColumnsSpec(columns: seq<string>)
    ensures forall c :: c in TransactionColumns(columns) <==>
      (c in columns && c != "date_dt") || c in DerivedTransactionColumns
  {
    var withMonth := SetColumn(columns, "transaction_month");
    var withRisk := SetColumn(withMonth, "risk_flag");
    var withDt := SetColumn(withRisk, "date_dt");
    var withDay := SetColumn(withDt, "day_of_week");
    var withWeek := SetColumn(withDay, "week");
    assert forall c :: c in withWeek <==>
      c in columns || c == "transaction_month" || c == "risk_flag" || c == "date_dt" || c == "day_of_week" || c == "week";
    assert |"date_dt"| == 7 && |"transaction_month"| == 17 && |"risk_flag"| == 9 && |"day_of_week"| == 11 && |"week"| == 4;
  }

  /** The row-wise part of `clean_transactions`. */
  function MapTransactions(rows: seq<RawTransaction>): (r: seq<Transaction>)
    ensures |r| == |rows|
    ensures forall i :: 0 <= i < |rows| ==> r[i] == CleanTransaction(rows[i])
  {
    seq(|rows|, i requires 0 <= i < |rows| => CleanTransaction(rows[i]))
  }

  /** `clean_transactions`. */
  function CleanTransactions(t: Table<RawTransaction>): (r: Result<Table<Transaction>, CleanError>)
    ensures r.Failure? <==> FirstAbsent(CleanColumnNames(t.columns), TransactionColumnsRead).Some?
    ensures r.Success? ==>
      && |r.value.rows| == |t.rows|
      && (forall c :: c in r.value.columns <==>
            (c in CleanColumnNames(t.columns) && c != "date_dt") || c in DerivedTransactionColumns)
      && (forall i :: 0 <= i < |t.rows| ==> r.value.rows[i] == CleanTransaction(t.rows[i]))
  {
    var columns := CleanColumnNames(t.columns);
    match FirstAbsent(columns, TransactionColumnsRead)
    case Some(c) => Failure(KeyError(c))
    case None =>
      TransactionColumnsSpec(columns);
      Success(Table(TransactionColumns(columns), MapTransactions(t.rows)))
  }

  // ---------------------------------------------------------------- worked examples

  /** The four customers of the missing-age example; the second has no age. */
  const AgeExampleRows := [
    RawCustomer(1, Some("A"), Some("Male"), Some(20.0), Some("Zomba"), None),
    RawCustomer(2, Some("B"), Some("Female"), None, Some("Zomba"), None),
    RawCustomer(3, Some("C"), Some("Male"), Some(30.0), Some("Zomba"), None),
    RawCustomer(4, Some("D"), Some("Female"), Some(40.0), Some("Zomba"), None)]

  lemma AgeExampleMedian()
    ensures Median(PresentAges(AgeExampleRows)) == Some(30.0)
  {
    var rows := AgeExampleRows;
    assert PresentAges(rows[3..]) == [40.0];
    assert rows[2..][1..] == rows[3..];
    assert PresentAges(rows[2..]) == [30.0, 40.0];
    assert rows[1..][1..] == rows[2..];
    assert PresentAges(rows[1..]) == [30.0, 40.0];
    assert PresentAges(rows) == [20.0, 30.0, 40.0];
    assert Insert(40.0, []) == [40.0];
    assert Sort([20.0, 30.0, 40.0]) == [20.0, 30.0, 40.0];
  }

  /** Ages 20, missing, 30, 40: the missing age becomes the median 30. */
  lemma MissingAgeExample(columns: seq<string>)
    requires FirstAbsent(CleanColumnNames(columns), CustomerColumnsRead).None?
    ensures var r := CleanCustomers(Table(columns, AgeExampleRows));
      r.Success? && r.value.rows[1].age == Some(30.0)
  {
    AgeExampleMedian();
  }

  /** 2024-01-15 is written and read back as itself, in the month "2024-01". */
  lemma JanuaryFifteenthText()
    ensures FormatDate(Date(2024, 1, 15)) == "2024-01-15"
    ensures ParseDate("2024-01-15") == Some(Date(2024, 1, 15))
    ensures FormatMonth(Date(2024, 1, 15)) == "2024-01"
  {
    JanuaryFifteenthFormat();
    ParseFormatDate(Date(2024, 1, 15));
  }

  lemma JanuaryFifteenthFormat()
    ensures FormatDate(Date(2024, 1, 15)) == "2024-01-15"
    ensures FormatMonth(Date(2024, 1, 15)) == "2024-01"
  {
    assert Padded(2024, 4) == "2024";
  }

  lemma JanuaryFifteenthWeek()
    ensures DayName(Date(2024, 1, 15)) == "Monday"
    ensures IsoCalendar(Date(2024, 1, 15)).week == 3
  {
    assert DaysBeforeYear(2024) == 738885;
    assert DaysBeforeYear(2025) == 739251;
    assert Ordinal(Date(2024, 1, 15)) == 738900;
    assert Week1Monday(2024) == 738886;
    assert Week1Monday(2025) == 739250;
  }

  /** Upper-case `WITHDRAW` is the synonym of a withdrawal. */
  lemma UpperCaseWithdraw()
    ensures NormalizeTransactionType(Some("WITHDRAW")) == "withdrawal"
  {
    LowerAt("WITHDRAW");
    assert Lower("WITHDRAW") == "withdraw";
  }

  /** A raw `WITHDRAW` of -600000 on 2024-01-15 cleans to a flagged withdrawal of 600000 on a Monday of week 3. */
  lemma WithdrawalExample(raw: RawTransaction)
    requires raw == RawTransaction(1, 5, Some("2024-01-15"), Some("WITHDRAW"), Some(-600000))
    ensures CleanTransaction(raw)
         == Transaction(1, 5, Some("2024-01-15"), "withdrawal", 600000, "2024-01", 1, Some("Monday"), Some(3))
  {
    JanuaryFifteenthText();
    JanuaryFifteenthWeek();
    UpperCaseWithdraw();
    CleanTransactionSpec(raw);
  }
}
