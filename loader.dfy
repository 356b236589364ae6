/**
 * The loader (sql/load_to_sqlite.py): drop the five star-schema tables,
 * create them again, append the cleaned customers, branches and accounts,
 * a generated date dimension of the 730 days before the load, and the
 * cleaned transactions with two columns renamed.
 */
module Loader {
  import opened Wrappers
  import opened Calendar
  import opened Text
  import opened DateFormat
  import opened Store

  // ---------------------------------------------------------------- the star schema

  const CustomersFile := "customers.csv"
  const BranchesFile := "branches.csv"
  const AccountsFile := "accounts.csv"
  const TransactionsFile := "transactions.csv"

  const CustomerTable := "dim_customer"
  const BranchTable := "dim_branch"
  const AccountTable := "dim_account"
  const DateTable := "dim_date"
  const FactTable := "fact_transactions"

  const StarTables := {FactTable, AccountTable, CustomerTable, BranchTable, DateTable}

  const CustomerSchema := Schema(
    ["customer_id", "name", "gender", "age", "city", "join_date"],
    Some("customer_id"), true, {"name"})

  const BranchSchema := Schema(
    ["branch_id", "branch_name", "city"],
    Some("branch_id"), true, {"branch_name"})

  /** The foreign keys of `dim_account` are declared but SQLite does not enforce them by default. */
  const AccountSchema := Schema(
    ["account_id", "customer_id", "branch_id", "account_type", "open_date"],
    Some("account_id"), true, {"customer_id", "branch_id"})

  const DateColumns := ["date_key", "year", "quarter", "month", "month_name", "week", "day_of_week", "day_name", "is_weekend"]

  /** `date_key TEXT PRIMARY KEY`: unique, but not a rowid alias. */
  const DateSchema := Schema(DateColumns, Some("date_key"), false, {})

  const FactSchema := Schema(
    ["transaction_id", "account_id", "date_key", "transaction_type", "amount",
     "transaction_month", "risk_flag", "day_of_week", "week"],
    Some("transaction_id"), true, {"account_id", "date_key"})

  // ---------------------------------------------------------------- the date dimension

  /** One row of `dim_date`. */
  datatype DateRow = DateRow(
    dateKey: string, year: int, quarter: int, month: int, monthName: string,
    week: int, dayOfWeek: int, dayName: string, isWeekend: int)

  /** The dictionary the loop builds for one day. */
  function DateRowOf(d: Date): DateRow
    requires Valid(d)
  {
    DateRow(
      FormatDate(d), d.year, (d.month - 1) / 3 + 1, d.month, MonthName(d),
      IsoCalendar(d).week, Weekday(d), DayName(d), if Weekday(d) >= 5 then 1 else 0)
  }

  /** The quarter is the one holding the month. */
  lemma DateRowQuarter(d: Date)
    requires Valid(d)
    ensures var r := DateRowOf(d);
      && r.dateKey == FormatDate(d) && r.year == d.year && r.month == d.month
      && 1 <= r.quarter <= 4 && 3 * r.quarter - 2 <= r.month <= 3 * r.quarter
      && r.monthName == MonthNames[r.month - 1]
  {
  }

  /** The weekday counts from Monday = 0, its name matches it, and the weekend is exactly Saturday and Sunday. */
  lemma DateRowWeekday(d: Date)
    requires Valid(d)
    ensures var r := DateRowOf(d);
      && 0 <= r.dayOfWeek <= 6 && r.dayOfWeek == (Ordinal(d) + 6) % 7
      && r.dayName == DayNames[r.dayOfWeek]
      && (r.isWeekend == 1 <==> r.dayOfWeek >= 5) && (r.isWeekend == 0 || r.isWeekend == 1)
      && (r.isWeekend == 1 <==> r.dayName == "Saturday" || r.dayName == "Sunday")
  {
    WeekendNames(Weekday(d));
  }

  /** Of the seven day names, only the last two name the weekend. */
  lemma WeekendNames(k: int)
    requires 0 <= k < 7
    ensures DayNames[k] == "Saturday" <==> k == 5
    ensures DayNames[k] == "Sunday" <==> k == 6
  {
    assert DayNames[k][0] == 'S' ==> k == 5 || k == 6;
    assert "Saturday"[1] != "Sunday"[1];
  }

  /** The week is the ISO 8601 week of the day. */
  lemma DateRowWeek(d: Date)
    requires Valid(d)
    ensures var r := DateRowOf(d);
      && 1 <= r.week <= 53 && IsIsoWeekDate(d, IsoDate(IsoCalendar(d).year, r.week, Weekday(d) + 1))
  {
    IsoCalendarIsIsoWeek(d);
    assert IsoCalendar(d) == IsoDate(IsoCalendar(d).year, DateRowOf(d).week, Weekday(d) + 1);
  }

  /** The key reads back as the day it was written from. */
  lemma DateRowKey(d: Date)
    requires Valid(d) && InTimestampRange(d)
    ensures ParseDate(DateRowOf(d).dateKey) == Some(d)
  {
    ParseFormatDate(d);
  }

  /** A load day leaves room for the 730 days before it. */
  predicate LoadDay(today: Date) {
    Valid(today) && Ordinal(today) > 730
  }

  /** Day `i` of the dimension: `now - 730 days + i days`. */
  function DimensionDay(today: Date, i: nat): (d: Date)
    requires LoadDay(today) && i < 730
    ensures Valid(d) && Ordinal(d) == Ordinal(today) - 730 + i
  {
    OrdinalBounds(today);
    AddDays(SubDays(today, 730), i)
  }

  /** The rows of the first `n` days. */
  function DateRowsUpTo(today: Date, n: nat): (rows: seq<DateRow>)
    requires LoadDay(today) && n <= 730
    ensures |rows| == n
  {
    if n == 0 then [] else DateRowsUpTo(today, n - 1) + [DateRowOf(DimensionDay(today, n - 1))]
  }

  /** The rows the loop of lines 117-129 produces. */
  function DateDimension(today: Date): (rows: seq<DateRow>)
    requires LoadDay(today)
    ensures |rows| == 730
  {
    DateRowsUpTo(today, 730)
  }

  lemma {:induction false} DateRowsUpToAt(today: Date, n: nat, i: nat)
    requires LoadDay(today) && i < n <= 730
    ensures DateRowsUpTo(today, n)[i] == DateRowOf(DimensionDay(today, i))
  {
    var prev := DateRowsUpTo(today, n - 1);
    assert DateRowsUpTo(today, n) == prev + [DateRowOf(DimensionDay(today, n - 1))];
    if i < n - 1 {
      DateRowsUpToAt(today, n - 1, i);
      assert DateRowsUpTo(today, n)[i] == prev[i];
    }
  }

  lemma DateRowsUpToSucc(today: Date, n: nat)
    requires LoadDay(today) && n < 730
    ensures DateRowsUpTo(today, n + 1) == DateRowsUpTo(today, n) + [DateRowOf(DimensionDay(today, n))]
  {
  }

  /** Row `i` of the dimension describes day `i`. */
  lemma DateDimensionAt(today: Date)
    requires LoadDay(today)
    ensures forall i :: 0 <= i < 730 ==> DateDimension(today)[i] == DateRowOf(DimensionDay(today, i))
  {
    forall i | 0 <= i < 730 ensures DateDimension(today)[i] == DateRowOf(DimensionDay(today, i)) {
      DateRowsUpToAt(today, 730, i);
    }
  }

  /** The key of row `i` is day `i` of the dimension, written `YYYY-MM-DD`. */
  lemma DateDimensionKeys(today: Date)
    requires LoadDay(today)
    ensures forall i :: 0 <= i < 730 ==> DateDimension(today)[i].dateKey == FormatDate(DimensionDay(today, i))
  {
    DateDimensionAt(today);
  }

  /** `for i in range(730)`, appending one row per day. */
  method BuildDateDimension(today: Date) returns (dates: seq<DateRow>)
    requires LoadDay(today)
    ensures dates == DateDimension(today)
  {
    var start := SubDays(today, 730);
    OrdinalBounds(today);
    dates := [];
    for i := 0 to 730
      invariant dates == DateRowsUpTo(today, i)
    {
      var date := AddDays(start, i);
      DateRowsUpToSucc(today, i);
      dates := dates + [DateRowOf(date)];
    }
  }

  /**
   * The dimension is 730 consecutive days, from 730 days before the load
   * day to the day before it, in increasing order with distinct keys.
   */
  lemma DateDimensionSpan(today: Date)
    requires LoadDay(today)
    ensures forall i :: 0 <= i < 730 ==> Ordinal(DimensionDay(today, i)) == Ordinal(today) - 730 + i
    ensures forall i :: 0 <= i < 730 ==> DateDimension(today)[i].dateKey == FormatDate(DimensionDay(today, i))
    ensures forall i, j :: 0 <= i < j < 730 ==> Ordinal(DimensionDay(today, i)) < Ordinal(DimensionDay(today, j))
    ensures forall i, j :: 0 <= i < j < 730 ==> DateDimension(today)[i].dateKey != DateDimension(today)[j].dateKey
  {
    DateDimensionAt(today);
    forall i, j | 0 <= i < j < 730
      ensures DateDimension(today)[i].dateKey != DateDimension(today)[j].dateKey
    {
      var a := DimensionDay(today, i);
      var b := DimensionDay(today, j);
      if FormatDate(a) == FormatDate(b) {
        FormatDateInjective(a, b);
      }
    }
  }

  /** The dimension holds a key for a day exactly when the day is one of the 730 before the load day. */
  predicate HasDateKey(today: Date, key: string)
    requires LoadDay(today)
  {
    exists i :: 0 <= i < 730 && DateDimension(today)[i].dateKey == key
  }

  lemma DateKeyCoverage(today: Date, d: Date)
    requires LoadDay(today) && Valid(d)
    ensures HasDateKey(today, FormatDate(d)) <==> Ordinal(today) - 730 <= Ordinal(d) <= Ordinal(today) - 1
  {
    if Ordinal(today) - 730 <= Ordinal(d) <= Ordinal(today) - 1 {
      DateKeyPresent(today, d);
    }
    if HasDateKey(today, FormatDate(d)) {
      DateKeyInRange(today, d);
    }
  }

  /** The two directions of `DateKeyCoverage`. */
  lemma DateKeyPresent(today: Date, d: Date)
    requires LoadDay(today) && Valid(d) && Ordinal(today) - 730 <= Ordinal(d) <= Ordinal(today) - 1
    ensures HasDateKey(today, FormatDate(d))
  {
    DateDimensionKeys(today);
    var i := Ordinal(d) - (Ordinal(today) - 730);
    OrdinalInjective(DimensionDay(today, i), d);
    assert DateDimension(today)[i].dateKey == FormatDate(d);
  }

  lemma DateKeyInRange(today: Date, d: Date)
    requires LoadDay(today) && Valid(d) && HasDateKey(today, FormatDate(d))
    ensures Ordinal(today) - 730 <= Ordinal(d) <= Ordinal(today) - 1
  {
    DateDimensionKeys(today);
    var i :| 0 <= i < 730 && DateDimension(today)[i].dateKey == FormatDate(d);
    FormatDateInjective(DimensionDay(today, i), d);
  }


  /** A date row as SQL values, in the column order of `dim_date`. */
  function DateCells(r: DateRow): seq<Cell> {
    [Text(r.dateKey), Int(r.year), Int(r.quarter), Int(r.month), Text(r.monthName),
     Int(r.week), Int(r.dayOfWeek), Text(r.dayName), Int(r.isWeekend)]
  }

  /** `pd.DataFrame(dates)`. */
  function DateFrame(rows: seq<DateRow>): (f: Frame)
    ensures f.columns == DateColumns && |f.rows| == |rows|
    ensures forall i :: 0 <= i < |rows| ==> f.rows[i] == DateCells(rows[i])
  {
    Frame(DateColumns, seq(|rows|, i requires 0 <= i < |rows| => DateCells(rows[i])))
  }

  /** The key of a date row stored into `dim_date`. */
  lemma DateCellsKey(r: DateRow)
    ensures CellAt(Align(DateColumns, DateColumns, DateCells(r)), 0) == Text(r.dateKey)
  {
    assert IndexOf(DateColumns, "date_key") == 0;
  }

  /** Appending rows with distinct date keys to an empty `dim_date` always succeeds. */
  lemma {:induction false} DateRowsInsert(t: Table, rows: seq<DateRow>)
    requires t.schema == DateSchema
    requires forall i :: 0 <= i < |rows| ==> !KeyTaken(t.rows, 0, Text(rows[i].dateKey))
    requires forall i, j :: 0 <= i < j < |rows| ==> rows[i].dateKey != rows[j].dateKey
    ensures InsertRows(t, DateColumns, DateFrame(rows).rows).Success?
    decreases |rows|
  {
    if rows != [] {
      var f := DateFrame(rows).rows;
      DateCellsKey(rows[0]);
      var cells := Align(DateColumns, DateColumns, f[0]);
      assert KeyIndex(DateSchema) == 0;
      assert NullViolationFrom(DateSchema, cells, 0).None?;
      var t1 := InsertRow(t, DateColumns, f[0]).value;
      assert t1.rows == t.rows + [cells];
      forall i | 0 <= i < |rows[1..]| ensures !KeyTaken(t1.rows, 0, Text(rows[1..][i].dateKey)) {
        assert rows[1..][i] == rows[i + 1];
        assert !KeyTaken(t.rows, 0, Text(rows[i + 1].dateKey));
      }
      DateRowsInsert(t1, rows[1..]);
      assert DateFrame(rows[1..]).rows == f[1..];
    }
  }

  /** `dates_df`: the dimension as a frame. */
  function DateDimensionFrame(today: Date): (f: Frame)
    requires LoadDay(today)
    ensures f.columns == DateColumns && |f.rows| == 730
  {
    DateFrame(DateDimension(today))
  }

  /** The frame goes into a new, empty `dim_date` without error. */
  predicate DatesFit(dates: Frame) {
    AppendTable(DateTable, Table(DateSchema, []), dates).Success?
  }

  /** The date step of the load cannot fail. */
  lemma DateDimensionLoads(today: Date)
    requires LoadDay(today)
    ensures DatesFit(DateDimensionFrame(today))
  {
    DateDimensionSpan(today);
    DateRowsInsert(Table(DateSchema, []), DateDimension(today));
    assert FirstAbsent(DateColumns, DateColumns).None?;
  }

  /** A `dim_date` holding exactly the dimension has one row per day, keyed by that day's `YYYY-MM-DD`. */
  lemma DateTableKeys(t: Table, today: Date)
    requires LoadDay(today) && HoldsExactly(t, DateSchema, DateDimensionFrame(today))
    ensures |t.rows| == 730
    ensures forall i :: 0 <= i < 730 ==> CellAt(t.rows[i], 0) == Text(FormatDate(DimensionDay(today, i)))
  {
    var rows := DateDimension(today);
    DateDimensionAt(today);
    assert KeyIndex(DateSchema) == 0;
    forall i | 0 <= i < 730
      ensures CellAt(t.rows[i], 0) == Text(FormatDate(DimensionDay(today, i)))
    {
      DateCellsKey(rows[i]);
      DateRowQuarter(DimensionDay(today, i));
      assert StoredAs(t.rows[i], Align(DateColumns, DateColumns, DateCells(rows[i])), DateSchema);
    }
  }

  // ---------------------------------------------------------------- the fact rename

  /** `{'date': 'date_key', 'type': 'transaction_type'}` applied to one column name. */
  function RenameColumn(c: string): string {
    if c == "date" then "date_key" else if c == "type" then "transaction_type" else c
  }

  function RenameColumns(columns: seq<string>): (r: seq<string>)
    ensures |r| == |columns|
    ensures forall k :: 0 <= k < |r| ==> r[k] == RenameColumn(columns[k])
  {
    seq(|columns|, k requires 0 <= k < |columns| => RenameColumn(columns[k]))
  }

  /** `transactions_df.rename(columns=...)`. */
  function RenameFrame(f: Frame): Frame {
    Frame(RenameColumns(f.columns), f.rows)
  }

  /**
   * The rename touches the header only: `date` becomes `date_key`, `type`
   * becomes `transaction_type`, every other column keeps its name and
   * place, and the rows are the same.
   */
  lemma RenameFrameSpec(f: Frame)
    ensures RenameFrame(f).rows == f.rows
    ensures |RenameFrame(f).columns| == |f.columns|
    ensures forall k :: 0 <= k < |f.columns| ==>
      var (c, r) := (f.columns[k], RenameFrame(f).columns[k]);
      && (c == "date" ==> r == "date_key")
      && (c == "type" ==> r == "transaction_type")
      && (c != "date" && c != "type" ==> r == c)
    ensures "date" !in RenameFrame(f).columns && "type" !in RenameFrame(f).columns
  {
  }

  /** After the rename, `date_key` is found where `date` was, when the frame had no `date_key` of its own. */
  lemma RenamedDateIndex(columns: seq<string>)
    requires "date" in columns && "date_key" !in columns
    ensures IndexOf(RenameColumns(columns), "date_key") == IndexOf(columns, "date")
  {
    var renamed := RenameColumns(columns);
    var k := IndexOf(columns, "date");
    assert renamed[k] == "date_key";
    var r := IndexOf(renamed, "date_key");
    assert |"transaction_type"| != |"date_key"|;
    assert columns[r] == "date";
  }

  // ---------------------------------------------------------------- one run

  datatype LoadError = FileNotFound(file: string) | Sql(table: string, error: SqlError)

  /** How the script ends. */
  datatype Outcome = Loaded | MissingCleanData | Raised(error: LoadError)

  /** The process exit status: the guard's `exit(1)` and an uncaught exception both give 1. */
  function ExitCode(o: Outcome): (code: int)
    ensures code == 0 <==> o.Loaded?
  {
    if o.Loaded? then 0 else 1
  }

  /** The database after the five drops and the five creates. */
  function Recreated(before: map<string, Table>): (r: map<string, Table>)
    ensures r.Keys == before.Keys + StarTables
    ensures forall n :: n in before && n !in StarTables ==> r[n] == before[n]
  {
    (before - StarTables)
      [CustomerTable := Table(CustomerSchema, [])]
      [BranchTable := Table(BranchSchema, [])]
      [AccountTable := Table(AccountSchema, [])]
      [DateTable := Table(DateSchema, [])]
      [FactTable := Table(FactSchema, [])]
  }

  /** The five tables exist. */
  predicate HasStarTables(s: map<string, Table>) {
    StarTables <= s.Keys
  }

  /** Lines 136-139: read the transactions, rename two columns, append them to the fact table. */
  function StageFacts(s4: map<string, Table>, files: map<string, Frame>): (r: (Outcome, map<string, Table>))
    requires HasStarTables(s4)
    ensures r.0 != MissingCleanData
    ensures r.1.Keys == s4.Keys
    ensures forall n :: n in s4 && n !in StarTables ==> r.1[n] == s4[n]
  {
    if TransactionsFile !in files then (Raised(FileNotFound(TransactionsFile)), s4)
    else
      var s5 := AppendTo(s4, FactTable, RenameFrame(files[TransactionsFile]));
      if s5.Failure? then (Raised(Sql(FactTable, s5.error)), s4)
      else (Loaded, s5.value)
  }

  /** Lines 131-132: append the date dimension `dates`. */
  function StageDates(s3: map<string, Table>, files: map<string, Frame>, dates: Frame): (r: (Outcome, map<string, Table>))
    requires HasStarTables(s3)
    ensures r.0 != MissingCleanData
    ensures r.1.Keys == s3.Keys
    ensures forall n :: n in s3 && n !in StarTables ==> r.1[n] == s3[n]
  {
    var s4 := AppendTo(s3, DateTable, dates);
    if s4.Failure? then (Raised(Sql(DateTable, s4.error)), s3)
    else StageFacts(s4.value, files)
  }

  /** Lines 109-110: read and append the accounts. */
  function StageAccounts(s2: map<string, Table>, files: map<string, Frame>, dates: Frame): (r: (Outcome, map<string, Table>))
    requires HasStarTables(s2)
    ensures r.0 != MissingCleanData
    ensures r.1.Keys == s2.Keys
    ensures forall n :: n in s2 && n !in StarTables ==> r.1[n] == s2[n]
  {
    if AccountsFile !in files then (Raised(FileNotFound(AccountsFile)), s2)
    else
      var s3 := AppendTo(s2, AccountTable, files[AccountsFile]);
      if s3.Failure? then (Raised(Sql(AccountTable, s3.error)), s2)
      else StageDates(s3.value, files, dates)
  }

  /** Lines 104-105: read and append the branches. */
  function StageBranches(s1: map<string, Table>, files: map<string, Frame>, dates: Frame): (r: (Outcome, map<string, Table>))
    requires HasStarTables(s1)
    ensures r.0 != MissingCleanData
    ensures r.1.Keys == s1.Keys
    ensures forall n :: n in s1 && n !in StarTables ==> r.1[n] == s1[n]
  {
    if BranchesFile !in files then (Raised(FileNotFound(BranchesFile)), s1)
    else
      var s2 := AppendTo(s1, BranchTable, files[BranchesFile]);
      if s2.Failure? then (Raised(Sql(BranchTable, s2.error)), s1)
      else StageAccounts(s2.value, files, dates)
  }

  /** Lines 99-139 after the creates: the appends, each stopping the run at its first error. */
  function LoadInto(created: map<string, Table>, files: map<string, Frame>, dates: Frame): (r: (Outcome, map<string, Table>))
    requires CustomersFile in files
    requires HasStarTables(created)
    ensures r.0 != MissingCleanData
    ensures r.1.Keys == created.Keys
    ensures forall n :: n in created && n !in StarTables ==> r.1[n] == created[n]
  {
    var s1 := AppendTo(created, CustomerTable, files[CustomersFile]);
    if s1.Failure? then (Raised(Sql(CustomerTable, s1.error)), created)
    else StageBranches(s1.value, files, dates)
  }

  /** The whole script: the guard on the customers file, then drop, create and load. */
  function LoadSpec(before: map<string, Table>, files: map<string, Frame>, dates: Frame): (Outcome, map<string, Table>)
  {
    if CustomersFile !in files then (MissingCleanData, before)
    else LoadInto(Recreated(before), files, dates)
  }

  /** The five star tables exist and are empty, as the creates leave them. */
  predicate Emptied(s: map<string, Table>) {
    && HasStarTables(s)
    && s[CustomerTable] == Table(CustomerSchema, []) && s[BranchTable] == Table(BranchSchema, [])
    && s[AccountTable] == Table(AccountSchema, []) && s[DateTable] == Table(DateSchema, [])
    && s[FactTable] == Table(FactSchema, [])
  }

  /** Every input file is there and each frame goes into its new, empty table without error. */
  predicate AllFit(files: map<string, Frame>, dates: Frame) {
    && CustomersFile in files && BranchesFile in files && AccountsFile in files && TransactionsFile in files
    && AppendTable(CustomerTable, Table(CustomerSchema, []), files[CustomersFile]).Success?
    && AppendTable(BranchTable, Table(BranchSchema, []), files[BranchesFile]).Success?
    && AppendTable(AccountTable, Table(AccountSchema, []), files[AccountsFile]).Success?
    && AppendTable(DateTable, Table(DateSchema, []), dates).Success?
    && AppendTable(FactTable, Table(FactSchema, []), RenameFrame(files[TransactionsFile])).Success?
  }

  /** The star tables after a complete load: each holds what its own append put into the empty table. */
  predicate LoadedTables(after: map<string, Table>, files: map<string, Frame>, dates: Frame) {
    && HasStarTables(after)
    && CustomersFile in files && BranchesFile in files && AccountsFile in files && TransactionsFile in files
    && AppendTable(CustomerTable, Table(CustomerSchema, []), files[CustomersFile]) == Success(after[CustomerTable])
    && AppendTable(BranchTable, Table(BranchSchema, []), files[BranchesFile]) == Success(after[BranchTable])
    && AppendTable(AccountTable, Table(AccountSchema, []), files[AccountsFile]) == Success(after[AccountTable])
    && AppendTable(DateTable, Table(DateSchema, []), dates) == Success(after[DateTable])
    && AppendTable(FactTable, Table(FactSchema, []), RenameFrame(files[TransactionsFile])) == Success(after[FactTable])
  }

  /** The fact step loads exactly when the transactions file is there and fits the empty fact table. */
  lemma FactsLoaded(s4: map<string, Table>, files: map<string, Frame>)
    requires HasStarTables(s4) && s4[FactTable] == Table(FactSchema, [])
    ensures StageFacts(s4, files).0 == Loaded <==>
      TransactionsFile in files && AppendTable(FactTable, Table(FactSchema, []), RenameFrame(files[TransactionsFile])).Success?
    ensures StageFacts(s4, files).0 == Loaded ==>
      StageFacts(s4, files).1 == s4[FactTable := AppendTable(FactTable, Table(FactSchema, []), RenameFrame(files[TransactionsFile])).value]
  {
  }

  /** From the date step on, a run loads exactly when the dates and the transactions fit their empty tables. */
  lemma DatesLoaded(s3: map<string, Table>, files: map<string, Frame>, dates: Frame)
    requires HasStarTables(s3) && s3[DateTable] == Table(DateSchema, []) && s3[FactTable] == Table(FactSchema, [])
    ensures StageDates(s3, files, dates).0 == Loaded <==>
      && AppendTable(DateTable, Table(DateSchema, []), dates).Success?
      && TransactionsFile in files && AppendTable(FactTable, Table(FactSchema, []), RenameFrame(files[TransactionsFile])).Success?
    ensures StageDates(s3, files, dates).0 == Loaded ==>
      StageDates(s3, files, dates).1 == s3
        [DateTable := AppendTable(DateTable, Table(DateSchema, []), dates).value]
        [FactTable := AppendTable(FactTable, Table(FactSchema, []), RenameFrame(files[TransactionsFile])).value]
  {
    var s4 := AppendTo(s3, DateTable, dates);
    if s4.Success? {
      assert s4.value[FactTable] == s3[FactTable];
      FactsLoaded(s4.value, files);
    }
  }

  /** From the account step on. */
  lemma AccountsLoaded(s2: map<string, Table>, files: map<string, Frame>, dates: Frame)
    requires HasStarTables(s2) && s2[AccountTable] == Table(AccountSchema, [])
    requires s2[DateTable] == Table(DateSchema, []) && s2[FactTable] == Table(FactSchema, [])
    ensures StageAccounts(s2, files, dates).0 == Loaded <==>
      && AccountsFile in files && AppendTable(AccountTable, Table(AccountSchema, []), files[AccountsFile]).Success?
      && AppendTable(DateTable, Table(DateSchema, []), dates).Success?
      && TransactionsFile in files && AppendTable(FactTable, Table(FactSchema, []), RenameFrame(files[TransactionsFile])).Success?
    ensures StageAccounts(s2, files, dates).0 == Loaded ==>
      StageAccounts(s2, files, dates).1 == s2
        [AccountTable := AppendTable(AccountTable, Table(AccountSchema, []), files[AccountsFile]).value]
        [DateTable := AppendTable(DateTable, Table(DateSchema, []), dates).value]
        [FactTable := AppendTable(FactTable, Table(FactSchema, []), RenameFrame(files[TransactionsFile])).value]
  {
    if AccountsFile in files {
      var s3 := AppendTo(s2, AccountTable, files[AccountsFile]);
      if s3.Success? {
        assert s3.value[DateTable] == s2[DateTable] && s3.value[FactTable] == s2[FactTable];
        DatesLoaded(s3.value, files, dates);
      }
    }
  }

  /** From the branch step on. */
  lemma BranchesLoaded(s1: map<string, Table>, files: map<string, Frame>, dates: Frame)
    requires HasStarTables(s1) && s1[BranchTable] == Table(BranchSchema, []) && s1[AccountTable] == Table(AccountSchema, [])
    requires s1[DateTable] == Table(DateSchema, []) && s1[FactTable] == Table(FactSchema, [])
    ensures StageBranches(s1, files, dates).0 == Loaded <==>
      && BranchesFile in files && AppendTable(BranchTable, Table(BranchSchema, []), files[BranchesFile]).Success?
      && AccountsFile in files && AppendTable(AccountTable, Table(AccountSchema, []), files[AccountsFile]).Success?
      && AppendTable(DateTable, Table(DateSchema, []), dates).Success?
      && TransactionsFile in files && AppendTable(FactTable, Table(FactSchema, []), RenameFrame(files[TransactionsFile])).Success?
    ensures StageBranches(s1, files, dates).0 == Loaded ==>
      StageBranches(s1, files, dates).1 == s1
        [BranchTable := AppendTable(BranchTable, Table(BranchSchema, []), files[BranchesFile]).value]
        [AccountTable := AppendTable(AccountTable, Table(AccountSchema, []), files[AccountsFile]).value]
        [DateTable := AppendTable(DateTable, Table(DateSchema, []), dates).value]
        [FactTable := AppendTable(FactTable, Table(FactSchema, []), RenameFrame(files[TransactionsFile])).value]
  {
    if BranchesFile in files {
      var s2 := AppendTo(s1, BranchTable, files[BranchesFile]);
      if s2.Success? {
        assert s2.value[AccountTable] == s1[AccountTable];
        assert s2.value[DateTable] == s1[DateTable] && s2.value[FactTable] == s1[FactTable];
        AccountsLoaded(s2.value, files, dates);
      }
    }
  }

  /** From the customer step on: every step in turn. */
  lemma CustomersLoaded(created: map<string, Table>, files: map<string, Frame>, dates: Frame)
    requires CustomersFile in files && Emptied(created)
    ensures LoadInto(created, files, dates).0 == Loaded <==>
      && AppendTable(CustomerTable, Table(CustomerSchema, []), files[CustomersFile]).Success?
      && BranchesFile in files && AppendTable(BranchTable, Table(BranchSchema, []), files[BranchesFile]).Success?
      && AccountsFile in files && AppendTable(AccountTable, Table(AccountSchema, []), files[AccountsFile]).Success?
      && AppendTable(DateTable, Table(DateSchema, []), dates).Success?
      && TransactionsFile in files && AppendTable(FactTable, Table(FactSchema, []), RenameFrame(files[TransactionsFile])).Success?
    ensures LoadInto(created, files, dates).0 == Loaded ==>
      LoadInto(created, files, dates).1 == created
        [CustomerTable := AppendTable(CustomerTable, Table(CustomerSchema, []), files[CustomersFile]).value]
        [BranchTable := AppendTable(BranchTable, Table(BranchSchema, []), files[BranchesFile]).value]
        [AccountTable := AppendTable(AccountTable, Table(AccountSchema, []), files[AccountsFile]).value]
        [DateTable := AppendTable(DateTable, Table(DateSchema, []), dates).value]
        [FactTable := AppendTable(FactTable, Table(FactSchema, []), RenameFrame(files[TransactionsFile])).value]
  {
    var s1 := AppendTo(created, CustomerTable, files[CustomersFile]);
    if s1.Success? {
      assert s1.value[BranchTable] == created[BranchTable] && s1.value[AccountTable] == created[AccountTable];
      assert s1.value[DateTable] == created[DateTable] && s1.value[FactTable] == created[FactTable];
      BranchesLoaded(s1.value, files, dates);
    }
  }

  /** After a complete load each star table holds what its own append put into the empty table. */
  lemma LoadIntoTables(created: map<string, Table>, files: map<string, Frame>, dates: Frame)
    requires CustomersFile in files && Emptied(created)
    ensures LoadInto(created, files, dates).0 == Loaded ==> LoadedTables(LoadInto(created, files, dates).1, files, dates)
  {
    CustomersLoaded(created, files, dates);
    if LoadInto(created, files, dates).0 == Loaded {
      StarTablesDistinct();
      UpdatedFive(created, CustomerTable, BranchTable, AccountTable, DateTable, FactTable,
        AppendTable(CustomerTable, Table(CustomerSchema, []), files[CustomersFile]).value,
        AppendTable(BranchTable, Table(BranchSchema, []), files[BranchesFile]).value,
        AppendTable(AccountTable, Table(AccountSchema, []), files[AccountsFile]).value,
        AppendTable(DateTable, Table(DateSchema, []), dates).value,
        AppendTable(FactTable, Table(FactSchema, []), RenameFrame(files[TransactionsFile])).value);
    }
  }

  /** Five updates under five different names: each name holds its own new value. */
  lemma UpdatedFive(m: map<string, Table>, k1: string, k2: string, k3: string, k4: string, k5: string,
                    v1: Table, v2: Table, v3: Table, v4: Table, v5: Table)
    requires k1 != k2 && k1 != k3 && k1 != k4 && k1 != k5 && k2 != k3 && k2 != k4 && k2 != k5
    requires k3 != k4 && k3 != k5 && k4 != k5
    ensures var u := m[k1 := v1][k2 := v2][k3 := v3][k4 := v4][k5 := v5];
      u[k1] == v1 && u[k2] == v2 && u[k3] == v3 && u[k4] == v4 && u[k5] == v5
  {
  }

  /**
   * The appends after the creates load everything exactly when every file is
   * present and every frame fits its table; each table then holds what its
   * own append put into it.
   */
  lemma LoadIntoLoaded(created: map<string, Table>, files: map<string, Frame>, dates: Frame)
    requires CustomersFile in files && Emptied(created)
    ensures LoadInto(created, files, dates).0 == Loaded <==> AllFit(files, dates)
    ensures LoadInto(created, files, dates).0 == Loaded ==> LoadedTables(LoadInto(created, files, dates).1, files, dates)
  {
    CustomersLoaded(created, files, dates);
    LoadIntoTables(created, files, dates);
  }

  /** The five star tables have five different names. */
  lemma StarTablesDistinct()
    ensures CustomerTable != BranchTable && CustomerTable != AccountTable && CustomerTable != DateTable && CustomerTable != FactTable
    ensures BranchTable != AccountTable && BranchTable != DateTable && BranchTable != FactTable
    ensures AccountTable != DateTable && AccountTable != FactTable && DateTable != FactTable
  {
    assert CustomerTable[4] == 'c' && BranchTable[4] == 'b' && AccountTable[4] == 'a' && DateTable[4] == 'd';
    assert FactTable[0] == 'f';
  }

  /** A run loads everything exactly when all four cleaned files are there and each fits its table. */
  lemma LoadedIffFit(before: map<string, Table>, files: map<string, Frame>, dates: Frame)
    ensures LoadSpec(before, files, dates).0 == Loaded <==> AllFit(files, dates)
  {
    if CustomersFile in files {
      LoadIntoLoaded(Recreated(before), files, dates);
    }
  }

  /**
   * A complete load, and after it every star table holds exactly the rows of
   * its own input, whatever the database held before: the drops leave nothing
   * of an earlier run. Tables outside the star schema are left alone.
   */
  lemma LoadedContents(before: map<string, Table>, files: map<string, Frame>, dates: Frame)
    ensures LoadSpec(before, files, dates).0 == Loaded <==> AllFit(files, dates)
    ensures var (outcome, after) := LoadSpec(before, files, dates);
      && after.Keys == before.Keys + (if CustomersFile in files then StarTables else {})
      && (forall n :: n in before && n !in StarTables ==> after[n] == before[n])
      && (outcome == Loaded ==>
           && HoldsExactly(after[CustomerTable], CustomerSchema, files[CustomersFile])
           && HoldsExactly(after[BranchTable], BranchSchema, files[BranchesFile])
           && HoldsExactly(after[AccountTable], AccountSchema, files[AccountsFile])
           && HoldsExactly(after[DateTable], DateSchema, dates)
           && HoldsExactly(after[FactTable], FactSchema, RenameFrame(files[TransactionsFile])))
  {
    if CustomersFile in files {
      LoadIntoLoaded(Recreated(before), files, dates);
      if LoadSpec(before, files, dates).0 == Loaded {
        AppendToEmpty(CustomerTable, CustomerSchema, files[CustomersFile]);
        AppendToEmpty(BranchTable, BranchSchema, files[BranchesFile]);
        AppendToEmpty(AccountTable, AccountSchema, files[AccountsFile]);
        AppendToEmpty(DateTable, DateSchema, dates);
        AppendToEmpty(FactTable, FactSchema, RenameFrame(files[TransactionsFile]));
      }
    }
  }

  /**
   * `date_key` is NOT NULL in `fact_transactions`: one transaction whose
   * `date` is empty makes the fact append fail, so the run does not load.
   */
  lemma NullDateRejected(before: map<string, Table>, files: map<string, Frame>, dates: Frame, i: nat)
    requires TransactionsFile in files
    requires "date" in files[TransactionsFile].columns && "date_key" !in files[TransactionsFile].columns
    requires i < |files[TransactionsFile].rows|
    requires CellAt(files[TransactionsFile].rows[i], IndexOf(files[TransactionsFile].columns, "date")) == Null
    ensures LoadSpec(before, files, dates).0 != Loaded
  {
    RenamedDateIndex(files[TransactionsFile].columns);
    NullDateKeyRejected(RenameFrame(files[TransactionsFile]), i);
    LoadedIffFit(before, files, dates);
  }

  /** A fact row without a `date_key` breaks the NOT NULL constraint, so the fact append fails. */
  lemma NullDateKeyRejected(f: Frame, i: nat)
    requires i < |f.rows| && CellAt(f.rows[i], IndexOf(f.columns, "date_key")) == Null
    ensures AppendTable(FactTable, Table(FactSchema, []), f).Failure?
  {
    var cells := Align(FactSchema.columns, f.columns, f.rows[i]);
    assert FactSchema.columns[2] == "date_key";
    assert CellAt(cells, 2) == Null;
    AppendTableRejectsNull(FactTable, Table(FactSchema, []), f, i);
  }


  /**
   * The guard: without `customers.csv` the script stops with status 1 and
   * the database is untouched; with it, the tables are dropped and created
   * whatever else is missing, so the guard checks that one file only.
   */
  lemma MissingCustomers(before: map<string, Table>, files: map<string, Frame>, dates: Frame)
    ensures CustomersFile !in files ==>
      LoadSpec(before, files, dates) == (MissingCleanData, before) && ExitCode(MissingCleanData) == 1
    ensures CustomersFile in files ==>
      LoadSpec(before, files, dates).0 != MissingCleanData && HasStarTables(LoadSpec(before, files, dates).1)
  {
  }

  /** With customers in place but no branches file, the run fails after the drops, holding only the customers. */
  lemma MissingBranches(before: map<string, Table>, files: map<string, Frame>, dates: Frame)
    requires CustomersFile in files && BranchesFile !in files
    requires AppendTable(CustomerTable, Table(CustomerSchema, []), files[CustomersFile]).Success?
    ensures var (outcome, after) := LoadSpec(before, files, dates);
      && outcome == Raised(FileNotFound(BranchesFile)) && ExitCode(outcome) == 1
      && after == Recreated(before)[CustomerTable := AppendTable(CustomerTable, Table(CustomerSchema, []), files[CustomersFile]).value]
  {
    var s1 := AppendTo(Recreated(before), CustomerTable, files[CustomersFile]);
    assert s1.value == Recreated(before)[CustomerTable := AppendTable(CustomerTable, Table(CustomerSchema, []), files[CustomersFile]).value];
  }

  /** The drops and creates forget the star tables: two databases that agree elsewhere are recreated alike. */
  lemma RecreatedForgets(a: map<string, Table>, b: map<string, Table>)
    requires forall n :: n !in StarTables ==> (n in a <==> n in b)
    requires forall n :: n in a && n in b && n !in StarTables ==> a[n] == b[n]
    ensures Recreated(a) == Recreated(b)
  {
    assert Recreated(a).Keys == Recreated(b).Keys;
  }

  /**
   * Running the script a second time on the same files and the same day
   * leaves the database exactly as the first run did: no row is duplicated.
   */
  lemma LoadTwice(before: map<string, Table>, files: map<string, Frame>, dates: Frame)
    ensures LoadSpec(LoadSpec(before, files, dates).1, files, dates) == LoadSpec(before, files, dates)
  {
    if CustomersFile in files {
      var once := LoadSpec(before, files, dates).1;
      RecreatedForgets(once, before);
    }
  }

  /** Lines 25-91: drop the five tables if they exist, then create them empty. */
  method RecreateTables(db: Database)
    modifies db
    ensures db.tables == Recreated(old(db.tables))
  {
    db.DropIfExists(FactTable);
    db.DropIfExists(AccountTable);
    db.DropIfExists(CustomerTable);
    db.DropIfExists(BranchTable);
    db.DropIfExists(DateTable);
    assert db.tables == old(db.tables) - StarTables;
    var _ := db.Create(CustomerTable, CustomerSchema);
    var _ := db.Create(BranchTable, BranchSchema);
    var _ := db.Create(AccountTable, AccountSchema);
    var _ := db.Create(DateTable, DateSchema);
    var _ := db.Create(FactTable, FactSchema);
  }

  /** Lines 113-139: build and append the date dimension, then read, rename and append the transactions. */
  method LoadDatesAndFacts(db: Database, files: map<string, Frame>, today: Date) returns (outcome: Outcome)
    requires LoadDay(today) && HasStarTables(db.tables)
    modifies db
    ensures (outcome, db.tables) == StageDates(old(db.tables), files, DateDimensionFrame(today))
  {
    var dates := BuildDateDimension(today);
    var r := db.Append(DateTable, DateFrame(dates));
    if r.Failure? {
      return Raised(Sql(DateTable, r.error));
    }
    if TransactionsFile !in files {
      return Raised(FileNotFound(TransactionsFile));
    }
    var transactions := RenameFrame(files[TransactionsFile]);
    r := db.Append(FactTable, transactions);
    if r.Failure? {
      return Raised(Sql(FactTable, r.error));
    }
    return Loaded;
  }

  /** The script, statement by statement, on the database connection. */
  method LoadStarSchema(db: Database, files: map<string, Frame>, today: Date) returns (outcome: Outcome)
    requires LoadDay(today)
    modifies db
    ensures (outcome, db.tables) == LoadSpec(old(db.tables), files, DateDimensionFrame(today))
  {
    if CustomersFile !in files {
      return MissingCleanData;
    }
    RecreateTables(db);
    ghost var spec := LoadSpec(old(db.tables), files, DateDimensionFrame(today));
    assert spec == LoadInto(db.tables, files, DateDimensionFrame(today));

    var r := db.Append(CustomerTable, files[CustomersFile]);
    if r.Failure? {
      return Raised(Sql(CustomerTable, r.error));
    }
    assert spec == StageBranches(db.tables, files, DateDimensionFrame(today));
    if BranchesFile !in files {
      return Raised(FileNotFound(BranchesFile));
    }
    r := db.Append(BranchTable, files[BranchesFile]);
    if r.Failure? {
      return Raised(Sql(BranchTable, r.error));
    }
    assert spec == StageAccounts(db.tables, files, DateDimensionFrame(today));
    if AccountsFile !in files {
      return Raised(FileNotFound(AccountsFile));
    }
    r := db.Append(AccountTable, files[AccountsFile]);
    if r.Failure? {
      return Raised(Sql(AccountTable, r.error));
    }
    outcome := LoadDatesAndFacts(db, files, today);
  }
}
