# First Capital Bank Insights — verified model of the batch pipeline

This project models the three stages of the First Capital Bank BI demo pipeline in Dafny, and proves properties of each.

- **Mock-data generator** (`etl/generate_mock_data.py`). Counting loops produce customers, the fixed branches, accounts and transactions. Python's `random` and Faker are replaced by oracle objects: each is a stream of raw draws plus a cursor.
- **Cleaning stage** (`etl/etl_pipeline.py`):
  - normalises column names;
  - fills missing values with fixed defaults or the median age;
  - clamps ages;
  - maps account and transaction type synonyms;
  - takes the absolute amount and sets the risk flag;
  - reformats dates and derives the month, weekday name and ISO week.
- **SQLite loader** (`sql/load_to_sqlite.py`). It stops when `customers.csv` is missing. Otherwise it drops and re-creates the five star-schema tables and appends the cleaned files. It also builds the 730-day date dimension and appends it, then appends the transactions with `date`/`type` renamed to `date_key`/`transaction_type`.

The project has these modules:

| module | file | what it holds |
|---|---|---|
| `Wrappers` | wrappers.dfy | `Option` (a missing cell) and `Result` (an operation that raises) |
| `Text` | text.dfy | ASCII lower-casing, character replacement and the missing-column lookup |
| `Calendar` | calendar.dfy | the proleptic Gregorian calendar of Python's `datetime` |
| `DateFormat` | datefmt.dfy | `YYYY-MM-DD` text and the coercing parse |
| `Statistics` | statistics.dfy | the median over the present ages |
| `Cleaning` | cleaning.dfy | the `clean_*` functions |
| `Randomness` | randomness.dfy | the `random` and Faker oracles, as classes with a cursor |
| `Generator` | generator.dfy | the `generate_*` loops, as methods |
| `Store` | store.dfy | the SQLite tables and `to_sql(..., if_exists='append')` |
| `Loader` | loader.dfy | the date dimension, the rename, and the whole load |
| `Coverage` | coverage.dfy | facts across the three scripts |

`Calendar` follows Python's `datetime`:
- Ordinals count from 0001-01-01 as day 1.
- Weekdays count from Monday = 0.
- `isocalendar()` uses CPython's `_isoweek1monday` algorithm. This is the week calendar of section 3.2.2 of ISO 8601:2004.

Dates are written in the calendar-date format of section 4.1.2.2 of ISO 8601:2004.

## Where the code and its description differ

The model follows the code in each case below.

- **The project description says every transaction date has a row in the date dimension.** The code does not guarantee this.
  - The generator dates a transaction `days_ago` ∈ 0..365 days after `now - 365` (`etl/generate_mock_data.py:87`, `102-103`), so the last possible date is the generation day itself.
  - The loader's dimension holds the 730 days from `now - 730` up to the day before the load (`sql/load_to_sqlite.py:116-118`).
  - When generation and load happen on the same day, a transaction with `days_ago = 365` has no date row.
  - SQLite does not enforce the foreign key by default, so that fact row is still stored.
  - `Coverage.TransactionDayCovered`, `Coverage.AllTransactionDaysCovered` and `Coverage.SameDayLoad` state exactly which days are covered.
- **The description says no age is missing after cleaning.** If every age in the column is missing, `median()` is NaN and the ages stay missing. `Cleaning.CleanCustomers` states when an age is missing afterwards.
- **The description says unparsable dates become null.** For a transaction, `date`, `day_of_week` and `week` do become missing. But `transaction_month` becomes the text `"NaT"`: `to_period('M').astype(str)` writes a missing period that way.
- **The description says the derived fields come from the parsed date before reformatting.** In the code, `day_of_week` and `week` come from parsing the reformatted text a second time (`etl/etl_pipeline.py:114`). Both routes give the same day; `Cleaning.CleanTransactionSpec` states this.
- **The description says a malformed date never propagates.** In the loader it does:
  - A transaction whose date was coerced to null is loaded with a null `date_key`.
  - `date_key` is `NOT NULL` in `fact_transactions`, so the whole fact append fails.
  - `Loader.NullDateRejected` proves this.

## Model

| member | source | states |
|---|---|---|
| Text.LowerChar | etl/etl_pipeline.py:24 | an ASCII capital moves 32 code points down to its lower-case letter; any other character is unchanged; the result is never a capital |
| Text.LowerAt | etl/etl_pipeline.py:24 | `str.lower` keeps the length and lower-cases each character in place |
| Text.LowerHasNoUpper | etl/etl_pipeline.py:24 | lower-cased text contains no ASCII capital |
| Text.LowerIdempotent | etl/etl_pipeline.py:70 | lower-casing twice gives the same text as lower-casing once |
| Text.LowerOfLower | etl/etl_pipeline.py:70 | text without capitals is left exactly as it was |
| Text.ReplaceCharAt | etl/etl_pipeline.py:24 | `str.replace(' ', '_')` keeps the length, replaces every space and leaves every other character |
| Cleaning.NormalizeColumnNameAt | etl/etl_pipeline.py:24 | a normalised name has the same length; each space becomes `_` and each other character is lower-cased |
| Cleaning.NormalizeColumnNameClean | etl/etl_pipeline.py:24 | a normalised name contains no space and no ASCII capital |
| Cleaning.NormalizeColumnNameIdempotent | etl/etl_pipeline.py:24 | normalising a normalised name changes nothing |
| Cleaning.NormalizeColumnNameOfClean | etl/etl_pipeline.py:24 | a name with no space and no capital is already normalised |
| Cleaning.CleanColumnNames | etl/etl_pipeline.py:22-25 | the frame keeps its number of columns, and column k gets the normalised form of old column k |
| Cleaning.CleanColumnNamesIdempotent | etl/etl_pipeline.py:22-25 | `clean_column_names` applied twice equals applied once |
| Text.FirstAbsent | etl/etl_pipeline.py:33 | the first wanted name the header lacks, or none exactly when every wanted name is present. It is the `KeyError` of a column lookup in cleaning; it is also the "no such column" error of an append (`sql/load_to_sqlite.py:100`) |
| Cleaning.SetColumn | etl/etl_pipeline.py:104 | assigning a column adds it when absent and keeps every existing column |
| Cleaning.DropColumn | etl/etl_pipeline.py:117 | `drop('date_dt', axis=1)` removes that column and keeps every other one |
| Cleaning.CleanDateTextCanonical | etl/etl_pipeline.py:39-40 | a reformatted date parses again; reformatting twice equals once; a date that survives is already in `YYYY-MM-DD` form, so the text is unchanged |
| Cleaning.PresentAges | etl/etl_pipeline.py:35 | at most one age per row is collected, and the list is non-empty exactly when some row has an age |
| Cleaning.PresentAgesContents | etl/etl_pipeline.py:35 | a value is collected exactly when some row holds it as its age |
| Cleaning.PresentAgesAppend | etl/etl_pipeline.py:35 | the ages are collected in row order: the ages of two blocks of rows are the first block's ages, then the second's |
| Cleaning.PresentAgesPermutation | etl/etl_pipeline.py:35 | customer rows that are a permutation of each other give the same ages, counted with repetition |
| Cleaning.AgeMedianOrderIndependent | etl/etl_pipeline.py:35 | the median that fills missing ages does not depend on the order of the customer rows |
| Cleaning.MapCustomers | etl/etl_pipeline.py:33-43 | one cleaned customer per raw customer, in the same order |
| Cleaning.CleanCustomers | etl/etl_pipeline.py:27-46 | `KeyError` exactly when a read column is absent. Otherwise: same ids and row count; missing name, gender and city become `"Unknown"`; `join_date` is reformatted; every present age lies in 18..100: an age already in range is kept and an out-of-range age becomes the nearer bound (`clip`, line 43); a missing age becomes the clamped median of the present ages; an age is missing afterwards exactly when no row has one and this row had none |
| Cleaning.CleanBranches | etl/etl_pipeline.py:48-58 | `KeyError` exactly when a read column is absent; otherwise same ids and row count, a missing name becomes `"Unknown Branch"` and a missing city `"Unknown"`, and present values are kept |
| Cleaning.NormalizeAccountTypeCases | etl/etl_pipeline.py:66-75 | missing → `"savings"`; lower-cased `"checking"` → `"current"`; any other value → its lower-cased form; the result is never `"checking"` and contains no capital |
| Cleaning.CleanAccounts | etl/etl_pipeline.py:60-82 | `KeyError` exactly when a read column is absent; otherwise same ids and row count, a missing `branch_id` becomes 1, the type is normalised (never `"checking"`) and `open_date` is reformatted |
| Cleaning.NormalizeTransactionTypeCases | etl/etl_pipeline.py:90-100 | missing → `"deposit"`; lower-cased `"withdraw"` → `"withdrawal"`; any other value → its lower-cased form; the result is never `"withdraw"` and contains no capital |
| Cleaning.CleanTransactionSpec | etl/etl_pipeline.py:90-117 | ids kept; type normalised; the amount is the absolute value of the amount, or 0 when missing, so it is ≥ 0; `risk_flag` is 0 or 1, and 1 exactly for a withdrawal above 500000; the date is reformatted; an unparsable date leaves month `"NaT"` with no weekday and no week |
| Cleaning.CleanTransactionParsed | etl/etl_pipeline.py:103-116 | for a parsable date: month is the first seven characters of the new date; weekday name and ISO week (1..53) are those of the parsed day |
| Cleaning.TransactionColumnsSpec | etl/etl_pipeline.py:104-117 | the output columns are the input columns plus `transaction_month`, `risk_flag`, `day_of_week` and `week`; `date_dt` is gone |
| Cleaning.MapTransactions | etl/etl_pipeline.py:84-121 | one cleaned transaction per raw transaction, in the same order |
| Cleaning.CleanTransactions | etl/etl_pipeline.py:84-121 | `KeyError` exactly when a read column is absent; otherwise the same number of rows, each cleaned by the per-row rule, and the derived column set |
| Cleaning.AgeExampleMedian | etl/etl_pipeline.py:35 | the present ages of [20, missing, 30, 40] have median 30 |
| Cleaning.MissingAgeExample | etl/etl_pipeline.py:35 | in that table the missing age cleans to 30 |
| Cleaning.JanuaryFifteenthText | etl/etl_pipeline.py:103-105 | `"2024-01-15"` parses to 15 January 2024, is written back unchanged, and its month is `"2024-01"` |
| Cleaning.JanuaryFifteenthFormat | etl/etl_pipeline.py:104-105 | 15 January 2024 is written `"2024-01-15"` with month `"2024-01"` |
| Cleaning.JanuaryFifteenthWeek | etl/etl_pipeline.py:115-116 | 15 January 2024 is a Monday in ISO week 3 |
| Cleaning.UpperCaseWithdraw | etl/etl_pipeline.py:94-100 | `"WITHDRAW"` normalises to `"withdrawal"` |
| Cleaning.WithdrawalExample | etl/etl_pipeline.py:84-117 | the row (1, 5, 2024-01-15, WITHDRAW, −600000) cleans to withdrawal, 600000, month 2024-01, risk flag 1, Monday, week 3 |
| Statistics.InsertMultiset | etl/etl_pipeline.py:35 | inserting into a list adds exactly that one value |
| Statistics.InsertSorted | etl/etl_pipeline.py:35 | inserting into a sorted list keeps it sorted |
| Statistics.SortSpec | etl/etl_pipeline.py:35 | sorting gives a sorted permutation of the ages |
| Statistics.SortedUnique | etl/etl_pipeline.py:35 | two sorted lists with the same elements are equal |
| Statistics.SortedHeads | etl/etl_pipeline.py:35 | two sorted non-empty lists with the same elements start with the same value |
| Statistics.DropHead | etl/etl_pipeline.py:35 | the tail of a sorted list is sorted and holds the remaining elements |
| Statistics.Median | etl/etl_pipeline.py:35 | there is a median exactly when some age is present |
| Statistics.MedianWithin | etl/etl_pipeline.py:35 | the median lies within any bounds that hold for every present age |
| Statistics.MedianOrderIndependent | etl/etl_pipeline.py:35 | two sequences with the same values, counted with repetition, have the same median |
| DateFormat.Padded | etl/etl_pipeline.py:40 | a zero-padded field has exactly the requested width and only digits |
| DateFormat.NumberOfPadded | etl/etl_pipeline.py:39 | reading a padded number back gives the number, when it fits the width |
| DateFormat.PaddedOfNumber | etl/etl_pipeline.py:40 | re-padding the value of a digit string gives the string back |
| DateFormat.FormatDateFields | etl/etl_pipeline.py:104-105 | a formatted date is ten characters with dashes at 4 and 7, and its first seven characters are the month text |
| DateFormat.FormatDateInjective | sql/load_to_sqlite.py:120 | different days get different `date_key` text |
| DateFormat.ParseDate | etl/etl_pipeline.py:39 | `to_datetime(..., errors='coerce')` yields only real calendar days inside the pandas `Timestamp` range; anything else becomes missing |
| DateFormat.ParseFormatDate | etl/etl_pipeline.py:39-40 | parsing the formatted text of a day in range gives that day back |
| DateFormat.FormatParseDate | etl/etl_pipeline.py:39-40 | text that parses is exactly the formatted text of its day |
| Calendar.DaysInMonth | sql/load_to_sqlite.py:118 | a month has 28 to 31 days |
| Calendar.YearLength | sql/load_to_sqlite.py:118 | consecutive year starts are 365 or 366 days apart, by the Gregorian leap rule |
| Calendar.MonthLength | sql/load_to_sqlite.py:118 | consecutive month starts are one month length apart, and December ends the year |
| Calendar.NextDayOrdinal | sql/load_to_sqlite.py:118 | the next day is a valid date one ordinal later |
| Calendar.PrevDayOrdinal | sql/load_to_sqlite.py:116 | the previous day is a valid date one ordinal earlier |
| Calendar.AddDays | sql/load_to_sqlite.py:118 | `date + timedelta(days=k)` is a valid date exactly k ordinals later |
| Calendar.SubDays | sql/load_to_sqlite.py:116 | `date - timedelta(days=k)` is a valid date exactly k ordinals earlier |
| Calendar.AddDaysSucc | sql/load_to_sqlite.py:118 | adding k+1 days is adding k days and taking the next day |
| Calendar.OrdinalInYear | sql/load_to_sqlite.py:118 | a day's ordinal lies within its year |
| Calendar.MonthBeforeEnd | sql/load_to_sqlite.py:118 | every month ends inside its year |
| Calendar.MonthsApart | sql/load_to_sqlite.py:118 | a later month starts after an earlier one ends |
| Calendar.DaysBeforeYearMonotone | sql/load_to_sqlite.py:118 | a later year starts at least 365 days per year later |
| Calendar.OrdinalBounds | sql/load_to_sqlite.py:118 | every valid day lies between 0001-01-01 and 9999-12-31 |
| Calendar.OrdinalInjective | sql/load_to_sqlite.py:118 | two valid days with the same ordinal are the same day |
| Calendar.Weekday | sql/load_to_sqlite.py:126 | `weekday()` lies in 0..6 |
| Calendar.WeekdayOf | sql/load_to_sqlite.py:126 | the weekday of an ordinal lies in 0..6 |
| Calendar.WeekOneMondaySpec | sql/load_to_sqlite.py:125 | the Monday computed for a year is a Monday, and the week it starts holds the year's 4th day |
| Calendar.Week1MondayIsWeekOne | sql/load_to_sqlite.py:125 | week 1 of every year starts on a Monday and contains 4 January |
| Calendar.Week1MondayStep | sql/load_to_sqlite.py:125 | consecutive week-1 Mondays are 52 or 53 weeks apart |
| Calendar.IsoCalendarIsIsoWeek | sql/load_to_sqlite.py:125 | `isocalendar()` gives a week in 1..53 and an ISO year within one of the calendar year; the day falls in that week, on weekday+1 |
| Calendar.IsoCalendarOfIsIsoWeek | sql/load_to_sqlite.py:125 | the same, for a day given by its ordinal within its year |
| Calendar.NearWeekOne | sql/load_to_sqlite.py:125 | every day of a year lies between three days before its week-1 Monday and two days after the next year's |
| Calendar.IsoWeekOfYear | sql/load_to_sqlite.py:125 | `isocalendar()` of a day near its year picks the right ISO year and a week in 1..53 that contains the day |
| Calendar.MondaysApart | sql/load_to_sqlite.py:125 | three consecutive week-1 Mondays are Mondays, 364 to 371 days apart |
| Calendar.IsoWeekArithmetic | sql/load_to_sqlite.py:125 | the week/weekday arithmetic of `isocalendar()` places the day in the week it names |
| Randomness.Random.constructor | etl/generate_mock_data.py:15 | a seeded generator starts at the beginning of its stream |
| Randomness.Random.RandInt | etl/generate_mock_data.py:44 | `randint(lo, hi)` returns a value in lo..hi and uses one draw; when lo > hi it raises |
| Randomness.Random.Choice | etl/generate_mock_data.py:34 | `choice(xs)` returns an element of xs and uses one draw |
| Randomness.Faker.constructor | etl/generate_mock_data.py:13-14 | a seeded Faker with non-empty name lists starts at the beginning of its stream |
| Randomness.Faker.NameMale | etl/generate_mock_data.py:36 | a male name from the locale's list |
| Randomness.Faker.NameFemale | etl/generate_mock_data.py:38 | a female name from the locale's list |
| Randomness.Faker.DateBetween | etl/generate_mock_data.py:46 | `date_between(start, end)` returns a valid day from start to end inclusive |
| Generator.GenerationDayFits | etl/generate_mock_data.py:87 | a generation day is before the last day `datetime` can hold |
| Generator.FormattedInWindow | etl/generate_mock_data.py:46 | a drawn day written as `YYYY-MM-DD` parses back to a day inside the window |
| Generator.WindowStart | etl/generate_mock_data.py:87 | `now - timedelta(days)` is exactly that many days before today |
| Generator.GenerateCustomers | etl/generate_mock_data.py:30-49 | n customers with ids 1..n in order, each satisfying the per-row rules; three draws and two Faker calls per customer |
| Generator.GenerateCustomer | etl/generate_mock_data.py:34-47 | gender in {Male, Female}; a name from that gender's list; a whole-number age in 18..75; a city from CITIES; `join_date` in the last five years |
| Generator.GenerateBranches | etl/generate_mock_data.py:18-24 | exactly five branches, ids 1..5, each named, with the city of the same position in CITIES |
| Generator.GenerateAccount | etl/generate_mock_data.py:62-68 | one account for the given customer, with `branch_id` in 1..5, type in {savings, current} and an opening day in the last four years; two `random` draws and one Faker call |
| Generator.GenerateAccounts | etl/generate_mock_data.py:55-82 | max(n, n_customers) accounts with consecutive ids from 1; account k belongs to customer k for k ≤ n_customers; fails (`randint(1, 0)`) exactly when there are no customers and n ≥ 1, having drawn nothing; on success, two draws per customer's account and three per extra account, and one Faker call per account |
| Generator.EveryCustomerHasAccount | etl/generate_mock_data.py:61-76 | every customer 1..n_customers owns an account, and every account's owner is one of them |
| Generator.AmountRange | etl/generate_mock_data.py:94-99 | every type's amount range is non-empty and starts at 5000 or more |
| Generator.DrawAmount | etl/generate_mock_data.py:94-99 | the amount lies in its type's range: deposit 5000..2000000, withdrawal 10000..1000000, transfer 5000..500000 |
| Generator.TransactionDay | etl/generate_mock_data.py:102-103 | `start + timedelta(days=days_ago)` is `today − 365 + days_ago` |
| Generator.DrawTransactionDate | etl/generate_mock_data.py:101-103 | the date is one of `today − 365` .. `today` inclusive, written `YYYY-MM-DD` |
| Generator.GenerateTransaction | etl/generate_mock_data.py:89-111 | account in 1..n_accounts, type in TRANSACTION_TYPES, amount in its range, date in the window; fails exactly when there are no accounts, having drawn nothing; four draws on success |
| Generator.GenerateTransactions | etl/generate_mock_data.py:84-113 | n transactions with ids 1..n, each satisfying the per-row rules; fails exactly when n ≥ 1 and there are no accounts, having drawn nothing; four draws per transaction on success |
| Generator.GenerateDataset | etl/generate_mock_data.py:115-141 | 200 customers, the five branches, 300 accounts and 3000 transactions; every account's customer and every transaction's account exists; 13300 `random` draws and 700 Faker calls in all |
| Store.IndexOf | sql/load_to_sqlite.py:139 | the first position of a column name, or −1 exactly when the name is absent |
| Store.KeyIndex | sql/load_to_sqlite.py:34 | there is a key position exactly when the schema declares a key that is one of its columns, and that position holds the key's name |
| Store.Align | sql/load_to_sqlite.py:100 | `to_sql` matches columns by name: each table column takes the frame's cell of that name, or null when the frame lacks it |
| Store.NullViolationFrom | sql/load_to_sqlite.py:35 | no violation exactly when no `NOT NULL` column holds a null; a reported column is a `NOT NULL` one |
| Store.MaxKey | sql/load_to_sqlite.py:34 | the largest integer key stored, held by some row; none exactly when no row holds an integer key |
| Store.NextRowid | sql/load_to_sqlite.py:34 | the key SQLite assigns to a null `INTEGER PRIMARY KEY` is one more than the largest integer key in use, or 1 when there is none, so no row holds it |
| Store.IntegerKeyValue | sql/load_to_sqlite.py:34 | an `INTEGER PRIMARY KEY` takes an integer as it is, a real with no fractional part as that integer, and text made of an optional sign and decimal digits as the number it spells; nothing else (and not null) |
| Store.StoredKey | sql/load_to_sqlite.py:34 | a given key is stored non-null, as an integer in a rowid table, and as given otherwise |
| Store.IntegerKeyExamples | sql/load_to_sqlite.py:34 | `1.0` and `'1'` become key 1 and `'-12'` key −12; `1.5`, `'x'` and `'-'` cannot be an integer key |
| Store.RealKeyInserted | sql/load_to_sqlite.py:34 | a row keyed `1.0` is stored in an empty `INTEGER PRIMARY KEY` table under the integer key 1 |
| Store.InsertRow | sql/load_to_sqlite.py:100 | a successful insert keeps every earlier row and adds the aligned row, with the rowid key made an integer; a null in a `NOT NULL` column fails |
| Store.InsertRowOutcome | sql/load_to_sqlite.py:100 | an insert succeeds exactly when the row fits (key type, `NOT NULL`) and its key is free; a key the rowid cannot take raises datatype mismatch before the `NOT NULL` check, then a null raises `NOT NULL`, then a taken key raises `UNIQUE`; the stored key is the converted one |
| Store.InsertRowValid | sql/load_to_sqlite.py:32-91 | a successful insert keeps the table rectangular, its `NOT NULL` columns filled and its keys unique |
| Store.InsertRows | sql/load_to_sqlite.py:100 | a successful multi-row insert keeps the earlier rows and adds one row per frame row |
| Store.InsertRowsSpec | sql/load_to_sqlite.py:100 | after a successful multi-row insert the table is still valid and row i holds frame row i |
| Store.InsertRowsRejectsNull | sql/load_to_sqlite.py:81 | any row with a null in a `NOT NULL` column makes the whole insert fail |
| Store.InsertedKey | sql/load_to_sqlite.py:100 | after an insert, a key is held exactly when it was held before or the new row gave it |
| Store.InsertRowsFit | sql/load_to_sqlite.py:100 | when every rowid key is given, a multi-row insert succeeds exactly when every row fits, every key is free and no two rows give the same key |
| Store.InsertRowsTaken | sql/load_to_sqlite.py:100 | a row whose key is already stored makes the whole insert fail |
| Store.InsertRowsDuplicate | sql/load_to_sqlite.py:100 | two rows giving the same key make the whole insert fail |
| Store.AppendTable | sql/load_to_sqlite.py:100 | an append keeps the schema and the earlier rows; a frame without rows leaves the table as it is; a frame with rows and a column unknown to the table raises "no such column", naming the first such column |
| Store.AppendToEmpty | sql/load_to_sqlite.py:100 | after a successful append to an empty table, the table holds exactly the frame's rows |
| Store.AppendTableRejectsNull | sql/load_to_sqlite.py:139 | a null in a `NOT NULL` column makes the append fail |
| Store.AppendFits | sql/load_to_sqlite.py:100 | when every rowid key is given, an append into an empty table succeeds exactly when the frame has no rows or every frame column is a table column, no row breaks the key type or a `NOT NULL` column, and no two rows give the same key |
| Store.DuplicateKeyRejected | sql/load_to_sqlite.py:100 | two frame rows giving the same key, as SQLite stores it, make the whole append fail |
| Store.AppendTo | sql/load_to_sqlite.py:100 | on success only the named table changes; on failure the error is the table's own |
| Store.InsertRowsUnconstrained | sql/load_to_sqlite.py:100 | a table with no key and no `NOT NULL` column accepts any rows |
| Store.Database.constructor | sql/load_to_sqlite.py:14 | the connection sees the tables already in the file |
| Store.Database.DropIfExists | sql/load_to_sqlite.py:25-29 | `DROP TABLE IF EXISTS` removes that table and no other |
| Store.Database.Create | sql/load_to_sqlite.py:32-91 | `CREATE TABLE` adds an empty table, or raises when the name is taken and changes nothing |
| Store.Database.Append | sql/load_to_sqlite.py:100 | an append is all or nothing: either the new table state, or an error with the database unchanged |
| Loader.DateRowQuarter | sql/load_to_sqlite.py:120-124 | key, year and month come from the day; quarter lies in 1..4 and contains the month; the month name is that month's |
| Loader.DateRowWeekday | sql/load_to_sqlite.py:126-128 | `day_of_week` lies in 0..6 with Monday = 0; the day name matches it; `is_weekend` is 0 or 1, and 1 exactly on Saturday and Sunday |
| Loader.WeekendNames | sql/load_to_sqlite.py:127-128 | days 5 and 6 are named Saturday and Sunday, and no others are |
| Loader.DateRowWeek | sql/load_to_sqlite.py:125 | week lies in 1..53 and is the ISO week that contains the day |
| Loader.DateRowKey | sql/load_to_sqlite.py:120 | a date key parses back to its own day |
| Loader.DimensionDay | sql/load_to_sqlite.py:116-118 | row i is for the day `load day − 730 + i` |
| Loader.DateRowsUpTo | sql/load_to_sqlite.py:115-129 | after i passes of the loop the list holds i rows |
| Loader.DateDimension | sql/load_to_sqlite.py:115-129 | the dimension has exactly 730 rows |
| Loader.DateRowsUpToAt | sql/load_to_sqlite.py:115-129 | row i of the list is the row for day i |
| Loader.DateRowsUpToSucc | sql/load_to_sqlite.py:117-119 | each pass appends the row for the next day |
| Loader.DateDimensionAt | sql/load_to_sqlite.py:115-129 | row i is the row computed for `load day − 730 + i` |
| Loader.DateDimensionKeys | sql/load_to_sqlite.py:120 | row i's key is that day's `YYYY-MM-DD` |
| Loader.BuildDateDimension | sql/load_to_sqlite.py:115-129 | the loop builds exactly the 730-row dimension |
| Loader.DateDimensionSpan | sql/load_to_sqlite.py:116-120 | the rows are consecutive days from `load day − 730` to `load day − 1`, in increasing order, with pairwise distinct keys |
| Loader.DateKeyCoverage | sql/load_to_sqlite.py:116-120 | a day's key is in the dimension exactly when the day is one of the 730 days before the load day |
| Loader.DateKeyPresent | sql/load_to_sqlite.py:116-120 | every one of the 730 days before the load has a row |
| Loader.DateKeyInRange | sql/load_to_sqlite.py:116-120 | a day with a row is one of the 730 days before the load |
| Loader.DateFrame | sql/load_to_sqlite.py:131 | `pd.DataFrame(dates)` has the nine date columns and one row per dict |
| Loader.DateCellsKey | sql/load_to_sqlite.py:131-132 | the key cell of a date row is its `date_key` text |
| Loader.DateRowsInsert | sql/load_to_sqlite.py:132 | rows with distinct keys, none already stored, insert without error |
| Loader.DateDimensionFrame | sql/load_to_sqlite.py:131 | the frame has the nine date columns and 730 rows |
| Loader.DateDimensionLoads | sql/load_to_sqlite.py:131-132 | the generated dimension always fits the empty `dim_date` table |
| Loader.DateTableKeys | sql/load_to_sqlite.py:131-132 | once loaded, `dim_date` holds 730 rows whose keys are the 730 days before the load |
| Loader.RenameColumns | sql/load_to_sqlite.py:138 | the rename keeps the number of columns and maps each by the rename rule |
| Loader.RenameFrameSpec | sql/load_to_sqlite.py:138 | `date` → `date_key`, `type` → `transaction_type`, every other column and every row unchanged; neither old name remains |
| Loader.RenamedDateIndex | sql/load_to_sqlite.py:138 | `date_key` ends up exactly where `date` was |
| Loader.ExitCode | sql/load_to_sqlite.py:173 | exit status 0 exactly on a complete load |
| Loader.Recreated | sql/load_to_sqlite.py:25-91 | after the drops and creates the five star tables exist and every other table is untouched |
| Loader.StageFacts | sql/load_to_sqlite.py:136-139 | the fact step changes no table outside the star schema and never reports missing clean data |
| Loader.StageDates | sql/load_to_sqlite.py:131-139 | likewise for the date step and what follows it |
| Loader.StageAccounts | sql/load_to_sqlite.py:108-139 | likewise for the account step and what follows it |
| Loader.StageBranches | sql/load_to_sqlite.py:103-139 | likewise for the branch step and what follows it |
| Loader.LoadInto | sql/load_to_sqlite.py:98-139 | the appends change no table outside the star schema |
| Loader.FactsLoaded | sql/load_to_sqlite.py:136-139 | the fact step completes exactly when the renamed transactions fit the empty fact table, which then holds them |
| Loader.DatesLoaded | sql/load_to_sqlite.py:131-139 | the steps from the dates on complete exactly when dates and facts both fit, and then hold them |
| Loader.AccountsLoaded | sql/load_to_sqlite.py:108-139 | the steps from the accounts on complete exactly when accounts, dates and facts fit, and then hold them |
| Loader.BranchesLoaded | sql/load_to_sqlite.py:103-139 | the steps from the branches on complete exactly when branches, accounts, dates and facts fit, and then hold them |
| Loader.LoadIntoLoaded | sql/load_to_sqlite.py:98-139 | loading into empty tables completes exactly when every file is present and fits; each table then holds its own append |
| Loader.CustomersLoaded | sql/load_to_sqlite.py:99-139 | the steps from the customers on complete exactly when every frame fits its table, and then each star table holds its own append |
| Loader.LoadIntoTables | sql/load_to_sqlite.py:98-139 | after a complete load each star table holds what its own append put into the empty table |
| Loader.LoadedIffFit | sql/load_to_sqlite.py:25-139 | a run completes exactly when every input is present and fits its new empty table |
| Loader.LoadedContents | sql/load_to_sqlite.py:25-139 | a run completes exactly when every input fits. After a run, tables outside the star schema are untouched. After a complete run, each star table holds exactly the rows of this run's frame, whatever it held before |
| Loader.NullDateRejected | sql/load_to_sqlite.py:136-139 | a cleaned transaction whose date is missing makes the run fail, because `date_key` is `NOT NULL` |
| Loader.NullDateKeyRejected | sql/load_to_sqlite.py:81 | a frame row with a null `date_key` makes the fact append fail |
| Loader.MissingCustomers | sql/load_to_sqlite.py:168-175 | without `customers.csv` the run exits with status 1 and touches no table; with it, the five tables are (re)created |
| Loader.MissingBranches | sql/load_to_sqlite.py:104 | only `customers.csv` is checked: a missing `branches.csv` raises after the customers are loaded, leaving the tables in that state |
| Loader.RecreatedForgets | sql/load_to_sqlite.py:25-91 | after the drops and creates, nothing earlier in the star tables is left |
| Loader.LoadTwice | sql/load_to_sqlite.py:25-139 | running the load a second time on the same input gives the same outcome and the same database |
| Loader.RecreateTables | sql/load_to_sqlite.py:25-91 | the five drops and five creates leave the recreated database |
| Loader.LoadDatesAndFacts | sql/load_to_sqlite.py:113-139 | the date-dimension loop and the two appends act as the date and fact steps |
| Loader.LoadStarSchema | sql/load_to_sqlite.py:167-175 | the script, statement by statement, gives the outcome and database of the whole-run description |
| Coverage.GeneratedDateUnchanged | etl/etl_pipeline.py:39-40 | a date the generator wrote comes out of cleaning unchanged |
| Coverage.GeneratedCustomerUnchanged | etl/etl_pipeline.py:33-43 | cleaning keeps every field of a generated customer, whatever the median |
| Coverage.GeneratedAccountTypeUnchanged | etl/etl_pipeline.py:70-75 | a generated account type is already normalised |
| Coverage.GeneratedAccountsUnchanged | etl/etl_pipeline.py:60-82 | cleaning the generated accounts changes no row |
| Coverage.GeneratedTransactionTypeUnchanged | etl/etl_pipeline.py:94-100 | a generated transaction type is already normalised |
| Coverage.GeneratedTransactionUnchanged | etl/etl_pipeline.py:90-117 | cleaning keeps a generated transaction's type, amount and date, and gives it a weekday, a week and the month prefix of its date |
| Coverage.GeneratedRiskFlag | etl/etl_pipeline.py:111 | on generated data the flag marks exactly withdrawals above 500000; deposits and transfers are never flagged |
| Coverage.TransactionDayCovered | etl/generate_mock_data.py:102-103 | the day for `days_ago = k` has a date row exactly when it falls in the 730 days before the load day |
| Coverage.AllTransactionDaysCovered | sql/load_to_sqlite.py:116-120 | every possible transaction day has a date row exactly when the load is 1 to 365 days after generation |
| Coverage.SameDayLoad | etl/generate_mock_data.py:102-103 | when generation and load share a day, only `days_ago = 365` (the load day itself) lacks a date row |
| Coverage.GeneratedTransactionCovered | sql/load_to_sqlite.py:136-139 | a cleaned generated transaction has a `date_key`, and `dim_date` holds it exactly when its day is among the 730 before the load |

## Left out

- CSV reading and writing, `os.makedirs`, and the SQLite connection as a file. The model passes the cleaned files as a map from file name to frame. A missing file is a missing key.
- The read of `01_create_star_schema.sql` (`sql/load_to_sqlite.py:20-21`). Its text is never used.
- The three `CREATE INDEX` statements (`sql/load_to_sqlite.py:144-146`). Indexes do not change table contents.
- The `COUNT(*)` printout (`sql/load_to_sqlite.py:153-156`), every `print`, `commit` and `close`. The model keeps the state after each statement and does not model the file on disk.
- `run_pipeline.py`. It only chains the scripts as subprocesses, so run_pipeline.py is not part of this model.
- `datetime.now()`. It is a parameter (`today`) of the generator and the loader.
- `Loader.LoadStarSchema` and `Loader.LoadDatesAndFacts` require a load day more than 730 days after 0001-01-01. Python would raise on an earlier clock.
- The generator requires a generation day whose five-year window fits pandas' `Timestamp` range.
- The random generator and Faker are oracles: a stream of raw draws and a cursor.
  - `randint(lo, hi)` is `lo + draw mod (hi − lo + 1)`, and `choice(xs)` is `xs[draw mod |xs|]`. This is not the Mersenne Twister and not Python's rejection sampling. Every value the real call can return is still reachable.
  - Faker's name lists are parameters.
  - `date_between` is a day in the window, not Faker's internal algorithm.
  - `'-5y'` and `'-4y'` are fixed windows of 1827 and 1461 days.
- pandas `to_datetime` format inference. Only exactly `YYYY-MM-DD` text that names a real day inside the `Timestamp` range (1677-09-22 to 2262-04-11) parses. Everything else becomes missing.
- `str.lower` is modelled for ASCII letters only. Other Unicode case mappings are not modelled.
- Month and day names are a fixed English table, not `strftime` under a locale.
- Amounts are exact integers, and ages and the median are exact reals. Floating-point rounding is not modelled.
- SQLite type affinity is modelled only for an `INTEGER PRIMARY KEY`, and there only for integers, whole-number reals and text of an optional sign and decimal digits. Text with spaces, a decimal point or an exponent (`' 7'`, `'7.0'`, `'7e0'`) is a datatype mismatch in the model, although SQLite converts it. Every other column stores a value as given, where SQLite would convert it by the column's affinity. For the `TEXT PRIMARY KEY` of `dim_date` this means a number and the text that spells it (`5`, `'5'`) are different keys in the model but the same key in SQLite.
- Foreign-key enforcement (off by default in SQLite) and rowid overflow (64-bit keys) are not modelled.
- Store.InsertRowsFit: characterises success only for frames whose every rowid key is given. With a null key the row's number depends on the rows stored before it, so a later row may collide with it; `Store.InsertRowValid` still holds for such inserts.
- Store.AppendFits: likewise only for frames whose every rowid key is given.
- Store.AppendTable: SQLite matches column names without regard to ASCII case, so a frame column `Name` fills the table column `name`. The model compares names exactly and raises "no such column" for it.
- A frame with duplicate column names is not modelled. `Store.IndexOf` takes the first match.
- `LoadSpec` takes the date frame as a parameter. `Loader.LoadStarSchema` connects it to the generated dimension.
