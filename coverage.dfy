/**
 * Facts that span the three scripts: what cleaning does to rows the
 * generator wrote, and which generated transaction dates find a row in the
 * date dimension the loader builds.
 *
 * The generator dates a transaction `days_ago` (0..365) days after the day a
 * year before the generation day, so its dates run up to and including the
 * generation day itself. The loader's date dimension holds the 730 days that
 * end the day *before* the load day. A transaction generated and loaded on
 * the same day with `days_ago = 365` therefore has a `date_key` that no row of
 * `dim_date` holds; since SQLite does not enforce the foreign key, the fact
 * row is stored anyway.
 */
module Coverage {
  import opened Wrappers
  import opened Text
  import opened Calendar
  import opened DateFormat
  import opened Cleaning
  import opened Randomness
  import opened Generator
  import opened Loader

  // ---------------------------------------------------------------- cleaning generated rows

  /** A date the generator wrote is already in the form cleaning writes. */
  lemma GeneratedDateUnchanged(text: Option<string>, today: Date, days: nat)
    requires Valid(today) && DatedWithin(text, today, days)
    ensures CleanDateText(text) == text
  {
    CleanDateTextCanonical(text);
  }

  /**
   * Cleaning leaves a generated customer as it was: every field is present,
   * the age is already within 18..100 and the join date is already
   * `YYYY-MM-DD`, whatever the median of the column.
   */
  lemma GeneratedCustomerUnchanged(c: RawCustomer, id: int, fake: Faker, today: Date, median: Option<real>)
    requires Valid(today) && GeneratedCustomer(c, id, fake, today)
    ensures CleanCustomer(c, median) ==
      Customer(c.customerId, c.name.value, c.gender.value, c.age, c.city.value, c.joinDate)
  {
    GeneratedDateUnchanged(c.joinDate, today, JoinWindowDays);
  }

  /** A generated account type is already a lower-case, normalised value. */
  lemma GeneratedAccountTypeUnchanged(kind: string)
    requires kind in AccountTypes
    ensures NormalizeAccountType(Some(kind)) == kind
  {
    assert forall i :: 0 <= i < |"savings"| ==> !IsUpper("savings"[i]);
    assert forall i :: 0 <= i < |"current"| ==> !IsUpper("current"[i]);
    LowerOfLower(kind);
  }

  /** Cleaning the generated accounts table changes no row. */
  lemma GeneratedAccountsUnchanged(t: Table<RawAccount>, n: nat, nCustomers: nat, today: Date)
    requires Valid(today) && AccountsGenerated(t.rows, n, nCustomers, today)
    requires CleanAccounts(t).Success?
    ensures forall i :: 0 <= i < |t.rows| ==>
      var raw := t.rows[i];
      CleanAccounts(t).value.rows[i] ==
        Account(raw.accountId, raw.customerId, raw.branchId.value, raw.accountType.value, raw.openDate)
  {
    forall i | 0 <= i < |t.rows|
      ensures NormalizeAccountType(t.rows[i].accountType) == t.rows[i].accountType.value
      ensures CleanDateText(t.rows[i].openDate) == t.rows[i].openDate
    {
      assert GeneratedAccount(t.rows[i], i + 1, nCustomers, today);
      GeneratedAccountTypeUnchanged(t.rows[i].accountType.value);
      GeneratedDateUnchanged(t.rows[i].openDate, today, OpenWindowDays);
    }
  }

  /** A generated transaction type is already a lower-case, normalised value. */
  lemma GeneratedTransactionTypeUnchanged(kind: string)
    requires kind in TransactionTypes
    ensures NormalizeTransactionType(Some(kind)) == kind
  {
    assert forall i :: 0 <= i < |"deposit"| ==> !IsUpper("deposit"[i]);
    assert forall i :: 0 <= i < |"withdrawal"| ==> !IsUpper("withdrawal"[i]);
    assert forall i :: 0 <= i < |"transfer"| ==> !IsUpper("transfer"[i]);
    LowerOfLower(kind);
  }

  /**
   * Cleaning keeps a generated transaction's type, amount and date as they
   * were and gives it a weekday and an ISO week, since its date parses.
   */
  lemma GeneratedTransactionUnchanged(t: RawTransaction, id: int, nAccounts: nat, today: Date)
    requires Valid(today) && GeneratedTransaction(t, id, nAccounts, today)
    ensures CleanTransaction(t).transactionType == t.transactionType.value
    ensures CleanTransaction(t).amount == t.amount.value
    ensures CleanTransaction(t).date == t.date
    ensures CleanTransaction(t).dayOfWeek.Some? && CleanTransaction(t).week.Some?
    ensures CleanTransaction(t).transactionMonth == t.date.value[..7]
  {
    CleanTransactionSpec(t);
    GeneratedTransactionTypeUnchanged(t.transactionType.value);
    GeneratedDateUnchanged(t.date, today, TransactionWindowDays);
  }

  /**
   * On generated data the risk flag marks exactly the withdrawals above
   * MWK 500,000: deposits and transfers, whatever their amount, never.
   */
  lemma GeneratedRiskFlag(t: RawTransaction, id: int, nAccounts: nat, today: Date)
    requires Valid(today) && GeneratedTransaction(t, id, nAccounts, today)
    ensures CleanTransaction(t).riskFlag == 1 <==>
      t.transactionType.value == "withdrawal" && t.amount.value > RiskThreshold
    ensures t.transactionType.value != "withdrawal" ==> CleanTransaction(t).riskFlag == 0
  {
    CleanTransactionSpec(t);
    GeneratedTransactionUnchanged(t, id, nAccounts, today);
  }

  // ---------------------------------------------------------------- date-key coverage

  /**
   * A transaction generated on `gen` with `days_ago = k` finds its day in the
   * date dimension loaded on `load` exactly when that day is among the 730
   * days before `load`.
   */
  lemma TransactionDayCovered(gen: Date, load: Date, k: nat)
    requires GenerationDay(gen) && LoadDay(load) && k <= TransactionWindowDays
    ensures HasDateKey(load, FormatDate(TransactionDay(gen, k))) <==>
      Ordinal(load) - 730 <= Ordinal(gen) - TransactionWindowDays + k < Ordinal(load)
  {
    DateKeyCoverage(load, TransactionDay(gen, k));
  }

  /**
   * Every possible transaction day has a date row exactly when the load
   * happens after the generation day and at most 365 days after it.
   */
  lemma {:induction false} AllTransactionDaysCovered(gen: Date, load: Date)
    requires GenerationDay(gen) && LoadDay(load)
    ensures (forall k :: 0 <= k <= TransactionWindowDays ==> HasDateKey(load, FormatDate(TransactionDay(gen, k))))
      <==> Ordinal(gen) < Ordinal(load) <= Ordinal(gen) + TransactionWindowDays
  {
    if Ordinal(gen) < Ordinal(load) <= Ordinal(gen) + TransactionWindowDays {
      forall k | 0 <= k <= TransactionWindowDays
        ensures HasDateKey(load, FormatDate(TransactionDay(gen, k)))
      {
        TransactionDayCovered(gen, load, k);
      }
    } else {
      TransactionDayCovered(gen, load, 0);
      TransactionDayCovered(gen, load, TransactionWindowDays);
    }
  }

  /**
   * When generation and load happen on the same day, the transactions dated
   * that day (`days_ago = 365`) are the only ones without a date row.
   */
  lemma SameDayLoad(today: Date, k: nat)
    requires GenerationDay(today) && k <= TransactionWindowDays
    ensures LoadDay(today)
    ensures HasDateKey(today, FormatDate(TransactionDay(today, k))) <==> k < TransactionWindowDays
  {
    assert Ordinal(TimestampMin) > 0 by {
      OrdinalBounds(TimestampMin);
    }
    TransactionDayCovered(today, today, k);
  }

  /**
   * A generated transaction, once cleaned, carries a date key; the date
   * dimension loaded on `load` holds it exactly when the transaction's day
   * lies in the 730 days before `load`.
   */
  lemma GeneratedTransactionCovered(t: RawTransaction, id: int, nAccounts: nat, gen: Date, load: Date)
    requires GenerationDay(gen) && LoadDay(load) && GeneratedTransaction(t, id, nAccounts, gen)
    ensures CleanTransaction(t).date.Some?
    ensures var d := ParseDate(t.date.value).value;
      HasDateKey(load, CleanTransaction(t).date.value) <==> Ordinal(load) - 730 <= Ordinal(d) < Ordinal(load)
  {
    GeneratedTransactionUnchanged(t, id, nAccounts, gen);
    var d := ParseDate(t.date.value).value;
    FormatParseDate(t.date.value);
    DateKeyCoverage(load, d);
  }
}
