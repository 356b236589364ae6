/**
 * The slice of SQLite that sql/load_to_sqlite.py relies on, with pandas'
 * `DataFrame.to_sql(..., if_exists='append', index=False)` on top: a
 * database is a map from table name to table; a table has a declared
 * schema (its columns, an optional primary key, its NOT NULL columns) and a
 * sequence of rows in the schema's column order.
 */
module Store {
  import opened Wrappers
  import opened Text
  import opened DateFormat

  /** One SQLite value. */
  datatype Cell = Null | Int(i: int) | Real(r: real) | Text(s: string)

  /** A DataFrame as `read_csv` returns it: a header and rows of cells. */
  datatype Frame = Frame(columns: seq<string>, rows: seq<seq<Cell>>)

  /**
   * A declared table. `integerKey` says the key is an `INTEGER PRIMARY KEY`
   * (an alias of the rowid); any other primary key is an ordinary unique column.
   */
  datatype Schema = Schema(columns: seq<string>, key: Option<string>, integerKey: bool, notNull: set<string>)

  datatype Table = Table(schema: Schema, rows: seq<seq<Cell>>)

  datatype SqlError =
    | NoSuchColumn(table: string, column: string)   // OperationalError: table has no column named ...
    | NotNullFailed(column: string)                 // IntegrityError: NOT NULL constraint failed
    | UniqueFailed(column: string)                  // IntegrityError: UNIQUE constraint failed
    | DatatypeMismatch(column: string)              // IntegrityError: datatype mismatch
    | TableExists(table: string)                    // OperationalError: table ... already exists

  /** Cell `j` of a row; a row too short to have it reads as NULL. */
  function CellAt(row: seq<Cell>, j: int): Cell {
    if 0 <= j < |row| then row[j] else Null
  }

  /** Position of the first column named `c`, or -1. */
  function IndexOf(columns: seq<string>, c: string): (r: int)
    ensures -1 <= r < |columns|
    ensures r == -1 <==> c !in columns
    ensures r >= 0 ==> columns[r] == c && c !in columns[..r]
  {
    if columns == [] then -1
    else if columns[0] == c then 0
    else
      var k := IndexOf(columns[1..], c);
      assert columns[1..][..if k < 0 then 0 else k] == columns[1..if k < 0 then 1 else k + 1];
      if k == -1 then -1 else k + 1
  }

  /** Position of the primary-key column, or -1 when there is none. */
  function KeyIndex(s: Schema): (r: int)
    ensures -1 <= r < |s.columns|
    ensures r >= 0 <==> s.key.Some? && s.key.value in s.columns
    ensures r >= 0 ==> s.columns[r] == s.key.value
  {
    if s.key.Some? then IndexOf(s.columns, s.key.value) else -1
  }

  /** An `INSERT INTO t (frame columns) VALUES (...)` row in the table's column order; a column the frame lacks is NULL. */
  function Align(tableColumns: seq<string>, frameColumns: seq<string>, row: seq<Cell>): (r: seq<Cell>)
    ensures |r| == |tableColumns|
    ensures forall k :: 0 <= k < |tableColumns| ==>
      r[k] == CellAt(row, IndexOf(frameColumns, tableColumns[k]))
  {
    seq(|tableColumns|, k requires 0 <= k < |tableColumns| => CellAt(row, IndexOf(frameColumns, tableColumns[k])))
  }

  /** The first NOT NULL column, from position `k` on, that holds NULL. */
  function NullViolationFrom(s: Schema, cells: seq<Cell>, k: nat): (r: Option<string>)
    requires k <= |s.columns|
    ensures r.None? <==> forall j :: k <= j < |s.columns| && s.columns[j] in s.notNull ==> CellAt(cells, j) != Null
    ensures r.Some? ==> r.value in s.notNull
    decreases |s.columns| - k
  {
    if k == |s.columns| then None
    else if s.columns[k] in s.notNull && CellAt(cells, k) == Null then Some(s.columns[k])
    else NullViolationFrom(s, cells, k + 1)
  }

  /** Some stored row already holds `v` in column `kk`. */
  predicate KeyTaken(rows: seq<seq<Cell>>, kk: int, v: Cell) {
    exists i :: 0 <= i < |rows| && CellAt(rows[i], kk) == v
  }

  /** The largest integer held in column `kk`, if any row holds one. */
  function MaxKey(rows: seq<seq<Cell>>, kk: int): (r: Option<int>)
    ensures r.None? <==> forall i :: 0 <= i < |rows| ==> !CellAt(rows[i], kk).Int?
    ensures r.Some? ==> forall i :: 0 <= i < |rows| && CellAt(rows[i], kk).Int? ==> CellAt(rows[i], kk).i <= r.value
    ensures r.Some? ==> KeyTaken(rows, kk, Int(r.value))
  {
    if rows == [] then None
    else
      var rest := MaxKey(rows[1..], kk);
      assert forall i :: 1 <= i < |rows| ==> rows[i] == rows[1..][i - 1];
      var here := CellAt(rows[0], kk);
      if !here.Int? then rest
      else if rest.None? || rest.value < here.i then Some(here.i)
      else rest
  }

  /** The rowid SQLite gives a row inserted with a NULL `INTEGER PRIMARY KEY`: one more than the largest in use, or 1. */
  function NextRowid(rows: seq<seq<Cell>>, kk: int): (r: int)
    ensures forall i :: 0 <= i < |rows| && CellAt(rows[i], kk).Int? ==> CellAt(rows[i], kk).i < r
    ensures r == 1 || KeyTaken(rows, kk, Int(r - 1))
    ensures (forall i :: 0 <= i < |rows| ==> !CellAt(rows[i], kk).Int?) ==> r == 1
    ensures !KeyTaken(rows, kk, Int(r))
  {
    var m := MaxKey(rows, kk);
    if m.None? then 1 else m.value + 1
  }

  /** Every stored row has one cell per declared column. */
  predicate Rectangular(t: Table) {
    forall i :: 0 <= i < |t.rows| ==> |t.rows[i]| == |t.schema.columns|
  }

  /** No NOT NULL column of any stored row holds NULL. */
  predicate NotNullHolds(t: Table) {
    forall i, k :: 0 <= i < |t.rows| && 0 <= k < |t.schema.columns| && t.schema.columns[k] in t.schema.notNull ==>
      CellAt(t.rows[i], k) != Null
  }

  /** The non-NULL values of the primary key are pairwise distinct. */
  predicate KeysUnique(t: Table) {
    var kk := KeyIndex(t.schema);
    forall i, j :: 0 <= i < j < |t.rows| && CellAt(t.rows[i], kk) != Null ==>
      CellAt(t.rows[i], kk) != CellAt(t.rows[j], kk)
  }

  /** What SQLite guarantees about a table's contents. */
  predicate ValidTable(t: Table) {
    Rectangular(t) && NotNullHolds(t) && KeysUnique(t)
  }

  /** Text SQLite reads as an integer: an optional sign, then one or more decimal digits. */
  predicate IntegerText(t: string) {
    if |t| > 0 && (t[0] == '-' || t[0] == '+') then |t| > 1 && AllDigits(t[1..]) else |t| > 0 && AllDigits(t)
  }

  /**
   * The integer an `INTEGER PRIMARY KEY` takes for a given value: an integer
   * as it is, a real with no fractional part, or text that reads as an
   * integer; anything else is a datatype mismatch.
   */
  function IntegerKeyValue(c: Cell): (r: Option<int>)
    ensures c.Null? ==> r.None?
    ensures c.Int? ==> r == Some(c.i)
    ensures c.Real? ==> (r.Some? <==> c.r == c.r.Floor as real)
    ensures c.Real? && r.Some? ==> r.value as real == c.r
    ensures c.Text? ==> (r.Some? <==> IntegerText(c.s))
    ensures c.Text? && r.Some? && AllDigits(c.s) ==> r.value == Number(c.s)
    ensures c.Text? && r.Some? && c.s[0] == '-' ==> r.value == -(Number(c.s[1..]) as int)
    ensures c.Text? && r.Some? && c.s[0] == '+' ==> r.value == Number(c.s[1..])
  {
    match c
    case Null => None
    case Int(i) => Some(i)
    case Real(x) => if x == x.Floor as real then Some(x.Floor) else None
    case Text(t) =>
      if !IntegerText(t) then None
      else if t[0] == '-' then Some(-(Number(t[1..]) as int))
      else if t[0] == '+' then Some(Number(t[1..]))
      else Some(Number(t))
  }

  /** A whole-number real and integer text become integer keys; a fraction or a word does not. */
  lemma IntegerKeyExamples()
    ensures IntegerKeyValue(Real(1.0)) == Some(1)
    ensures IntegerKeyValue(Text("1")) == Some(1)
    ensures IntegerKeyValue(Text("-12")) == Some(-12)
    ensures IntegerKeyValue(Real(1.5)).None? && IntegerKeyValue(Text("x")).None? && IntegerKeyValue(Text("-")).None?
  {
    assert "-12"[1..] == "12" && "12"[..1] == "1";
  }

  /** A frame row keyed `1.0` goes into an empty `INTEGER PRIMARY KEY` table under key 1. */
  lemma RealKeyInserted()
    ensures InsertRow(Table(Schema(["id"], Some("id"), true, {}), []), ["id"], [Real(1.0)])
      == Success(Table(Schema(["id"], Some("id"), true, {}), [[Int(1)]]))
  {
    var s := Schema(["id"], Some("id"), true, {});
    assert IndexOf(["id"], "id") == 0;
    var cells := Align(s.columns, ["id"], [Real(1.0)]);
    assert cells == [Real(1.0)];
    assert KeyIndex(s) == 0 && IntegerKeyValue(Real(1.0)) == Some(1);
    assert !KeyMismatch(s, cells) && NullViolationFrom(s, cells, 0).None?;
    assert !KeyTaken([], 0, Int(1));
    assert cells[0 := Int(1)] == [Int(1)];
    var none: seq<seq<Cell>> := [];
    assert none + [[Int(1)]] == [[Int(1)]];
  }

  /** A given key an `INTEGER PRIMARY KEY` cannot take. */
  predicate KeyMismatch(s: Schema, cells: seq<Cell>) {
    s.integerKey && CellAt(cells, KeyIndex(s)) != Null && IntegerKeyValue(CellAt(cells, KeyIndex(s))).None?
  }

  /** The key a row with a given (non-NULL) key is stored under. */
  function StoredKey(s: Schema, cells: seq<Cell>): (r: Cell)
    ensures r != Null <==> CellAt(cells, KeyIndex(s)) != Null
    ensures s.integerKey && !KeyMismatch(s, cells) && CellAt(cells, KeyIndex(s)) != Null ==> r.Int?
    ensures !s.integerKey ==> r == CellAt(cells, KeyIndex(s))
  {
    var v := CellAt(cells, KeyIndex(s));
    if s.integerKey && IntegerKeyValue(v).Some? then Int(IntegerKeyValue(v).value) else v
  }

  /** A row that breaks no rule of the table on its own: its key type and its NOT NULL columns. */
  predicate RowFits(s: Schema, cells: seq<Cell>) {
    !KeyMismatch(s, cells) && NullViolationFrom(s, cells, 0).None?
  }

  /** The row's given key, if any, is not held by a stored row. */
  predicate KeyFree(t: Table, cells: seq<Cell>) {
    CellAt(cells, KeyIndex(t.schema)) != Null ==> !KeyTaken(t.rows, KeyIndex(t.schema), StoredKey(t.schema, cells))
  }

  /**
   * The row stored for `given`: the same cells, except that an `INTEGER
   * PRIMARY KEY` holds an integer, the new rowid for a NULL key and the
   * integer the given key reads as otherwise.
   */
  predicate StoredAs(stored: seq<Cell>, given: seq<Cell>, s: Schema) {
    && |stored| == |given|
    && forall k :: 0 <= k < |given| ==>
         if k == KeyIndex(s) && s.integerKey then
           stored[k].Int? && (given[k] == Null || IntegerKeyValue(given[k]) == Some(stored[k].i))
         else stored[k] == given[k]
  }

  /**
   * One `INSERT` of a frame row into `t`. The key of a rowid table is made an
   * integer first (a datatype mismatch when it cannot be), then the NOT NULL
   * columns are checked, then the key must be new.
   */
  function InsertRow(t: Table, frameColumns: seq<string>, row: seq<Cell>): (r: Result<Table, SqlError>)
    ensures r.Success? ==> r.value.schema == t.schema && |r.value.rows| == |t.rows| + 1
    ensures r.Success? ==> r.value.rows[..|t.rows|] == t.rows
    ensures r.Success? ==> StoredAs(r.value.rows[|t.rows|], Align(t.schema.columns, frameColumns, row), t.schema)
    ensures NullViolationFrom(t.schema, Align(t.schema.columns, frameColumns, row), 0).Some? ==> r.Failure?
  {
    var cells := Align(t.schema.columns, frameColumns, row);
    var kk := KeyIndex(t.schema);
    if KeyMismatch(t.schema, cells) then Failure(DatatypeMismatch(t.schema.columns[kk]))
    else
      match NullViolationFrom(t.schema, cells, 0)
      case Some(c) => Failure(NotNullFailed(c))
      case None =>
        if kk < 0 then Success(Table(t.schema, t.rows + [cells]))
        else if !t.schema.integerKey then
          if cells[kk] != Null && KeyTaken(t.rows, kk, cells[kk]) then Failure(UniqueFailed(t.schema.columns[kk]))
          else Success(Table(t.schema, t.rows + [cells]))
        else if cells[kk].Null? then
          Success(Table(t.schema, t.rows + [cells[kk := Int(NextRowid(t.rows, kk))]]))
        else
          var v := Int(IntegerKeyValue(cells[kk]).value);
          if KeyTaken(t.rows, kk, v) then Failure(UniqueFailed(t.schema.columns[kk]))
          else Success(Table(t.schema, t.rows + [cells[kk := v]]))
  }

  /**
   * When one insert succeeds and what it raises otherwise: a key the rowid
   * cannot take is a datatype mismatch, checked first; then a NULL in a NOT
   * NULL column; then a key already held. A given key is stored as
   * `StoredKey` says.
   */
  lemma InsertRowOutcome(t: Table, frameColumns: seq<string>, row: seq<Cell>)
    ensures var (r, cells) := (InsertRow(t, frameColumns, row), Align(t.schema.columns, frameColumns, row));
      r.Success? <==> RowFits(t.schema, cells) && KeyFree(t, cells)
    ensures var (r, cells) := (InsertRow(t, frameColumns, row), Align(t.schema.columns, frameColumns, row));
      r.Success? && CellAt(cells, KeyIndex(t.schema)) != Null ==>
        CellAt(r.value.rows[|t.rows|], KeyIndex(t.schema)) == StoredKey(t.schema, cells)
    ensures var (r, cells) := (InsertRow(t, frameColumns, row), Align(t.schema.columns, frameColumns, row));
      KeyMismatch(t.schema, cells) ==> r == Failure(DatatypeMismatch(t.schema.columns[KeyIndex(t.schema)]))
    ensures var (r, cells) := (InsertRow(t, frameColumns, row), Align(t.schema.columns, frameColumns, row));
      !KeyMismatch(t.schema, cells) && NullViolationFrom(t.schema, cells, 0).Some? ==>
        r == Failure(NotNullFailed(NullViolationFrom(t.schema, cells, 0).value))
    ensures var (r, cells) := (InsertRow(t, frameColumns, row), Align(t.schema.columns, frameColumns, row));
      RowFits(t.schema, cells) && !KeyFree(t, cells) ==> r == Failure(UniqueFailed(t.schema.columns[KeyIndex(t.schema)]))
  {
  }

  /** An insert keeps every guarantee of a valid table. */
  lemma InsertRowValid(t: Table, frameColumns: seq<string>, row: seq<Cell>)
    requires ValidTable(t) && InsertRow(t, frameColumns, row).Success?
    ensures ValidTable(InsertRow(t, frameColumns, row).value)
  {
    var r := InsertRow(t, frameColumns, row).value;
    var cells := Align(t.schema.columns, frameColumns, row);
    var kk := KeyIndex(t.schema);
    var n := |t.rows|;
    assert forall i :: 0 <= i < n ==> r.rows[i] == t.rows[i];
    assert NotNullHolds(r) by {
      forall i, k | 0 <= i < |r.rows| && 0 <= k < |r.schema.columns| && r.schema.columns[k] in r.schema.notNull
        ensures CellAt(r.rows[i], k) != Null
      {
        if i == n {
          assert NullViolationFrom(t.schema, cells, 0).None?;
          assert CellAt(cells, k) != Null;
        }
      }
    }
    assert KeysUnique(r) by {
      forall i, j | 0 <= i < j < |r.rows| && CellAt(r.rows[i], kk) != Null
        ensures CellAt(r.rows[i], kk) != CellAt(r.rows[j], kk)
      {
        if j == n {
          assert CellAt(t.rows[i], kk) == CellAt(r.rows[i], kk);
          if kk >= 0 && t.schema.integerKey && cells[kk].Null? {
            assert r.rows[n] == cells[kk := Int(NextRowid(t.rows, kk))];
          } else {
            InsertRowOutcome(t, frameColumns, row);
          }
        }
      }
    }
  }

  /** `to_sql` of all frame rows into an existing table: the rows one by one, all or nothing. */
  function InsertRows(t: Table, frameColumns: seq<string>, rows: seq<seq<Cell>>): (r: Result<Table, SqlError>)
    ensures r.Success? ==> r.value.schema == t.schema && |r.value.rows| == |t.rows| + |rows|
    ensures r.Success? ==> r.value.rows[..|t.rows|] == t.rows
    decreases |rows|
  {
    if rows == [] then Success(t)
    else
      match InsertRow(t, frameColumns, rows[0])
      case Failure(e) => Failure(e)
      case Success(t1) =>
        var r := InsertRows(t1, frameColumns, rows[1..]);
        assert r.Success? ==> r.value.rows[..|t.rows|] == r.value.rows[..|t1.rows|][..|t.rows|];
        r
  }

  /**
   * What a successful `to_sql` leaves: the old rows, then each frame row
   * stored as given, and a table as valid as before.
   */
  lemma {:induction false} InsertRowsSpec(t: Table, frameColumns: seq<string>, rows: seq<seq<Cell>>)
    requires ValidTable(t) && InsertRows(t, frameColumns, rows).Success?
    ensures var r := InsertRows(t, frameColumns, rows).value;
      && ValidTable(r)
      && forall i :: 0 <= i < |rows| ==>
           StoredAs(r.rows[|t.rows| + i], Align(t.schema.columns, frameColumns, rows[i]), t.schema)
    decreases |rows|
  {
    if rows != [] {
      var t1 := InsertRow(t, frameColumns, rows[0]).value;
      InsertRowValid(t, frameColumns, rows[0]);
      InsertRowsSpec(t1, frameColumns, rows[1..]);
      var r := InsertRows(t, frameColumns, rows).value;
      assert r == InsertRows(t1, frameColumns, rows[1..]).value;
      assert r.rows[..|t1.rows|] == t1.rows;
      assert r.rows[|t.rows|] == t1.rows[|t.rows|];
      forall i | 1 <= i < |rows|
        ensures StoredAs(r.rows[|t.rows| + i], Align(t.schema.columns, frameColumns, rows[i]), t.schema)
      {
        assert rows[i] == rows[1..][i - 1];
        assert |t.rows| + i == |t1.rows| + (i - 1);
      }
    }
  }

  /** A frame row with NULL in a NOT NULL column makes the whole append fail. */
  lemma {:induction false} InsertRowsRejectsNull(t: Table, frameColumns: seq<string>, rows: seq<seq<Cell>>, i: nat)
    requires i < |rows|
    requires NullViolationFrom(t.schema, Align(t.schema.columns, frameColumns, rows[i]), 0).Some?
    ensures InsertRows(t, frameColumns, rows).Failure?
    decreases |rows|
  {
    if i > 0 {
      match InsertRow(t, frameColumns, rows[0])
      case Failure(_) =>
      case Success(t1) =>
        assert rows[1..][i - 1] == rows[i];
        InsertRowsRejectsNull(t1, frameColumns, rows[1..], i - 1);
    }
  }

  /** A row appended to stored rows holds a key exactly when the old rows or the new row holds it. */
  lemma KeyTakenAppend(rows: seq<seq<Cell>>, row: seq<Cell>, kk: int, v: Cell)
    ensures KeyTaken(rows + [row], kk, v) <==> KeyTaken(rows, kk, v) || CellAt(row, kk) == v
  {
    if KeyTaken(rows, kk, v) {
      var i :| 0 <= i < |rows| && CellAt(rows[i], kk) == v;
      assert (rows + [row])[i] == rows[i];
    }
    assert (rows + [row])[|rows|] == row;
  }

  /** The given keys of the frame rows are pairwise distinct, as SQLite stores them. */
  predicate DistinctKeys(s: Schema, frameColumns: seq<string>, rows: seq<seq<Cell>>) {
    forall i, j :: 0 <= i < j < |rows| && CellAt(Align(s.columns, frameColumns, rows[i]), KeyIndex(s)) != Null ==>
      StoredKey(s, Align(s.columns, frameColumns, rows[i])) != StoredKey(s, Align(s.columns, frameColumns, rows[j]))
  }

  /** Every frame row fits the table on its own and finds its key free, and no two rows give the same key. */
  predicate RowsFit(t: Table, frameColumns: seq<string>, rows: seq<seq<Cell>>) {
    && (forall i :: 0 <= i < |rows| ==>
          RowFits(t.schema, Align(t.schema.columns, frameColumns, rows[i]))
          && KeyFree(t, Align(t.schema.columns, frameColumns, rows[i])))
    && DistinctKeys(t.schema, frameColumns, rows)
  }

  /** No row of a rowid table leaves its key to SQLite to number. */
  predicate KeysGiven(s: Schema, frameColumns: seq<string>, rows: seq<seq<Cell>>) {
    s.integerKey && KeyIndex(s) >= 0 ==>
      forall i :: 0 <= i < |rows| ==> CellAt(Align(s.columns, frameColumns, rows[i]), KeyIndex(s)) != Null
  }

  /** After a row goes in, a given key is held exactly when it was held before or the new row gave it. */
  lemma InsertedKey(t: Table, frameColumns: seq<string>, row: seq<Cell>, c: seq<Cell>)
    requires InsertRow(t, frameColumns, row).Success?
    requires t.schema.integerKey ==> CellAt(Align(t.schema.columns, frameColumns, row), KeyIndex(t.schema)) != Null
    requires CellAt(c, KeyIndex(t.schema)) != Null
    ensures var c0 := Align(t.schema.columns, frameColumns, row);
      KeyTaken(InsertRow(t, frameColumns, row).value.rows, KeyIndex(t.schema), StoredKey(t.schema, c)) <==>
        || KeyTaken(t.rows, KeyIndex(t.schema), StoredKey(t.schema, c))
        || (CellAt(c0, KeyIndex(t.schema)) != Null && StoredKey(t.schema, c0) == StoredKey(t.schema, c))
  {
    var t1 := InsertRow(t, frameColumns, row).value;
    InsertRowOutcome(t, frameColumns, row);
    assert t1.rows == t.rows + [t1.rows[|t.rows|]];
    KeyTakenAppend(t.rows, t1.rows[|t.rows|], KeyIndex(t.schema), StoredKey(t.schema, c));
  }

  /** Once the first row is in, the rest fit the new table when all the rows fit the old one. */
  lemma InsertRowsFitStep(t: Table, frameColumns: seq<string>, rows: seq<seq<Cell>>)
    requires rows != [] && InsertRow(t, frameColumns, rows[0]).Success?
    requires KeysGiven(t.schema, frameColumns, rows)
    requires RowsFit(t, frameColumns, rows)
    ensures RowsFit(InsertRow(t, frameColumns, rows[0]).value, frameColumns, rows[1..])
  {
    var s := t.schema;
    var t1 := InsertRow(t, frameColumns, rows[0]).value;
    var rest := rows[1..];
    forall i | 0 <= i < |rest|
      ensures KeyFree(t1, Align(s.columns, frameColumns, rest[i]))
    {
      assert rest[i] == rows[i + 1];
      var c := Align(s.columns, frameColumns, rest[i]);
      if CellAt(c, KeyIndex(s)) != Null {
        InsertedKey(t, frameColumns, rows[0], c);
      }
    }
    forall i, j | 0 <= i < j < |rest| && CellAt(Align(s.columns, frameColumns, rest[i]), KeyIndex(s)) != Null
      ensures StoredKey(s, Align(s.columns, frameColumns, rest[i])) != StoredKey(s, Align(s.columns, frameColumns, rest[j]))
    {
      assert rest[i] == rows[i + 1] && rest[j] == rows[j + 1];
    }
  }

  /** Once the first row is in, all the rows fit the old table when the rest fit the new one. */
  lemma InsertRowsFitBack(t: Table, frameColumns: seq<string>, rows: seq<seq<Cell>>)
    requires rows != [] && InsertRow(t, frameColumns, rows[0]).Success?
    requires KeysGiven(t.schema, frameColumns, rows)
    requires RowsFit(InsertRow(t, frameColumns, rows[0]).value, frameColumns, rows[1..])
    ensures RowsFit(t, frameColumns, rows)
  {
    var s := t.schema;
    var t1 := InsertRow(t, frameColumns, rows[0]).value;
    var rest := rows[1..];
    forall i | 1 <= i < |rows|
      ensures RowFits(s, Align(s.columns, frameColumns, rows[i])) && KeyFree(t, Align(s.columns, frameColumns, rows[i]))
    {
      assert rest[i - 1] == rows[i];
      var c := Align(s.columns, frameColumns, rows[i]);
      if CellAt(c, KeyIndex(s)) != Null {
        InsertedKey(t, frameColumns, rows[0], c);
      }
    }
    forall i, j | 0 <= i < j < |rows| && CellAt(Align(s.columns, frameColumns, rows[i]), KeyIndex(s)) != Null
      ensures StoredKey(s, Align(s.columns, frameColumns, rows[i])) != StoredKey(s, Align(s.columns, frameColumns, rows[j]))
    {
      assert rest[j - 1] == rows[j];
      var c := Align(s.columns, frameColumns, rows[j]);
      if i > 0 {
        assert rest[i - 1] == rows[i];
      } else if CellAt(c, KeyIndex(s)) != Null {
        InsertedKey(t, frameColumns, rows[0], c);
      }
    }
  }

  /** When every key is given, the rows go in exactly when each fits, each key is free and no two rows share a key. */
  lemma {:induction false} InsertRowsFit(t: Table, frameColumns: seq<string>, rows: seq<seq<Cell>>)
    requires KeysGiven(t.schema, frameColumns, rows)
    ensures InsertRows(t, frameColumns, rows).Success? <==> RowsFit(t, frameColumns, rows)
    decreases |rows|
  {
    if rows != [] {
      var c0 := Align(t.schema.columns, frameColumns, rows[0]);
      var r0 := InsertRow(t, frameColumns, rows[0]);
      InsertRowOutcome(t, frameColumns, rows[0]);
      if r0.Success? {
        var rest := rows[1..];
        assert KeysGiven(t.schema, frameColumns, rest) by {
          assert forall i :: 0 <= i < |rest| ==> rest[i] == rows[i + 1];
        }
        InsertRowsFit(r0.value, frameColumns, rest);
        if RowsFit(t, frameColumns, rows) {
          InsertRowsFitStep(t, frameColumns, rows);
        }
        if RowsFit(r0.value, frameColumns, rest) {
          InsertRowsFitBack(t, frameColumns, rows);
        }
      } else {
        assert !(RowFits(t.schema, c0) && KeyFree(t, c0));
      }
    }
  }

  /** A frame row whose key is already held makes the rows fail. */
  lemma {:induction false} InsertRowsTaken(t: Table, frameColumns: seq<string>, rows: seq<seq<Cell>>, j: nat)
    requires j < |rows|
    requires CellAt(Align(t.schema.columns, frameColumns, rows[j]), KeyIndex(t.schema)) != Null
    requires KeyTaken(t.rows, KeyIndex(t.schema), StoredKey(t.schema, Align(t.schema.columns, frameColumns, rows[j])))
    ensures InsertRows(t, frameColumns, rows).Failure?
    decreases |rows|
  {
    var r0 := InsertRow(t, frameColumns, rows[0]);
    InsertRowOutcome(t, frameColumns, rows[0]);
    if j > 0 && r0.Success? {
      var t1 := r0.value;
      var kk := KeyIndex(t.schema);
      assert t1.rows == t.rows + [t1.rows[|t.rows|]];
      KeyTakenAppend(t.rows, t1.rows[|t.rows|], kk, StoredKey(t.schema, Align(t.schema.columns, frameColumns, rows[j])));
      assert rows[1..][j - 1] == rows[j];
      InsertRowsTaken(t1, frameColumns, rows[1..], j - 1);
    }
  }

  /** Two frame rows giving the same key make the rows fail. */
  lemma {:induction false} InsertRowsDuplicate(t: Table, frameColumns: seq<string>, rows: seq<seq<Cell>>, i: nat, j: nat)
    requires i < j < |rows|
    requires CellAt(Align(t.schema.columns, frameColumns, rows[i]), KeyIndex(t.schema)) != Null
    requires StoredKey(t.schema, Align(t.schema.columns, frameColumns, rows[i]))
      == StoredKey(t.schema, Align(t.schema.columns, frameColumns, rows[j]))
    ensures InsertRows(t, frameColumns, rows).Failure?
    decreases |rows|
  {
    var r0 := InsertRow(t, frameColumns, rows[0]);
    if r0.Success? {
      var t1 := r0.value;
      var kk := KeyIndex(t.schema);
      assert rows[1..][j - 1] == rows[j];
      if i == 0 {
        InsertRowOutcome(t, frameColumns, rows[0]);
        assert t1.rows == t.rows + [t1.rows[|t.rows|]];
        KeyTakenAppend(t.rows, t1.rows[|t.rows|], kk, StoredKey(t.schema, Align(t.schema.columns, frameColumns, rows[j])));
        InsertRowsTaken(t1, frameColumns, rows[1..], j - 1);
      } else {
        assert rows[1..][i - 1] == rows[i];
        InsertRowsDuplicate(t1, frameColumns, rows[1..], i - 1, j - 1);
      }
    }
  }

  /** The table pandas creates when `to_sql` finds none: the frame's columns, no constraints. */
  function SchemaOfFrame(f: Frame): Schema {
    Schema(f.columns, None, false, {})
  }

  /**
   * `to_sql` into the existing table `name`. A frame without rows inserts
   * nothing and prepares no statement, so it cannot fail; otherwise the
   * statement names every frame column, then each row is inserted.
   */
  function AppendTable(name: string, t: Table, f: Frame): (r: Result<Table, SqlError>)
    ensures r.Success? ==> r.value.schema == t.schema && |r.value.rows| == |t.rows| + |f.rows|
    ensures r.Success? ==> r.value.rows[..|t.rows|] == t.rows
    ensures f.rows == [] ==> r == Success(t)
    ensures f.rows != [] && FirstAbsent(t.schema.columns, f.columns).Some? ==>
      r == Failure(NoSuchColumn(name, FirstAbsent(t.schema.columns, f.columns).value))
  {
    if f.rows == [] then Success(t)
    else match FirstAbsent(t.schema.columns, f.columns)
    case Some(c) => Failure(NoSuchColumn(name, c))
    case None => InsertRows(t, f.columns, f.rows)
  }

  /** `t` holds exactly the rows of `f`, each stored as given, under schema `s`, and SQLite's guarantees hold. */
  predicate HoldsExactly(t: Table, s: Schema, f: Frame) {
    && t.schema == s && ValidTable(t) && |t.rows| == |f.rows|
    && forall i :: 0 <= i < |f.rows| ==> StoredAs(t.rows[i], Align(s.columns, f.columns, f.rows[i]), s)
  }

  /** An append into an empty table that succeeds leaves exactly the frame's rows. */
  lemma AppendToEmpty(name: string, s: Schema, f: Frame)
    requires AppendTable(name, Table(s, []), f).Success?
    ensures HoldsExactly(AppendTable(name, Table(s, []), f).value, s, f)
  {
    InsertRowsSpec(Table(s, []), f.columns, f.rows);
  }

  /** One frame row with NULL in a NOT NULL column makes the append fail as a whole. */
  lemma AppendTableRejectsNull(name: string, t: Table, f: Frame, i: nat)
    requires i < |f.rows|
    requires NullViolationFrom(t.schema, Align(t.schema.columns, f.columns, f.rows[i]), 0).Some?
    ensures AppendTable(name, t, f).Failure?
  {
    InsertRowsRejectsNull(t, f.columns, f.rows, i);
  }

  /**
   * When every rowid key is given, an append into an empty table succeeds
   * exactly when the table has every frame column, no row breaks the key type
   * or a NOT NULL column, and no two rows give the same key.
   */
  lemma AppendFits(name: string, s: Schema, f: Frame)
    requires KeysGiven(s, f.columns, f.rows)
    ensures AppendTable(name, Table(s, []), f).Success? <==>
      && (f.rows != [] ==> FirstAbsent(s.columns, f.columns).None?)
      && (forall i :: 0 <= i < |f.rows| ==> RowFits(s, Align(s.columns, f.columns, f.rows[i])))
      && DistinctKeys(s, f.columns, f.rows)
  {
    InsertRowsFit(Table(s, []), f.columns, f.rows);
  }

  /** Two frame rows giving the same key, as SQLite stores it, make the whole append fail. */
  lemma DuplicateKeyRejected(name: string, t: Table, f: Frame, i: nat, j: nat)
    requires i < j < |f.rows|
    requires CellAt(Align(t.schema.columns, f.columns, f.rows[i]), KeyIndex(t.schema)) != Null
    requires StoredKey(t.schema, Align(t.schema.columns, f.columns, f.rows[i]))
      == StoredKey(t.schema, Align(t.schema.columns, f.columns, f.rows[j]))
    ensures AppendTable(name, t, f).Failure?
  {
    if FirstAbsent(t.schema.columns, f.columns).None? {
      InsertRowsDuplicate(t, f.columns, f.rows, i, j);
    }
  }

  /** `frame.to_sql(name, conn, if_exists='append', index=False)` on the whole database. */
  function AppendTo(tables: map<string, Table>, name: string, f: Frame): (r: Result<map<string, Table>, SqlError>)
    ensures r.Success? ==> r.value.Keys == tables.Keys + {name}
    ensures r.Success? ==> forall n :: n in tables && n != name ==> r.value[n] == tables[n]
    ensures name in tables ==> r.Success? == AppendTable(name, tables[name], f).Success?
    ensures name in tables && r.Success? ==> r.value == tables[name := AppendTable(name, tables[name], f).value]
    ensures name in tables && r.Failure? ==> r.error == AppendTable(name, tables[name], f).error
  {
    if name !in tables then
      var created := InsertRows(Table(SchemaOfFrame(f), []), f.columns, f.rows);
      match created
      case Failure(e) => Failure(e)
      case Success(t) => Success(tables[name := t])
    else
      match AppendTable(name, tables[name], f)
      case Failure(e) => Failure(e)
      case Success(t) => Success(tables[name := t])
  }

  /** A table pandas creates on the fly takes every row: it has no key and no NOT NULL column. */
  lemma {:induction false} InsertRowsUnconstrained(t: Table, frameColumns: seq<string>, rows: seq<seq<Cell>>)
    requires t.schema.key.None? && t.schema.notNull == {}
    ensures InsertRows(t, frameColumns, rows).Success?
    decreases |rows|
  {
    if rows != [] {
      var cells := Align(t.schema.columns, frameColumns, rows[0]);
      assert NullViolationFrom(t.schema, cells, 0).None?;
      InsertRowsUnconstrained(InsertRow(t, frameColumns, rows[0]).value, frameColumns, rows[1..]);
    }
  }

  /** The connection: the tables of the database file. */
  class Database {
    var tables: map<string, Table>

    constructor (tables: map<string, Table>)
      ensures this.tables == tables
    {
      this.tables := tables;
    }

    /** `DROP TABLE IF EXISTS name`. */
    method DropIfExists(name: string)
      modifies this
      ensures tables == old(tables) - {name}
    {
      tables := tables - {name};
    }

    /** `CREATE TABLE name (...)`: an empty table, or an error when the name is taken. */
    method Create(name: string, schema: Schema) returns (r: Result<(), SqlError>)
      modifies this
      ensures name in old(tables) ==> r == Failure(TableExists(name)) && tables == old(tables)
      ensures name !in old(tables) ==> r.Success? && tables == old(tables)[name := Table(schema, [])]
    {
      if name in tables {
        return Failure(TableExists(name));
      }
      tables := tables[name := Table(schema, [])];
      return Success(());
    }

    /** `to_sql(..., if_exists='append')`: all rows or, on an error, none. */
    method Append(name: string, f: Frame) returns (r: Result<(), SqlError>)
      modifies this
      ensures AppendTo(old(tables), name, f).Success? ==> r.Success? && tables == AppendTo(old(tables), name, f).value
      ensures AppendTo(old(tables), name, f).Failure? ==>
        r == Failure(AppendTo(old(tables), name, f).error) && tables == old(tables)
    {
      var next := AppendTo(tables, name, f);
      if next.Failure? {
        return Failure(next.error);
      }
      tables := next.value;
      return Success(());
    }
  }
}
