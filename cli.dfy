/** The `sightline-cli` commands that change the database: archive,
    unarchive, delete, validate-snapshot, compare-snapshots and import-data.
    Each opens the same tables the server uses and applies its statements to
    them in place. Console output is not modelled; a command that reports a
    problem on the console and stops ends in `Err` with that text. */
module Cli {
  import opened Wrappers
  import opened Json
  import Text
  import opened Database
  import opened Store
  import opened Validation
  import Tools

  // ---------------------------------------------------------------------
  // archive-snapshot, unarchive-snapshot, delete-snapshot

  /** The flag values the two commands write. */
  const Archived := SqlInt(1)
  const Active := SqlInt(0)

  /** `archive-snapshot <id>`. */
  method Archive(store: SnapshotStore, id: int)
    requires store.Valid()
    modifies store
    ensures store.Valid()
    ensures store.State() == Database.SetArchived(old(store.State()), id, Archived)
  {
    store.SetArchived(id, Archived);
  }

  /** `unarchive-snapshot <id>`. */
  method Unarchive(store: SnapshotStore, id: int)
    requires store.Valid()
    modifies store
    ensures store.Valid()
    ensures store.State() == Database.SetArchived(old(store.State()), id, Active)
  {
    store.SetArchived(id, Active);
  }

  /** `delete-snapshot <id>`. */
  method Delete(store: SnapshotStore, id: int)
    requires store.Valid()
    modifies store
    ensures store.Valid()
    ensures store.State() == Database.DeleteSnapshot(old(store.State()), id)
  {
    store.Delete(id);
  }

  /** Archiving an active snapshot and unarchiving it again gives back the
      tables as they were; so does it on an id with no row. */
  lemma ArchiveThenUnarchive(t: Tables, id: int)
    requires id in t.snapshots ==> t.snapshots[id].archived == Active
    ensures Database.SetArchived(Database.SetArchived(t, id, Archived), id, Active) == t
  {
    SetArchivedTwice(t, id, Archived, Active);
    SetArchivedUnchanged(t, id, Active);
  }

  /** Archiving twice is archiving once. */
  lemma ArchiveIdempotent(t: Tables, id: int)
    ensures Database.SetArchived(Database.SetArchived(t, id, Archived), id, Archived)
         == Database.SetArchived(t, id, Archived)
  {
    SetArchivedTwice(t, id, Archived, Archived);
  }

  // ---------------------------------------------------------------------
  // validate-snapshot <snapshot_id> <selector> <text>

  const SnapshotNotFound := "Snapshot not found"

  function ValidateCommandSpec(t: Tables, id: int, selector: string, text: string, now: string): Step<RuleResult> {
    match FindSnapshot(t, Some(id))
    case None => Step(Err(SnapshotNotFound), t)
    case Some(row) =>
      match CheckRule(row.dom, selector, text)
      case Err(e) => Step(Err(e), t)
      case Ok(result) =>
        var ins := Database.InsertValidation(t, None, SqlInt(id), SqlText(now), SqlText(Stringify(RuleJson(result))));
        Step(Ok(result), ins.tables)
  }

  method ValidateCommand(store: SnapshotStore, id: int, selector: string, text: string, now: string)
    returns (r: Result<RuleResult>)
    requires store.Valid()
    modifies store
    ensures store.Valid()
    ensures Step(r, store.State()) == ValidateCommandSpec(old(store.State()), id, selector, text, now)
  {
    var row := FindSnapshot(store.State(), Some(id));
    if row.None? {
      return Err(SnapshotNotFound);
    }
    var result := CheckRule(row.value.dom, selector, text);
    if result.Err? {
      return Err(result.error);
    }
    var _ := store.InsertValidation(None, SqlInt(id), SqlText(now), SqlText(Stringify(RuleJson(result.value))));
    r := Ok(result.value);
  }

  /** A missing snapshot is reported and nothing is inserted. */
  lemma ValidateCommandNotFound(t: Tables, id: int, selector: string, text: string, now: string)
    requires id !in t.snapshots
    ensures ValidateCommandSpec(t, id, selector, text, now) == Step(Err(SnapshotNotFound), t)
  {
  }

  /** On a snapshot whose DOM is text, exactly one validations row is
      appended, holding `{selector, expectedText, found}` with `found` true
      iff the DOM contains both strings. */
  lemma ValidateCommandRecords(t: Tables, id: int, selector: string, text: string, now: string)
    requires Database.Valid(t) && id in t.snapshots && t.snapshots[id].dom.SqlText?
    ensures var s := ValidateCommandSpec(t, id, selector, text, now);
      var dom := t.snapshots[id].dom.s;
      && s.result.Ok?
      && s.result.value.selector == selector && s.result.value.expectedText == text
      && (s.result.value.found <==> Text.Occurs(dom, selector) && Text.Occurs(dom, text))
      && s.tables == t.(validations := t.validations
                          + [ValidationRow(t.validationSeq + 1, SqlInt(id), SqlText(now),
                                           SqlText(Stringify(RuleJson(s.result.value))))],
                        validationSeq := t.validationSeq + 1)
      && Database.Valid(s.tables)
  {
    var result := CheckRule(t.snapshots[id].dom, selector, text).value;
    var ins := Database.InsertValidation(t, None, SqlInt(id), SqlText(now), SqlText(Stringify(RuleJson(result))));
    assert ins.result == Ok(t.validationSeq + 1);
    assert ValidateCommandSpec(t, id, selector, text, now) == Step(Ok(result), ins.tables);
    InsertValidationValid(t, None, SqlInt(id), SqlText(now), SqlText(Stringify(RuleJson(result))));
  }

  // ---------------------------------------------------------------------
  // compare-snapshots <snapshot_id_a> <snapshot_id_b>

  const OneOrBothNotFound := "One or both snapshots not found"

  /** The command compares with pixelmatch's threshold fixed at 0.1. */
  const CliThreshold: real := 0.1

  function CompareCommandSpec(t: Tables, idA: int, idB: int,
                              differ: (Value, Value, Option<real>) -> Result<Tools.PixelDiff>, now: string)
    : Step<nat>
  {
    if idA !in t.snapshots || idB !in t.snapshots then Step(Err(OneOrBothNotFound), t)
    else
      match differ(t.snapshots[idA].image, t.snapshots[idB].image, Some(CliThreshold))
      case Err(e) => Step(Err(e), t)
      case Ok(d) =>
        var ins := Database.InsertDiff(t, None, SqlInt(idA), SqlInt(idB), SqlText(now),
                                       SqlBlob(d.diffImage), SqlReal(d.mismatched as real));
        Step(Ok(d.mismatched), ins.tables)
  }

  method CompareCommand(store: SnapshotStore, idA: int, idB: int,
                        differ: (Value, Value, Option<real>) -> Result<Tools.PixelDiff>, now: string)
    returns (r: Result<nat>)
    requires store.Valid()
    modifies store
    ensures store.Valid()
    ensures Step(r, store.State()) == CompareCommandSpec(old(store.State()), idA, idB, differ, now)
  {
    var rowA := FindSnapshot(store.State(), Some(idA));
    var rowB := FindSnapshot(store.State(), Some(idB));
    if rowA.None? || rowB.None? {
      return Err(OneOrBothNotFound);
    }
    var d := differ(rowA.value.image, rowB.value.image, Some(CliThreshold));
    if d.Err? {
      return Err(d.error);
    }
    var _ := store.InsertDiff(None, SqlInt(idA), SqlInt(idB), SqlText(now),
                              SqlBlob(d.value.diffImage), SqlReal(d.value.mismatched as real));
    r := Ok(d.value.mismatched);
  }

  /** If either snapshot is missing nothing is inserted; otherwise, when the
      images compare, exactly one diffs row is appended with the ids in
      argument order and the mismatch count as score, at threshold 0.1. */
  lemma CompareCommandRecords(t: Tables, idA: int, idB: int,
                              differ: (Value, Value, Option<real>) -> Result<Tools.PixelDiff>, now: string)
    requires Database.Valid(t)
    ensures var s := CompareCommandSpec(t, idA, idB, differ, now);
      && Database.Valid(s.tables)
      && (idA !in t.snapshots || idB !in t.snapshots ==> s == Step(Err(OneOrBothNotFound), t))
      && (idA in t.snapshots && idB in t.snapshots ==>
            var d := differ(t.snapshots[idA].image, t.snapshots[idB].image, Some(CliThreshold));
            && (d.Err? ==> s == Step(Err(d.error), t))
            && (d.Ok? ==>
                  && s.result == Ok(d.value.mismatched)
                  && s.tables == t.(diffs := t.diffs + [DiffRow(t.diffSeq + 1, SqlInt(idA), SqlInt(idB), SqlText(now),
                                                                SqlBlob(d.value.diffImage),
                                                                SqlReal(d.value.mismatched as real))],
                                    diffSeq := t.diffSeq + 1)))
  {
    if idA in t.snapshots && idB in t.snapshots {
      var d := differ(t.snapshots[idA].image, t.snapshots[idB].image, Some(CliThreshold));
      if d.Ok? {
        InsertDiffValid(t, None, SqlInt(idA), SqlInt(idB), SqlText(now),
                        SqlBlob(d.value.diffImage), SqlReal(d.value.mismatched as real));
      }
    }
  }

  // ---------------------------------------------------------------------
  // import-data <table> <inputFile>

  const CannotConvert := "Cannot convert undefined or null to object"
  const NotIterable := "rows is not iterable"
  const UnsupportedBinding := "a leading array or object parameter is not bound positionally"

  /** How the driver binds one JavaScript value at a `?` marker: undefined
      and null as NULL, numbers as INTEGER, booleans as 1 or 0, strings as
      TEXT, arrays and objects as their `String()` text. */
  function Bind(v: Option<Json>): (r: Value)
    ensures v.None? || v == Some(JNull) ==> r == SqlNull
    ensures v.Some? && v.value.JNum? ==> r == SqlInt(v.value.n)
    ensures v.Some? && v.value.JStr? ==> r == SqlText(v.value.s)
  {
    match v
    case None => SqlNull
    case Some(JNull) => SqlNull
    case Some(JBool(b)) => SqlInt(if b then 1 else 0)
    case Some(JNum(n)) => SqlInt(n)
    case Some(JStr(s)) => SqlText(s)
    case Some(j) => SqlText(JsString(j))
  }

  /** `db.run(stmt, ...values)`: the values bound in order. A leading array or
      object would be taken by the driver as the parameter list or as named
      parameters; the model reports that case as an error. */
  function BindAll(values: seq<Option<Json>>): (r: Result<seq<Value>>)
    ensures r.Err? <==> values != [] && values[0].Some? && (values[0].value.JArr? || values[0].value.JObj?)
    ensures r.Ok? ==> |r.value| == |values| && forall i :: 0 <= i < |values| ==> r.value[i] == Bind(values[i])
  {
    if values != [] && values[0].Some? && (values[0].value.JArr? || values[0].value.JObj?) then Err(UnsupportedBinding)
    else Ok(seq(|values|, i requires 0 <= i < |values| => Bind(values[i])))
  }

  /** `columns.map((col) => row[col])`; reading from a null row throws, but
      only once there is a column to read. */
  function RowValues(columns: seq<string>, row: Json): (r: Result<seq<Option<Json>>>)
    ensures r.Err? <==> row.JNull? && columns != []
    ensures r.Ok? ==> |r.value| == |columns| && forall i :: 0 <= i < |columns| ==> r.value[i] == Get(row, columns[i])
  {
    if row.JNull? && columns != [] then Err("Cannot read properties of null (reading '" + columns[0] + "')")
    else Ok(seq(|columns|, i requires 0 <= i < |columns| => Get(row, columns[i])))
  }

  /** `Object.keys(rows[0])`. */
  function ImportColumns(rows: Json): (r: Result<seq<string>>)
    ensures rows == JArr([]) ==> r == Err(CannotConvert)
    ensures rows.JArr? && rows.items != [] ==> r == ObjectKeys(rows.items[0])
    ensures r.Ok? ==> forall i, j :: 0 <= i < j < |r.value| ==> r.value[i] != r.value[j]
  {
    match rows
    case JNull => Err("Cannot read properties of null (reading '0')")
    case JArr(items) => if items == [] then Err(CannotConvert) else ObjectKeys(items[0])
    case JObj(_) =>
      (match Get(rows, "0")
       case None => Err(CannotConvert)
       case Some(first) => ObjectKeys(first))
    case JStr(s) => if s == "" then Err(CannotConvert) else ObjectKeys(JStr([s[0]]))
    case _ => Err(CannotConvert)
  }

  /** The statement import-data prepares once for all rows. */
  function ImportStatement(table: string, columns: seq<string>): (stmt: Insert)
    ensures stmt.tableName == table && stmt.columns == columns
  {
    Insert(table, columns, Placeholders(|columns|))
  }

  /** One pass of the loop: read the row's values in column order, bind them
      and run the statement. */
  function ImportRow(t: Tables, stmt: Insert, row: Json, now: string): (s: Step<int>)
    requires NoDuplicates(stmt.columns)
    ensures s.result.Err? ==> s.tables == t
  {
    match RowValues(stmt.columns, row)
    case Err(e) => Step(Err(e), t)
    case Ok(values) =>
      match BindAll(values)
      case Err(e) => Step(Err(e), t)
      case Ok(params) => Execute(t, stmt, params, now)
  }

  /** The import loop's body as a step on the tables. */
  function RowStep(stmt: Insert, now: string): (Tables, Json) -> Step<int>
    requires NoDuplicates(stmt.columns)
  {
    (u: Tables, row: Json) => ImportRow(u, stmt, row, now)
  }

  /** A loop that runs `step` on each row in turn, as a function of the rows
      so far: the number of steps that succeeded, or the first error; the
      effect of the steps before it stays. */
  function Loop(t: Tables, step: (Tables, Json) -> Step<int>, rows: seq<Json>): Step<nat>
    decreases |rows|
  {
    if rows == [] then Step(Ok(0), t)
    else
      var before := Loop(t, step, rows[..|rows| - 1]);
      if before.result.Err? then before
      else
        var s := step(before.tables, rows[|rows| - 1]);
        if s.result.Err? then Step(Err(s.result.error), s.tables)
        else Step(Ok(before.result.value + 1), s.tables)
  }

  /** The loop over `rows`: one INSERT per row, stopping at the first error. */
  function ImportRows(t: Tables, stmt: Insert, rows: seq<Json>, now: string): Step<nat>
    requires NoDuplicates(stmt.columns)
  {
    Loop(t, RowStep(stmt, now), rows)
  }

  /** What `for (const row of rows)` iterates: the elements of an array, the
      characters of a string; anything else is not iterable. */
  function Iterated(rows: Json): Result<seq<Json>> {
    match rows
    case JArr(items) => Ok(items)
    case JStr(s) => Ok(seq(|s|, i requires 0 <= i < |s| => JStr([s[i]])))
    case _ => Err(NotIterable)
  }

  /** import-data on the parsed file content. */
  function ImportSpec(t: Tables, table: string, rows: Json, now: string): Step<nat> {
    match ImportColumns(rows)
    case Err(e) => Step(Err(e), t)
    case Ok(columns) =>
      match Iterated(rows)
      case Err(e) => Step(Err(e), t)
      case Ok(items) => ImportRows(t, ImportStatement(table, columns), items, now)
  }

  /** An error on a prefix of the rows is the error of the whole loop, with
      the tables as that prefix left them. */
  lemma {:induction false} LoopFailsEarly(t: Tables, step: (Tables, Json) -> Step<int>, rows: seq<Json>, n: nat)
    requires n <= |rows| && Loop(t, step, rows[..n]).result.Err?
    ensures Loop(t, step, rows) == Loop(t, step, rows[..n])
    decreases |rows| - n
  {
    if n < |rows| {
      assert rows[..n + 1][..n] == rows[..n];
      LoopFailsEarly(t, step, rows, n + 1);
    } else {
      assert rows[..n] == rows;
    }
  }

  /** One more row: the loop's state after `rows[..i + 1]` from its state after `rows[..i]`. */
  lemma LoopNext(t: Tables, step: (Tables, Json) -> Step<int>, rows: seq<Json>, i: nat)
    requires i < |rows| && Loop(t, step, rows[..i]).result.Ok?
    ensures var before := Loop(t, step, rows[..i]);
      var s := step(before.tables, rows[i]);
      Loop(t, step, rows[..i + 1]) ==
        if s.result.Err? then Step(Err(s.result.error), s.tables) else Step(Ok(before.result.value + 1), s.tables)
  {
    assert rows[..i + 1][..i] == rows[..i];
  }

  /** The loop body: `db.run(stmt, ...columns.map((col) => row[col]))` on
      `rows[i]`, which takes the loop's state after `rows[..i]` to its state
      after `rows[..i + 1]`. */
  method ImportOne(store: SnapshotStore, stmt: Insert, rows: seq<Json>, i: nat, now: string, ghost t0: Tables)
    returns (r: Result<int>)
    requires store.Valid() && NoDuplicates(stmt.columns) && i < |rows|
    requires ImportRows(t0, stmt, rows[..i], now).result.Ok?
    requires ImportRows(t0, stmt, rows[..i], now).tables == store.State()
    modifies store
    ensures store.Valid()
    ensures var after := ImportRows(t0, stmt, rows[..i + 1], now);
      after.tables == store.State() &&
      (r.Err? <==> after.result.Err?) &&
      (r.Err? ==> after.result.error == r.error) &&
      (r.Ok? ==> after.result.value == ImportRows(t0, stmt, rows[..i], now).result.value + 1)
  {
    LoopNext(t0, RowStep(stmt, now), rows, i);
    var values := RowValues(stmt.columns, rows[i]);
    if values.Err? {
      return Err(values.error);
    }
    var params := BindAll(values.value);
    if params.Err? {
      return Err(params.error);
    }
    r := store.Run(stmt, params.value, now);
  }

  /** `for (const row of rows) { await db.run(stmt, ...) }`: one INSERT per
      row, in order, stopping at the first error. */
  method InsertRows(store: SnapshotStore, stmt: Insert, rows: seq<Json>, now: string) returns (r: Result<nat>)
    requires store.Valid() && NoDuplicates(stmt.columns)
    modifies store
    ensures store.Valid()
    ensures Step(r, store.State()) == ImportRows(old(store.State()), stmt, rows, now)
  {
    ghost var t0 := store.State();
    var count: nat := 0;
    for i := 0 to |rows|
      invariant store.Valid()
      invariant ImportRows(t0, stmt, rows[..i], now) == Step(Ok(count), store.State())
    {
      var inserted := ImportOne(store, stmt, rows, i, now, t0);
      if inserted.Err? {
        LoopFailsEarly(t0, RowStep(stmt, now), rows, i + 1);
        return Err(inserted.error);
      }
      count := count + 1;
    }
    assert rows[..|rows|] == rows;
    r := Ok(count);
  }

  method ImportData(store: SnapshotStore, table: string, rows: Json, now: string) returns (r: Result<nat>)
    requires store.Valid()
    modifies store
    ensures store.Valid()
    ensures Step(r, store.State()) == ImportSpec(old(store.State()), table, rows, now)
  {
    var columns := ImportColumns(rows);
    if columns.Err? {
      return Err(columns.error);
    }
    var stmt := ImportStatement(table, columns.value);
    var iterated := Iterated(rows);
    if iterated.Err? {
      return Err(iterated.error);
    }
    r := InsertRows(store, stmt, iterated.value, now);
  }


  /** An empty array has no first row to take the columns from: the import
      fails before inserting anything. */
  lemma ImportEmptyFails(t: Tables, table: string, now: string)
    ensures ImportSpec(t, table, JArr([]), now) == Step(Err(CannotConvert), t)
  {
  }

  /** The statement has one `?` per column, as a well-formed VALUES list when
      there is at least one column, and each row's values are taken in column
      order. */
  lemma ImportStatementShape(table: string, columns: seq<string>, row: Json)
    ensures Markers(ImportStatement(table, columns).placeholders) == if columns == [] then None else Some(|columns|)
    ensures !row.JNull? ==> RowValues(columns, row) == Ok(seq(|columns|, i requires 0 <= i < |columns| => Get(row, columns[i])))
  {
    MarkersOfPlaceholders(|columns|);
  }

  /** The rows of the named table. */
  function RowCount(t: Tables, table: Table): nat {
    match table
    case Snapshots => |t.snapshots|
    case Validations => |t.validations|
    case Diffs => |t.diffs|
  }

  /** A successful INSERT adds exactly one row to the table it names. */
  lemma ExecuteAddsOneRow(t: Tables, stmt: Insert, params: seq<Value>, now: string)
    requires NoDuplicates(stmt.columns) && Database.Valid(t)
    requires Execute(t, stmt, params, now).result.Ok?
    ensures var table := TableNamed(stmt.tableName).value;
      RowCount(Execute(t, stmt, params, now).tables, table) == RowCount(t, table) + 1
  {
    var id := RowId(Cell(stmt.columns, params, "id", SqlNull));
    assert id.Ok? && Execute(t, stmt, params, now)
      == InsertCells(t, TableNamed(stmt.tableName).value, id.value, stmt.columns, params, SqlText(now));
    InsertCellsAddsOneRow(t, TableNamed(stmt.tableName).value, id.value, stmt.columns, params, SqlText(now));
  }

  /** The same, once the statement has been resolved to its table and its row. */
  lemma InsertCellsAddsOneRow(t: Tables, table: Table, id: Option<int>, cols: seq<string>, params: seq<Value>, now: Value)
    requires NoDuplicates(cols) && Database.Valid(t)
    requires InsertCells(t, table, id, cols, params, now).result.Ok?
    ensures RowCount(InsertCells(t, table, id, cols, params, now).tables, table) == RowCount(t, table) + 1
  {
    if table == Snapshots {
      InsertCellsValid(t, table, id, cols, params, now);
      var s := InsertCells(t, table, id, cols, params, now);
      var k := s.result.value;
      var row := s.tables.snapshots[k];
      InsertSnapshotValid(t, id, row);
      assert s == Database.InsertSnapshot(t, id, row);
      assert k !in t.snapshots;
      assert s.tables.snapshots.Keys == t.snapshots.Keys + {k};
    }
  }

  /** Importing touches only the table the statement names (none, when no
      such table exists); when every row goes in, that table gains exactly
      one row per input row, and the count returned is the number of rows. */
  lemma {:induction false} ImportRowsEffect(t: Tables, stmt: Insert, rows: seq<Json>, now: string)
    requires NoDuplicates(stmt.columns) && Database.Valid(t)
    ensures var s := ImportRows(t, stmt, rows, now);
      var target := TableNamed(stmt.tableName);
      && (target != Some(Snapshots) ==> s.tables.snapshots == t.snapshots && s.tables.snapshotSeq == t.snapshotSeq)
      && (target != Some(Validations) ==> s.tables.validations == t.validations && s.tables.validationSeq == t.validationSeq)
      && (target != Some(Diffs) ==> s.tables.diffs == t.diffs && s.tables.diffSeq == t.diffSeq)
      && (s.result.Ok? ==> s.result.value == |rows|)
      && (s.result.Ok? && rows != [] ==> target.Some?)
      && (s.result.Ok? && target.Some? ==> RowCount(s.tables, target.value) == RowCount(t, target.value) + |rows|)
    decreases |rows|
  {
    if rows != [] {
      var front := rows[..|rows| - 1];
      ImportRowsEffect(t, stmt, front, now);
      ImportRowsValid(t, stmt, front, now);
      var before := ImportRows(t, stmt, front, now);
      if before.result.Ok? {
        var values := RowValues(stmt.columns, rows[|rows| - 1]);
        if values.Ok? && BindAll(values.value).Ok? {
          var params := BindAll(values.value).value;
          ExecuteTouchesOneTable(before.tables, stmt, params, now);
          if Execute(before.tables, stmt, params, now).result.Ok? {
            ExecuteAddsOneRow(before.tables, stmt, params, now);
          }
        }
      }
    }
  }

  /** An import into a table that does not exist changes nothing. */
  lemma ImportUnknownTable(t: Tables, table: string, rows: Json, now: string)
    requires Database.Valid(t) && TableNamed(table).None?
    ensures ImportSpec(t, table, rows, now).tables == t
  {
    match ImportColumns(rows)
    case Err(_) =>
    case Ok(columns) =>
      match Iterated(rows)
      case Err(_) =>
      case Ok(items) => ImportRowsEffect(t, ImportStatement(table, columns), items, now);
  }

  /** Importing keeps every table's ids unique. */
  lemma {:induction false} ImportRowsValid(t: Tables, stmt: Insert, rows: seq<Json>, now: string)
    requires NoDuplicates(stmt.columns) && Database.Valid(t)
    ensures Database.Valid(ImportRows(t, stmt, rows, now).tables)
    decreases |rows|
  {
    if rows != [] {
      var front := rows[..|rows| - 1];
      ImportRowsValid(t, stmt, front, now);
      var before := ImportRows(t, stmt, front, now);
      if before.result.Ok? {
        var values := RowValues(stmt.columns, rows[|rows| - 1]);
        if values.Ok? && BindAll(values.value).Ok? {
          ExecuteValid(before.tables, stmt, BindAll(values.value).value, now);
        }
      }
    }
  }
}
