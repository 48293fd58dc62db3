/** The SQLite database both back-ends share (sightline.sqlite): three tables
    whose ids are INTEGER PRIMARY KEY AUTOINCREMENT, as plain values, and the
    single-statement operations the program issues against them. */
module Database {
  import opened Wrappers
  import Text

  newtype byte = x: int | 0 <= x < 256

  /** A cell, in one of SQLite's storage classes. */
  datatype Value =
    | SqlNull
    | SqlInt(n: int)
    | SqlReal(x: real)
    | SqlText(s: string)
    | SqlBlob(data: seq<byte>)

  /** A row of `snapshots`, without its id (the id is the key of the table's map). */
  // `label` is a keyword in Dafny, so the label column is the field `labelValue`.
  datatype Snapshot = Snapshot(
    timestamp: Value, image: Value, dom: Value, metadata: Value,
    labelValue: Value, tags: Value, envInfo: Value, archived: Value)

  /** A row of `validations`. */
  datatype ValidationRow = ValidationRow(id: int, snapshotId: Value, timestamp: Value, result: Value)

  /** A row of `diffs`. */
  datatype DiffRow = DiffRow(
    id: int, snapshotIdA: Value, snapshotIdB: Value, timestamp: Value, diffImage: Value, score: Value)

  /** The three tables, and per table the largest id ever assigned (the
      table's entry in sqlite_sequence, which AUTOINCREMENT never reuses). */
  datatype Tables = Tables(
    snapshots: map<int, Snapshot>,
    validations: seq<ValidationRow>,
    diffs: seq<DiffRow>,
    snapshotSeq: int,
    validationSeq: int,
    diffSeq: int)

  /** The outcome of a statement: its result and the tables afterwards. */
  datatype Step<T> = Step(result: Result<T>, tables: Tables)

  /** A freshly created database file. */
  const Empty := Tables(map[], [], [], 0, 0, 0)

  function ValidationIds(rows: seq<ValidationRow>): (ids: seq<int>)
    ensures |ids| == |rows| && forall i :: 0 <= i < |rows| ==> ids[i] == rows[i].id
  {
    seq(|rows|, i requires 0 <= i < |rows| => rows[i].id)
  }

  function DiffIds(rows: seq<DiffRow>): (ids: seq<int>)
    ensures |ids| == |rows| && forall i :: 0 <= i < |rows| ==> ids[i] == rows[i].id
  {
    seq(|rows|, i requires 0 <= i < |rows| => rows[i].id)
  }

  predicate NoDuplicates<T(==)>(xs: seq<T>) {
    forall i, j :: 0 <= i < j < |xs| ==> xs[i] != xs[j]
  }

  ghost predicate AllAtMost(ids: seq<int>, bound: int) {
    forall i :: 0 <= i < |ids| ==> ids[i] <= bound
  }

  /** Ids are unique per table and never above the table's sequence value. */
  ghost predicate Valid(t: Tables) {
    && 0 <= t.snapshotSeq && 0 <= t.validationSeq && 0 <= t.diffSeq
    && (forall k :: k in t.snapshots ==> k <= t.snapshotSeq)
    && NoDuplicates(ValidationIds(t.validations)) && AllAtMost(ValidationIds(t.validations), t.validationSeq)
    && NoDuplicates(DiffIds(t.diffs)) && AllAtMost(DiffIds(t.diffs), t.diffSeq)
  }

  lemma EmptyValid()
    ensures Valid(Empty)
  {
  }

  function Max(a: int, b: int): int {
    if a < b then b else a
  }

  /** The driver reports each SQLite error as its result code, a colon, and
      SQLite's message. */
  const SqliteError := "SQLITE_ERROR: "
  const NotUnique := "SQLITE_CONSTRAINT: UNIQUE constraint failed"

  /** `SELECT ... FROM snapshots WHERE id = ?`; `None` as the id is NaN, which matches no row. */
  function FindSnapshot(t: Tables, id: Option<int>): (r: Option<Snapshot>)
    ensures r.Some? <==> id.Some? && id.value in t.snapshots
    ensures r.Some? ==> r.value == t.snapshots[id.value]
  {
    if id.Some? && id.value in t.snapshots then Some(t.snapshots[id.value]) else None
  }

  /** INSERT into `snapshots`: without an id the row gets one above every id
      ever used; an explicit id must not be taken. */
  function InsertSnapshot(t: Tables, id: Option<int>, row: Snapshot): (s: Step<int>)
    ensures s.result.Err? <==> id.Some? && id.value in t.snapshots
    ensures s.result.Err? ==> s.tables == t
    ensures id.None? ==> s.result == Ok(t.snapshotSeq + 1)
    ensures id.Some? && s.result.Ok? ==> s.result.value == id.value
    ensures s.result.Ok? ==>
      s.tables == t.(snapshots := t.snapshots[s.result.value := row],
                     snapshotSeq := Max(t.snapshotSeq, s.result.value))
  {
    match id
    case None =>
      var k := t.snapshotSeq + 1;
      Step(Ok(k), t.(snapshots := t.snapshots[k := row], snapshotSeq := k))
    case Some(k) =>
      if k in t.snapshots then Step(Err(NotUnique + ": snapshots.id"), t)
      else Step(Ok(k), t.(snapshots := t.snapshots[k := row], snapshotSeq := Max(t.snapshotSeq, k)))
  }

  /** INSERT into `validations`; ids as for snapshots. */
  function InsertValidation(t: Tables, id: Option<int>, snapshotId: Value, timestamp: Value, result: Value)
    : (s: Step<int>)
    ensures s.result.Err? <==> id.Some? && id.value in ValidationIds(t.validations)
    ensures s.result.Err? ==> s.tables == t
    ensures id.None? ==> s.result == Ok(t.validationSeq + 1)
    ensures id.Some? && s.result.Ok? ==> s.result.value == id.value
    ensures s.result.Ok? ==>
      s.tables == t.(validations := t.validations + [ValidationRow(s.result.value, snapshotId, timestamp, result)],
                     validationSeq := Max(t.validationSeq, s.result.value))
  {
    var k := if id.Some? then id.value else t.validationSeq + 1;
    if id.Some? && k in ValidationIds(t.validations) then Step(Err(NotUnique + ": validations.id"), t)
    else
      Step(Ok(k), t.(validations := t.validations + [ValidationRow(k, snapshotId, timestamp, result)],
                     validationSeq := Max(t.validationSeq, k)))
  }

  /** Without an explicit id, an INSERT into `validations` always succeeds,
      under one above the sequence value. */
  lemma InsertValidationFresh(t: Tables, snapshotId: Value, timestamp: Value, result: Value)
    ensures InsertValidation(t, None, snapshotId, timestamp, result)
      == Step(Ok(t.validationSeq + 1),
              t.(validations := t.validations + [ValidationRow(t.validationSeq + 1, snapshotId, timestamp, result)],
                 validationSeq := t.validationSeq + 1))
  {
  }

  /** INSERT into `diffs`; ids as for snapshots. */
  function InsertDiff(t: Tables, id: Option<int>, idA: Value, idB: Value, timestamp: Value, diffImage: Value, score: Value)
    : (s: Step<int>)
    ensures s.result.Err? <==> id.Some? && id.value in DiffIds(t.diffs)
    ensures s.result.Err? ==> s.tables == t
    ensures id.None? ==> s.result == Ok(t.diffSeq + 1)
    ensures id.Some? && s.result.Ok? ==> s.result.value == id.value
    ensures s.result.Ok? ==>
      s.tables == t.(diffs := t.diffs + [DiffRow(s.result.value, idA, idB, timestamp, diffImage, score)],
                     diffSeq := Max(t.diffSeq, s.result.value))
  {
    var k := if id.Some? then id.value else t.diffSeq + 1;
    if id.Some? && k in DiffIds(t.diffs) then Step(Err(NotUnique + ": diffs.id"), t)
    else
      Step(Ok(k), t.(diffs := t.diffs + [DiffRow(k, idA, idB, timestamp, diffImage, score)],
                     diffSeq := Max(t.diffSeq, k)))
  }

  /** `UPDATE snapshots SET archived = ? WHERE id = ?`: only that row's flag
      changes, and an absent id changes nothing. */
  function SetArchived(t: Tables, id: int, flag: Value): (u: Tables)
    ensures u.validations == t.validations && u.diffs == t.diffs
    ensures u.snapshotSeq == t.snapshotSeq && u.validationSeq == t.validationSeq && u.diffSeq == t.diffSeq
    ensures u.snapshots.Keys == t.snapshots.Keys
    ensures forall k :: k in t.snapshots && k != id ==> u.snapshots[k] == t.snapshots[k]
    ensures id in t.snapshots ==> u.snapshots[id] == t.snapshots[id].(archived := flag)
  {
    if id in t.snapshots then t.(snapshots := t.snapshots[id := t.snapshots[id].(archived := flag)]) else t
  }

  /** `DELETE FROM snapshots WHERE id = ?`: nothing cascades to the rows of
      `validations` and `diffs` that refer to it. */
  function DeleteSnapshot(t: Tables, id: int): (u: Tables)
    ensures u.snapshots.Keys == t.snapshots.Keys - {id}
    ensures forall k :: k in u.snapshots ==> u.snapshots[k] == t.snapshots[k]
    ensures u.validations == t.validations && u.diffs == t.diffs
    ensures u.snapshotSeq == t.snapshotSeq && u.validationSeq == t.validationSeq && u.diffSeq == t.diffSeq
  {
    t.(snapshots := t.snapshots - {id})
  }

  /** Every insert keeps ids unique and at most the sequence value, and an
      automatically assigned id is one no row had. */
  lemma InsertSnapshotValid(t: Tables, id: Option<int>, row: Snapshot)
    requires Valid(t)
    ensures Valid(InsertSnapshot(t, id, row).tables)
    ensures InsertSnapshot(t, id, row).result.Ok? ==> InsertSnapshot(t, id, row).result.value !in t.snapshots
  {
  }

  lemma InsertValidationValid(t: Tables, id: Option<int>, snapshotId: Value, timestamp: Value, result: Value)
    requires Valid(t)
    ensures Valid(InsertValidation(t, id, snapshotId, timestamp, result).tables)
  {
    var s := InsertValidation(t, id, snapshotId, timestamp, result);
    if s.result.Ok? {
      var ids := ValidationIds(s.tables.validations);
      assert ids == ValidationIds(t.validations) + [s.result.value];
    }
  }

  lemma InsertDiffValid(t: Tables, id: Option<int>, idA: Value, idB: Value, timestamp: Value, diffImage: Value, score: Value)
    requires Valid(t)
    ensures Valid(InsertDiff(t, id, idA, idB, timestamp, diffImage, score).tables)
  {
    var s := InsertDiff(t, id, idA, idB, timestamp, diffImage, score);
    if s.result.Ok? {
      var ids := DiffIds(s.tables.diffs);
      assert ids == DiffIds(t.diffs) + [s.result.value];
    }
  }

  lemma SetArchivedValid(t: Tables, id: int, flag: Value)
    requires Valid(t)
    ensures Valid(SetArchived(t, id, flag))
  {
  }

  lemma DeleteSnapshotValid(t: Tables, id: int)
    requires Valid(t)
    ensures Valid(DeleteSnapshot(t, id))
  {
  }

  /** Archiving twice is archiving once, and the later of two flag updates wins. */
  lemma SetArchivedTwice(t: Tables, id: int, first: Value, second: Value)
    ensures SetArchived(SetArchived(t, id, first), id, second) == SetArchived(t, id, second)
  {
  }

  /** Setting the flag a row already has changes nothing; so unarchiving an
      archived row that was active restores the tables. */
  lemma SetArchivedUnchanged(t: Tables, id: int, flag: Value)
    requires id in t.snapshots ==> t.snapshots[id].archived == flag
    ensures SetArchived(t, id, flag) == t
  {
    if id in t.snapshots {
      assert t.snapshots[id].(archived := flag) == t.snapshots[id];
    }
  }

  /** A deleted snapshot is not found afterwards, and deleting is idempotent. */
  lemma DeleteSnapshotGone(t: Tables, id: int)
    ensures FindSnapshot(DeleteSnapshot(t, id), Some(id)).None?
    ensures DeleteSnapshot(DeleteSnapshot(t, id), id) == DeleteSnapshot(t, id)
  {
  }

  // ---------------------------------------------------------------------
  // INSERT statements with an explicit column list, as import-data builds them

  datatype Table = Snapshots | Validations | Diffs

  function TableName(table: Table): string {
    match table
    case Snapshots => "snapshots"
    case Validations => "validations"
    case Diffs => "diffs"
  }

  /** The columns CREATE TABLE declares, in order. */
  function Columns(table: Table): seq<string> {
    match table
    case Snapshots => ["id", "timestamp", "image", "dom", "metadata", "label", "tags", "env_info", "archived"]
    case Validations => ["id", "snapshot_id", "timestamp", "result"]
    case Diffs => ["id", "snapshot_id_a", "snapshot_id_b", "timestamp", "diff_image", "score"]
  }

  /** The table a name in a statement refers to; `None` when there is no such table. */
  function TableNamed(name: string): (r: Option<Table>)
    ensures r.Some? <==> name in {"snapshots", "validations", "diffs"}
    ensures r.Some? ==> TableName(r.value) == name
  {
    if name == "snapshots" then Some(Snapshots)
    else if name == "validations" then Some(Validations)
    else if name == "diffs" then Some(Diffs)
    else None
  }

  /** `INSERT INTO <tableName> (<columns joined by ",">) VALUES (<placeholders>)`. */
  datatype Insert = Insert(tableName: string, columns: seq<string>, placeholders: string)

  /** The statement's text. */
  function Sql(stmt: Insert): string {
    "INSERT INTO " + stmt.tableName + " (" + Text.Join(stmt.columns, ",")
      + ") VALUES (" + stmt.placeholders + ")"
  }

  /** `n` markers: `columns.map(() => "?").join(",")`. */
  function Placeholders(n: nat): string {
    Text.Join(seq(n, _ => "?"), ",")
  }

  /** How many parameter markers a VALUES list "?,...,?" holds; `None` when
      it is not such a list, which SQLite rejects as a syntax error. */
  function Markers(p: string): Option<nat>
    decreases |p|
  {
    if p == "?" then Some(1)
    else if |p| >= 2 && p[0] == '?' && p[1] == ',' then
      match Markers(p[2..])
      case Some(k) => Some(k + 1)
      case None => None
    else None
  }

  /** A list of `n` markers has `n` markers; an empty one is a syntax error. */
  lemma {:induction false} MarkersOfPlaceholders(n: nat)
    ensures Markers(Placeholders(n)) == if n == 0 then None else Some(n)
  {
    if n > 1 {
      var marks := seq(n, _ => "?");
      assert marks[1..] == seq(n - 1, _ => "?");
      assert Placeholders(n) == "?" + "," + Placeholders(n - 1);
      MarkersOfPlaceholders(n - 1);
    }
  }

  function IndexOf(xs: seq<string>, x: string): (r: nat)
    requires x in xs
    ensures r < |xs| && xs[r] == x
  {
    if xs[0] == x then 0 else 1 + IndexOf(xs[1..], x)
  }

  /** The value the statement binds to `column`: the parameter at the
      column's position (NULL when too few were bound), or the column's
      default when the statement does not name it. */
  function Cell(columns: seq<string>, params: seq<Value>, column: string, default: Value): Value {
    if column in columns then
      var i := IndexOf(columns, column);
      if i < |params| then params[i] else SqlNull
    else default
  }

  /** A named column takes the value bound at its position in the column
      list, or NULL when fewer values were bound; an unnamed one its default. */
  lemma CellByPosition(columns: seq<string>, params: seq<Value>, i: int, default: Value)
    requires NoDuplicates(columns) && 0 <= i < |columns|
    ensures Cell(columns, params, columns[i], default) == if i < |params| then params[i] else SqlNull
  {
    var j := IndexOf(columns, columns[i]);
    assert columns[j] == columns[i];
  }

  /** An explicit value for the INTEGER PRIMARY KEY: NULL asks for a fresh id. */
  function RowId(v: Value): Result<Option<int>> {
    match v
    case SqlNull => Ok(None)
    case SqlInt(k) => Ok(Some(k))
    case _ => Err("SQLITE_MISMATCH: datatype mismatch")
  }

  /** The columns a statement names that its table does not have. */
  function UnknownColumns(columns: seq<string>, table: Table): (r: seq<string>)
    ensures forall c :: c in r <==> c in columns && c !in Columns(table)
  {
    if columns == [] then []
    else (if columns[0] in Columns(table) then [] else [columns[0]]) + UnknownColumns(columns[1..], table)
  }

  /** Running an INSERT with the given parameters; `now` is CURRENT_TIMESTAMP,
      the default of every `timestamp` column. */
  function Execute(t: Tables, stmt: Insert, params: seq<Value>, now: string): (s: Step<int>)
    requires NoDuplicates(stmt.columns)
    ensures s.result.Err? ==> s.tables == t
    ensures s.result.Ok? ==> TableNamed(stmt.tableName).Some?
  {
    var marks := Markers(stmt.placeholders);
    if stmt.columns == [] then Step(Err(SqliteError + "near \")\": syntax error"), t)
    else if marks.None? then Step(Err(SqliteError + "syntax error"), t)
    else
      match TableNamed(stmt.tableName)
      case None => Step(Err(SqliteError + "no such table: " + stmt.tableName), t)
      case Some(table) => Prepared(t, table, stmt.columns, marks.value, params, now)
  }

  /** The statement once it parses and its table exists: every column it
      names must be one of the table's (SQLite resolves the names before it
      counts the values), the column list must match the markers, and at
      most one value per marker may be bound. */
  function Prepared(t: Tables, table: Table, columns: seq<string>, marks: nat, params: seq<Value>, now: string)
    : (s: Step<int>)
    requires NoDuplicates(columns)
    ensures s.result.Err? ==> s.tables == t
  {
    var unknown := UnknownColumns(columns, table);
    if unknown != [] then
      Step(Err(SqliteError + "table " + TableName(table) + " has no column named " + unknown[0]), t)
    else if marks != |columns| then
      Step(Err(SqliteError + Text.Decimal(marks) + " values for " + Text.Decimal(|columns|) + " columns"), t)
    else if |params| > marks then Step(Err("SQLITE_RANGE: column index out of range"), t)
    else
      match RowId(Cell(columns, params, "id", SqlNull))
      case Err(e) => Step(Err(e), t)
      case Ok(id) => InsertCells(t, table, id, columns, params, SqlText(now))
  }

  /** The row the statement inserts: each column takes its bound value, or
      its default when the statement does not name it. */
  function InsertCells(t: Tables, table: Table, id: Option<int>, cols: seq<string>, params: seq<Value>, now: Value)
    : (s: Step<int>)
    requires NoDuplicates(cols)
    ensures s.result.Err? ==> s.tables == t
  {
    match table
    case Snapshots =>
      InsertSnapshot(t, id, Snapshot(
        Cell(cols, params, "timestamp", now), Cell(cols, params, "image", SqlNull),
        Cell(cols, params, "dom", SqlNull), Cell(cols, params, "metadata", SqlNull),
        Cell(cols, params, "label", SqlNull), Cell(cols, params, "tags", SqlNull),
        Cell(cols, params, "env_info", SqlNull), Cell(cols, params, "archived", SqlInt(0))))
    case Validations =>
      InsertValidation(t, id, Cell(cols, params, "snapshot_id", SqlNull),
        Cell(cols, params, "timestamp", now), Cell(cols, params, "result", SqlNull))
    case Diffs =>
      InsertDiff(t, id, Cell(cols, params, "snapshot_id_a", SqlNull), Cell(cols, params, "snapshot_id_b", SqlNull),
        Cell(cols, params, "timestamp", now), Cell(cols, params, "diff_image", SqlNull),
        Cell(cols, params, "score", SqlNull))
  }

  lemma InsertCellsValid(t: Tables, table: Table, id: Option<int>, cols: seq<string>, params: seq<Value>, now: Value)
    requires NoDuplicates(cols) && Valid(t)
    ensures Valid(InsertCells(t, table, id, cols, params, now).tables)
  {
    match table
    case Snapshots =>
      InsertSnapshotValid(t, id, Snapshot(
        Cell(cols, params, "timestamp", now), Cell(cols, params, "image", SqlNull),
        Cell(cols, params, "dom", SqlNull), Cell(cols, params, "metadata", SqlNull),
        Cell(cols, params, "label", SqlNull), Cell(cols, params, "tags", SqlNull),
        Cell(cols, params, "env_info", SqlNull), Cell(cols, params, "archived", SqlInt(0))));
    case Validations =>
      InsertValidationValid(t, id, Cell(cols, params, "snapshot_id", SqlNull),
        Cell(cols, params, "timestamp", now), Cell(cols, params, "result", SqlNull));
    case Diffs =>
      InsertDiffValid(t, id, Cell(cols, params, "snapshot_id_a", SqlNull),
        Cell(cols, params, "snapshot_id_b", SqlNull), Cell(cols, params, "timestamp", now),
        Cell(cols, params, "diff_image", SqlNull), Cell(cols, params, "score", SqlNull));
  }

  /** Executing an INSERT changes no table but the one it names. */
  lemma ExecuteTouchesOneTable(t: Tables, stmt: Insert, params: seq<Value>, now: string)
    requires NoDuplicates(stmt.columns)
    ensures var target := TableNamed(stmt.tableName);
      var u := Execute(t, stmt, params, now).tables;
      && (target != Some(Snapshots) ==> u.snapshots == t.snapshots && u.snapshotSeq == t.snapshotSeq)
      && (target != Some(Validations) ==> u.validations == t.validations && u.validationSeq == t.validationSeq)
      && (target != Some(Diffs) ==> u.diffs == t.diffs && u.diffSeq == t.diffSeq)
  {
  }

  lemma ExecuteValid(t: Tables, stmt: Insert, params: seq<Value>, now: string)
    requires NoDuplicates(stmt.columns) && Valid(t)
    ensures Valid(Execute(t, stmt, params, now).tables)
  {
    var marks := Markers(stmt.placeholders);
    var target := TableNamed(stmt.tableName);
    if stmt.columns != [] && marks.Some? && target.Some? {
      var columns := stmt.columns;
      if marks.value == |columns| && UnknownColumns(columns, target.value) == [] && |params| <= marks.value {
        var id := RowId(Cell(columns, params, "id", SqlNull));
        if id.Ok? {
          InsertCellsValid(t, target.value, id.value, columns, params, SqlText(now));
        }
      }
    }
  }

  /** A successful INSERT into `snapshots` stores under the explicit id, or
      one above the sequence value, the bound value of every column it names
      and the default of every other: CURRENT_TIMESTAMP, 0 for `archived`,
      NULL otherwise. */
  lemma ExecuteWritesSnapshot(t: Tables, stmt: Insert, params: seq<Value>, now: string)
    requires NoDuplicates(stmt.columns) && TableNamed(stmt.tableName) == Some(Snapshots)
    requires Execute(t, stmt, params, now).result.Ok?
    ensures var s := Execute(t, stmt, params, now);
      var k := s.result.value;
      var given := Cell(stmt.columns, params, "id", SqlNull);
      var cols := stmt.columns;
      && k == (if given.SqlInt? then given.n else t.snapshotSeq + 1)
      && (given.SqlInt? ==> k !in t.snapshots)
      && k in s.tables.snapshots
      && s.tables.snapshots[k].timestamp == Cell(cols, params, "timestamp", SqlText(now))
      && s.tables.snapshots[k].image == Cell(cols, params, "image", SqlNull)
      && s.tables.snapshots[k].dom == Cell(cols, params, "dom", SqlNull)
      && s.tables.snapshots[k].metadata == Cell(cols, params, "metadata", SqlNull)
      && s.tables.snapshots[k].labelValue == Cell(cols, params, "label", SqlNull)
      && s.tables.snapshots[k].tags == Cell(cols, params, "tags", SqlNull)
      && s.tables.snapshots[k].envInfo == Cell(cols, params, "env_info", SqlNull)
      && s.tables.snapshots[k].archived == Cell(cols, params, "archived", SqlInt(0))
      && (forall j :: j in t.snapshots && j != k ==> j in s.tables.snapshots && s.tables.snapshots[j] == t.snapshots[j])
      && s.tables.snapshotSeq == Max(t.snapshotSeq, k)
  {
  }

  /** A successful INSERT into `validations` appends one row holding the
      bound value of every column it names and the default of every other. */
  lemma ExecuteWritesValidation(t: Tables, stmt: Insert, params: seq<Value>, now: string)
    requires NoDuplicates(stmt.columns) && TableNamed(stmt.tableName) == Some(Validations)
    requires Execute(t, stmt, params, now).result.Ok?
    ensures var s := Execute(t, stmt, params, now);
      var k := s.result.value;
      var given := Cell(stmt.columns, params, "id", SqlNull);
      var cols := stmt.columns;
      && k == (if given.SqlInt? then given.n else t.validationSeq + 1)
      && (given.SqlInt? ==> k !in ValidationIds(t.validations))
      && s.tables.validations == t.validations + [ValidationRow(k,
           Cell(cols, params, "snapshot_id", SqlNull), Cell(cols, params, "timestamp", SqlText(now)),
           Cell(cols, params, "result", SqlNull))]
      && s.tables.validationSeq == Max(t.validationSeq, k)
  {
  }

  /** A successful INSERT into `diffs` appends one row holding the bound
      value of every column it names and the default of every other. */
  lemma ExecuteWritesDiff(t: Tables, stmt: Insert, params: seq<Value>, now: string)
    requires NoDuplicates(stmt.columns) && TableNamed(stmt.tableName) == Some(Diffs)
    requires Execute(t, stmt, params, now).result.Ok?
    ensures var s := Execute(t, stmt, params, now);
      var k := s.result.value;
      var given := Cell(stmt.columns, params, "id", SqlNull);
      var cols := stmt.columns;
      && k == (if given.SqlInt? then given.n else t.diffSeq + 1)
      && (given.SqlInt? ==> k !in DiffIds(t.diffs))
      && s.tables.diffs == t.diffs + [DiffRow(k,
           Cell(cols, params, "snapshot_id_a", SqlNull), Cell(cols, params, "snapshot_id_b", SqlNull),
           Cell(cols, params, "timestamp", SqlText(now)), Cell(cols, params, "diff_image", SqlNull),
           Cell(cols, params, "score", SqlNull))]
      && s.tables.diffSeq == Max(t.diffSeq, k)
  {
  }
}
