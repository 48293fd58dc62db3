/** The open database handle: the three tables and their AUTOINCREMENT
    counters as fields that each statement updates in place. */
module Store {
  import opened Wrappers
  import opened Database
  import Text

  class SnapshotStore {
    var snapshots: map<int, Snapshot>
    var validations: seq<ValidationRow>
    var diffs: seq<DiffRow>
    var snapshotSeq: int
    var validationSeq: int
    var diffSeq: int

    /** The tables as a value. */
    function State(): Tables
      reads this
    {
      Tables(snapshots, validations, diffs, snapshotSeq, validationSeq, diffSeq)
    }

    ghost predicate Valid()
      reads this
    {
      Database.Valid(State())
    }

    /** Opening a new database file: CREATE TABLE IF NOT EXISTS on nothing. */
    constructor ()
      ensures Valid() && State() == Empty
    {
      snapshots, validations, diffs := map[], [], [];
      snapshotSeq, validationSeq, diffSeq := 0, 0, 0;
    }

    method InsertSnapshot(id: Option<int>, row: Snapshot) returns (r: Result<int>)
      requires Valid()
      modifies this
      ensures Valid()
      ensures Step(r, State()) == Database.InsertSnapshot(old(State()), id, row)
    {
      InsertSnapshotValid(State(), id, row);
      var k := if id.Some? then id.value else snapshotSeq + 1;
      if k in snapshots {
        return Err(NotUnique + ": snapshots.id");
      }
      snapshots := snapshots[k := row];
      snapshotSeq := Max(snapshotSeq, k);
      r := Ok(k);
    }

    method InsertValidation(id: Option<int>, snapshotId: Value, timestamp: Value, result: Value)
      returns (r: Result<int>)
      requires Valid()
      modifies this
      ensures Valid()
      ensures Step(r, State()) == Database.InsertValidation(old(State()), id, snapshotId, timestamp, result)
    {
      InsertValidationValid(State(), id, snapshotId, timestamp, result);
      var k := if id.Some? then id.value else validationSeq + 1;
      if id.Some? && k in ValidationIds(validations) {
        return Err(NotUnique + ": validations.id");
      }
      validations := validations + [ValidationRow(k, snapshotId, timestamp, result)];
      validationSeq := Max(validationSeq, k);
      r := Ok(k);
    }

    method InsertDiff(id: Option<int>, idA: Value, idB: Value, timestamp: Value, diffImage: Value, score: Value)
      returns (r: Result<int>)
      requires Valid()
      modifies this
      ensures Valid()
      ensures Step(r, State()) == Database.InsertDiff(old(State()), id, idA, idB, timestamp, diffImage, score)
    {
      InsertDiffValid(State(), id, idA, idB, timestamp, diffImage, score);
      var k := if id.Some? then id.value else diffSeq + 1;
      if id.Some? && k in DiffIds(diffs) {
        return Err(NotUnique + ": diffs.id");
      }
      diffs := diffs + [DiffRow(k, idA, idB, timestamp, diffImage, score)];
      diffSeq := Max(diffSeq, k);
      r := Ok(k);
    }

    /** `UPDATE snapshots SET archived = ? WHERE id = ?`. */
    method SetArchived(id: int, flag: Value)
      requires Valid()
      modifies this
      ensures Valid()
      ensures State() == Database.SetArchived(old(State()), id, flag)
    {
      SetArchivedValid(State(), id, flag);
      if id in snapshots {
        snapshots := snapshots[id := snapshots[id].(archived := flag)];
      }
    }

    /** `DELETE FROM snapshots WHERE id = ?`. */
    method Delete(id: int)
      requires Valid()
      modifies this
      ensures Valid()
      ensures State() == Database.DeleteSnapshot(old(State()), id)
    {
      DeleteSnapshotValid(State(), id);
      snapshots := snapshots - {id};
    }

    /** `db.run(stmt, ...params)` for an INSERT with a column list. */
    method Run(stmt: Insert, params: seq<Value>, now: string) returns (r: Result<int>)
      requires Valid() && NoDuplicates(stmt.columns)
      modifies this
      ensures Valid()
      ensures Step(r, State()) == Execute(old(State()), stmt, params, now)
    {
      ExecuteValid(State(), stmt, params, now);
      var marks := Markers(stmt.placeholders);
      if stmt.columns == [] {
        return Err(SqliteError + "near \")\": syntax error");
      } else if marks.None? {
        return Err(SqliteError + "syntax error");
      }
      var target := TableNamed(stmt.tableName);
      if target.None? {
        return Err(SqliteError + "no such table: " + stmt.tableName);
      }
      var table := target.value;
      var unknown := UnknownColumns(stmt.columns, table);
      if unknown != [] {
        return Err(SqliteError + "table " + TableName(table) + " has no column named " + unknown[0]);
      } else if marks.value != |stmt.columns| {
        return Err(SqliteError + Text.Decimal(marks.value) + " values for " + Text.Decimal(|stmt.columns|) + " columns");
      } else if |params| > marks.value {
        return Err("SQLITE_RANGE: column index out of range");
      }
      var cols := stmt.columns;
      var nowCell := SqlText(now);
      var id := RowId(Cell(cols, params, "id", SqlNull));
      if id.Err? {
        return Err(id.error);
      }
      match table
      case Snapshots =>
        r := InsertSnapshot(id.value, Snapshot(
          Cell(cols, params, "timestamp", nowCell), Cell(cols, params, "image", SqlNull),
          Cell(cols, params, "dom", SqlNull), Cell(cols, params, "metadata", SqlNull),
          Cell(cols, params, "label", SqlNull), Cell(cols, params, "tags", SqlNull),
          Cell(cols, params, "env_info", SqlNull), Cell(cols, params, "archived", SqlInt(0))));
      case Validations =>
        r := InsertValidation(id.value, Cell(cols, params, "snapshot_id", SqlNull),
          Cell(cols, params, "timestamp", nowCell), Cell(cols, params, "result", SqlNull));
      case Diffs =>
        r := InsertDiff(id.value, Cell(cols, params, "snapshot_id_a", SqlNull),
          Cell(cols, params, "snapshot_id_b", SqlNull), Cell(cols, params, "timestamp", nowCell),
          Cell(cols, params, "diff_image", SqlNull), Cell(cols, params, "score", SqlNull));
    }
  }
}
