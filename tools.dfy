/** The MCP tool handlers of the server: `take_snapshot`, `validate_snapshot`
    and `compare_snapshots`, and the switch on the tool name. Each handler is a
    function giving its result and the tables afterwards, and a method that
    performs it on the store. The browser and the PNG/pixelmatch libraries are
    parameters. */
module Tools {
  import opened Wrappers
  import opened Json
  import Text
  import opened Database
  import opened Store
  import opened Validation

  /** What the headless browser yields for a URL: `page.content()` and the
      full-page screenshot; an error when navigation fails. */
  datatype Page = Page(dom: string, screenshot: seq<byte>)

  /** What decoding both PNGs and running pixelmatch yields: the encoded diff
      image and the number of mismatched pixels. */
  datatype PixelDiff = PixelDiff(diffImage: seq<byte>, mismatched: nat)

  /** `request.params.arguments ?? {}`. */
  function Arguments(arguments: Option<Json>): (args: Json)
    ensures arguments.None? || arguments == Some(JNull) ==> args == JObj([])
    ensures arguments.Some? && !arguments.value.JNull? ==> args == arguments.value
  {
    if arguments.None? || arguments.value.JNull? then JObj([]) else arguments.value
  }

  /** A tool result `{content: [{type: "text", text}]}`. */
  function TextContent(text: string): Json {
    JObj([("content", JArr([JObj([("type", JStr("text")), ("text", JStr(text))])]))])
  }

  // ---------------------------------------------------------------------
  // take_snapshot

  /** `String(args.url)`. */
  function UrlArg(args: Json): string {
    ToJsString(Get(args, "url"))
  }

  /** `args.x ? String(args.x) : null`. */
  function OptionalString(v: Option<Json>): (r: Value)
    ensures r == SqlNull <==> !Truthy(v)
  {
    if Truthy(v) then SqlText(ToJsString(v)) else SqlNull
  }

  /** `args.x ? JSON.stringify(args.x) : null`. */
  function OptionalJson(v: Option<Json>): (r: Value)
    ensures r == SqlNull <==> !Truthy(v)
  {
    if Truthy(v) then SqlText(Stringify(v.value)) else SqlNull
  }

  /** The row that `INSERT INTO snapshots (image, dom, metadata, label, tags,
      env_info)` writes; `timestamp` and `archived` take their defaults. */
  function SnapshotRow(args: Json, page: Page, now: string): (row: Snapshot)
    ensures row.dom == SqlText(page.dom) && row.image == SqlBlob(page.screenshot)
    ensures row.metadata == SqlText(Stringify(JObj([("url", JStr(UrlArg(args)))])))
    ensures row.labelValue == SqlNull <==> !Truthy(Get(args, "label"))
    ensures row.tags == SqlNull <==> !Truthy(Get(args, "tags"))
    ensures row.envInfo == SqlNull <==> !Truthy(Get(args, "env_info"))
    ensures row.archived == SqlInt(0) && row.timestamp == SqlText(now)
  {
    Snapshot(SqlText(now), SqlBlob(page.screenshot), SqlText(page.dom),
             SqlText(Stringify(JObj([("url", JStr(UrlArg(args)))]))),
             OptionalString(Get(args, "label")), OptionalJson(Get(args, "tags")),
             OptionalJson(Get(args, "env_info")), SqlInt(0))
  }

  /** `JSON.stringify({snapshot_id: id})`. */
  function SnapshotIdText(id: int): string {
    Stringify(JObj([("snapshot_id", JNum(id))]))
  }

  function TakeSnapshotSpec(t: Tables, args: Json, capture: string -> Result<Page>, now: string): Step<Json> {
    match capture(UrlArg(args))
    case Err(e) => Step(Err(e), t)
    case Ok(page) =>
      var ins := Database.InsertSnapshot(t, None, SnapshotRow(args, page, now));
      Step(Ok(TextContent(SnapshotIdText(ins.result.value))), ins.tables)
  }

  method TakeSnapshot(store: SnapshotStore, args: Json, capture: string -> Result<Page>, now: string)
    returns (r: Result<Json>)
    requires store.Valid()
    modifies store
    ensures store.Valid()
    ensures Step(r, store.State()) == TakeSnapshotSpec(old(store.State()), args, capture, now)
  {
    var page := capture(UrlArg(args));
    if page.Err? {
      return Err(page.error);
    }
    var id := store.InsertSnapshot(None, SnapshotRow(args, page.value, now));
    r := Ok(TextContent(SnapshotIdText(id.value)));
  }

  /** A failed capture writes nothing and passes the browser's error on. */
  lemma TakeSnapshotCaptureFails(t: Tables, args: Json, capture: string -> Result<Page>, now: string)
    requires capture(UrlArg(args)).Err?
    ensures TakeSnapshotSpec(t, args, capture, now) == Step(Err(capture(UrlArg(args)).error), t)
  {
  }

  /** A capture inserts one row under a fresh id, one above every id used
      before, and reports that id; the stored dom and image are the captured
      ones and no other table changes. */
  lemma TakeSnapshotInserts(t: Tables, args: Json, capture: string -> Result<Page>, now: string)
    requires Database.Valid(t) && capture(UrlArg(args)).Ok?
    ensures var s := TakeSnapshotSpec(t, args, capture, now);
      var page := capture(UrlArg(args)).value;
      var id := t.snapshotSeq + 1;
      && Database.Valid(s.tables)
      && id !in t.snapshots
      && s.result == Ok(TextContent(SnapshotIdText(id)))
      && s.tables.snapshots == t.snapshots[id := SnapshotRow(args, page, now)]
      && s.tables.validations == t.validations && s.tables.diffs == t.diffs
      && FindSnapshot(s.tables, Some(id)) == Some(SnapshotRow(args, page, now))
  {
    var row := SnapshotRow(args, capture(UrlArg(args)).value, now);
    var ins := Database.InsertSnapshot(t, None, row);
    InsertSnapshotValid(t, None, row);
    assert ins.result == Ok(t.snapshotSeq + 1);
    assert TakeSnapshotSpec(t, args, capture, now) ==
      Step(Ok(TextContent(SnapshotIdText(t.snapshotSeq + 1))), ins.tables);
  }

  // ---------------------------------------------------------------------
  // validate_snapshot

  /** `Array.isArray(args.rules) ? args.rules : []`. */
  function RulesArg(args: Json): (rules: seq<Json>)
    ensures (match Get(args, "rules") case Some(JArr(_)) => false case _ => true) ==> rules == []
  {
    match Get(args, "rules")
    case Some(JArr(items)) => items
    case _ => []
  }

  /** `args.profile ? String(args.profile) : null`. */
  function ProfileArg(args: Json): (profile: Json)
    ensures profile == JNull <==> !Truthy(Get(args, "profile"))
  {
    var p := Get(args, "profile");
    if Truthy(p) then JStr(ToJsString(p)) else JNull
  }

  /** `{profile, rules: results}`. */
  function PayloadJson(profile: Json, results: seq<RuleResult>): Json {
    JObj([("profile", profile), ("rules", JArr(seq(|results|, i requires 0 <= i < |results| => RuleJson(results[i]))))])
  }

  /** `JSON.stringify({profile, rules: results})`: the text both stored and returned. */
  function ValidationText(profile: Json, results: seq<RuleResult>): string {
    Stringify(PayloadJson(profile, results))
  }

  const SnapshotNotFound := "Snapshot not found"

  function ValidateSpec(t: Tables, args: Json, now: string): Step<Json> {
    ValidateId(t, ToNumber(Get(args, "snapshot_id")), RulesArg(args), ProfileArg(args), now)
  }

  /** The handler once the arguments are converted. */
  function ValidateId(t: Tables, id: Option<int>, rules: seq<Json>, profile: Json, now: string): Step<Json> {
    match FindSnapshot(t, id)
    case None => Step(Err(SnapshotNotFound), t)
    case Some(row) =>
      match EvaluateRules(row.dom, rules)
      case Err(e) => Step(Err(e), t)
      case Ok(results) =>
        var text := ValidationText(profile, results);
        var ins := Database.InsertValidation(t, None, SqlInt(id.value), SqlText(now), SqlText(text));
        Step(Ok(TextContent(text)), ins.tables)
  }

  method ValidateSnapshot(store: SnapshotStore, args: Json, now: string) returns (r: Result<Json>)
    requires store.Valid()
    modifies store
    ensures store.Valid()
    ensures Step(r, store.State()) == ValidateSpec(old(store.State()), args, now)
  {
    var id := ToNumber(Get(args, "snapshot_id"));
    var rules := RulesArg(args);
    var profile := ProfileArg(args);
    var row := FindSnapshot(store.State(), id);
    if row.None? {
      return Err(SnapshotNotFound);
    }
    var results := RunRules(row.value.dom, rules);
    if results.Err? {
      return Err(results.error);
    }
    var text := ValidationText(profile, results.value);
    var _ := store.InsertValidation(None, SqlInt(id.value), SqlText(now), SqlText(text));
    r := Ok(TextContent(text));
  }

  /** An id with no snapshot row fails with "Snapshot not found" and writes nothing. */
  lemma ValidateNotFound(t: Tables, args: Json, now: string)
    requires FindSnapshot(t, ToNumber(Get(args, "snapshot_id"))).None?
    ensures ValidateSpec(t, args, now) == Step(Err(SnapshotNotFound), t)
  {
  }

  /** When the rule loop fails (a null rule, or a DOM that is not text while
      there are rules), its error is passed on and nothing is written. */
  lemma ValidateRulesFail(t: Tables, args: Json, now: string)
    requires var id := ToNumber(Get(args, "snapshot_id"));
      && id.Some? && id.value in t.snapshots
      && EvaluateRules(t.snapshots[id.value].dom, RulesArg(args)).Err?
    ensures ValidateSpec(t, args, now).result.Err? && ValidateSpec(t, args, now).tables == t
  {
  }

  /** When the snapshot exists and the rule loop succeeds, exactly one
      `validations` row is appended, for that snapshot id, under a fresh id,
      whose stored result is the very text returned to the caller: the
      profile and the loop's results (see `EvaluateRulesResults` for what each
      entry holds). Snapshots and diffs are untouched. */
  lemma ValidateRecords(t: Tables, args: Json, now: string)
    requires var id := ToNumber(Get(args, "snapshot_id"));
      && id.Some? && id.value in t.snapshots
      && EvaluateRules(t.snapshots[id.value].dom, RulesArg(args)).Ok?
    ensures var id := ToNumber(Get(args, "snapshot_id")).value;
      var text := ValidationText(ProfileArg(args), EvaluateRules(t.snapshots[id].dom, RulesArg(args)).value);
      && ValidateSpec(t, args, now).result == Ok(TextContent(text))
      && ValidateSpec(t, args, now).tables ==
           t.(validations := t.validations + [ValidationRow(t.validationSeq + 1, SqlInt(id), SqlText(now), SqlText(text))],
              validationSeq := t.validationSeq + 1)
  {
    ValidateIdRecords(t, ToNumber(Get(args, "snapshot_id")).value, RulesArg(args), ProfileArg(args), now);
  }

  lemma ValidateIdRecords(t: Tables, id: int, rules: seq<Json>, profile: Json, now: string)
    requires id in t.snapshots && EvaluateRules(t.snapshots[id].dom, rules).Ok?
    ensures var text := ValidationText(profile, EvaluateRules(t.snapshots[id].dom, rules).value);
      ValidateId(t, Some(id), rules, profile, now) ==
        Step(Ok(TextContent(text)),
             t.(validations := t.validations + [ValidationRow(t.validationSeq + 1, SqlInt(id), SqlText(now), SqlText(text))],
                validationSeq := t.validationSeq + 1))
  {
    var results := EvaluateRules(t.snapshots[id].dom, rules).value;
    var text := ValidationText(profile, results);
    InsertValidationFresh(t, SqlInt(id), SqlText(now), SqlText(text));
    var ins := Database.InsertValidation(t, None, SqlInt(id), SqlText(now), SqlText(text));
    assert ValidateId(t, Some(id), rules, profile, now) == Step(Ok(TextContent(text)), ins.tables);
  }

  /** validate_snapshot keeps the tables' ids unique. */
  lemma ValidateValid(t: Tables, args: Json, now: string)
    requires Database.Valid(t)
    ensures Database.Valid(ValidateSpec(t, args, now).tables)
  {
    var id := ToNumber(Get(args, "snapshot_id"));
    if id.Some? && id.value in t.snapshots && EvaluateRules(t.snapshots[id.value].dom, RulesArg(args)).Ok? {
      ValidateRecords(t, args, now);
      var text := ValidationText(ProfileArg(args), EvaluateRules(t.snapshots[id.value].dom, RulesArg(args)).value);
      InsertValidationValid(t, None, SqlInt(id.value), SqlText(now), SqlText(text));
    }
  }

  /** With no rules array the stored payload has an empty rule list, and the
      validation succeeds whatever the snapshot's `dom` cell holds. */
  lemma ValidateWithoutRules(t: Tables, args: Json, now: string)
    requires Get(args, "rules").None?
    requires FindSnapshot(t, ToNumber(Get(args, "snapshot_id"))).Some?
    ensures ValidateSpec(t, args, now).result == Ok(TextContent(ValidationText(ProfileArg(args), [])))
  {
    assert RulesArg(args) == [];
  }

  // ---------------------------------------------------------------------
  // compare_snapshots

  /** `args.threshold !== undefined ? Number(args.threshold) : 0.1`, with
      `None` standing for NaN. */
  function ThresholdArg(args: Json): (threshold: Option<real>)
    ensures Get(args, "threshold").None? ==> threshold == Some(0.1)
    ensures Get(args, "threshold") == Some(JNull) ==> threshold == Some(0.0)
  {
    match Get(args, "threshold")
    case None => Some(0.1)
    case Some(v) =>
      match ToNumber(Some(v))
      case Some(n) => Some(n as real)
      case None => None
  }

  /** `JSON.stringify({score})`. */
  function ScoreText(score: nat): string {
    Stringify(JObj([("score", JNum(score))]))
  }

  const SnapshotsNotFound := "Snapshots not found"

  function CompareSpec(t: Tables, args: Json, differ: (Value, Value, Option<real>) -> Result<PixelDiff>, now: string)
    : Step<Json>
  {
    CompareIds(t, ToNumber(Get(args, "snapshot_id_a")), ToNumber(Get(args, "snapshot_id_b")), ThresholdArg(args),
               differ, now)
  }

  /** The handler once `Number()` and the threshold default are applied. */
  function CompareIds(t: Tables, idA: Option<int>, idB: Option<int>, threshold: Option<real>,
                      differ: (Value, Value, Option<real>) -> Result<PixelDiff>, now: string): Step<Json>
  {
    var rowA := FindSnapshot(t, idA);
    var rowB := FindSnapshot(t, idB);
    if rowA.None? || rowB.None? then Step(Err(SnapshotsNotFound), t)
    else
      match differ(rowA.value.image, rowB.value.image, threshold)
      case Err(e) => Step(Err(e), t)
      case Ok(d) =>
        var ins := Database.InsertDiff(t, None, SqlInt(idA.value), SqlInt(idB.value), SqlText(now),
                                       SqlBlob(d.diffImage), SqlReal(d.mismatched as real));
        Step(Ok(TextContent(ScoreText(d.mismatched))), ins.tables)
  }

  method CompareSnapshots(store: SnapshotStore, args: Json, differ: (Value, Value, Option<real>) -> Result<PixelDiff>,
                          now: string)
    returns (r: Result<Json>)
    requires store.Valid()
    modifies store
    ensures store.Valid()
    ensures Step(r, store.State()) == CompareSpec(old(store.State()), args, differ, now)
  {
    var idA := ToNumber(Get(args, "snapshot_id_a"));
    var idB := ToNumber(Get(args, "snapshot_id_b"));
    var threshold := ThresholdArg(args);
    var rowA := FindSnapshot(store.State(), idA);
    var rowB := FindSnapshot(store.State(), idB);
    if rowA.None? || rowB.None? {
      return Err(SnapshotsNotFound);
    }
    var d := differ(rowA.value.image, rowB.value.image, threshold);
    if d.Err? {
      return Err(d.error);
    }
    var _ := store.InsertDiff(None, SqlInt(idA.value), SqlInt(idB.value), SqlText(now),
                              SqlBlob(d.value.diffImage), SqlReal(d.value.mismatched as real));
    r := Ok(TextContent(ScoreText(d.value.mismatched)));
  }

  /** If either id has no snapshot row, the comparison fails and writes nothing. */
  lemma CompareNotFound(t: Tables, args: Json, differ: (Value, Value, Option<real>) -> Result<PixelDiff>, now: string)
    requires FindSnapshot(t, ToNumber(Get(args, "snapshot_id_a"))).None?
          || FindSnapshot(t, ToNumber(Get(args, "snapshot_id_b"))).None?
    ensures CompareSpec(t, args, differ, now) == Step(Err(SnapshotsNotFound), t)
  {
  }

  /** A failure of the image comparison is passed on and writes nothing. */
  lemma CompareDifferFails(t: Tables, args: Json, differ: (Value, Value, Option<real>) -> Result<PixelDiff>, now: string)
    requires var idA := ToNumber(Get(args, "snapshot_id_a"));
      var idB := ToNumber(Get(args, "snapshot_id_b"));
      && idA.Some? && idA.value in t.snapshots && idB.Some? && idB.value in t.snapshots
      && differ(t.snapshots[idA.value].image, t.snapshots[idB.value].image, ThresholdArg(args)).Err?
    ensures CompareSpec(t, args, differ, now).result.Err? && CompareSpec(t, args, differ, now).tables == t
  {
  }

  /** When both snapshots exist and the images compare, exactly one `diffs`
      row is appended, with the two ids in argument order, the diff image and
      as score the mismatch count, which is also what is returned; A's image
      is the reference and no size check of its own is made. */
  lemma CompareRecords(t: Tables, args: Json, differ: (Value, Value, Option<real>) -> Result<PixelDiff>, now: string)
    requires var idA := ToNumber(Get(args, "snapshot_id_a"));
      var idB := ToNumber(Get(args, "snapshot_id_b"));
      && idA.Some? && idA.value in t.snapshots && idB.Some? && idB.value in t.snapshots
      && differ(t.snapshots[idA.value].image, t.snapshots[idB.value].image, ThresholdArg(args)).Ok?
    ensures var idA := ToNumber(Get(args, "snapshot_id_a")).value;
      var idB := ToNumber(Get(args, "snapshot_id_b")).value;
      var d := differ(t.snapshots[idA].image, t.snapshots[idB].image, ThresholdArg(args)).value;
      && CompareSpec(t, args, differ, now).result == Ok(TextContent(ScoreText(d.mismatched)))
      && CompareSpec(t, args, differ, now).tables ==
           t.(diffs := t.diffs + [DiffRow(t.diffSeq + 1, SqlInt(idA), SqlInt(idB), SqlText(now),
                                          SqlBlob(d.diffImage), SqlReal(d.mismatched as real))],
              diffSeq := t.diffSeq + 1)
  {
    CompareIdsRecords(t, ToNumber(Get(args, "snapshot_id_a")).value, ToNumber(Get(args, "snapshot_id_b")).value,
                      ThresholdArg(args), differ, now);
  }

  lemma CompareIdsRecords(t: Tables, idA: int, idB: int, threshold: Option<real>,
                          differ: (Value, Value, Option<real>) -> Result<PixelDiff>, now: string)
    requires idA in t.snapshots && idB in t.snapshots
    requires differ(t.snapshots[idA].image, t.snapshots[idB].image, threshold).Ok?
    ensures var d := differ(t.snapshots[idA].image, t.snapshots[idB].image, threshold).value;
      CompareIds(t, Some(idA), Some(idB), threshold, differ, now) ==
        Step(Ok(TextContent(ScoreText(d.mismatched))),
             t.(diffs := t.diffs + [DiffRow(t.diffSeq + 1, SqlInt(idA), SqlInt(idB), SqlText(now),
                                            SqlBlob(d.diffImage), SqlReal(d.mismatched as real))],
                diffSeq := t.diffSeq + 1))
  {
    var d := differ(t.snapshots[idA].image, t.snapshots[idB].image, threshold).value;
    var ins := Database.InsertDiff(t, None, SqlInt(idA), SqlInt(idB), SqlText(now),
                                   SqlBlob(d.diffImage), SqlReal(d.mismatched as real));
    assert ins.result == Ok(t.diffSeq + 1);
  }

  /** compare_snapshots keeps the tables' ids unique. */
  lemma CompareValid(t: Tables, args: Json, differ: (Value, Value, Option<real>) -> Result<PixelDiff>, now: string)
    requires Database.Valid(t)
    ensures Database.Valid(CompareSpec(t, args, differ, now).tables)
  {
    var idA := ToNumber(Get(args, "snapshot_id_a"));
    var idB := ToNumber(Get(args, "snapshot_id_b"));
    if idA.Some? && idA.value in t.snapshots && idB.Some? && idB.value in t.snapshots {
      var d := differ(t.snapshots[idA.value].image, t.snapshots[idB.value].image, ThresholdArg(args));
      if d.Ok? {
        CompareRecords(t, args, differ, now);
        InsertDiffValid(t, None, SqlInt(idA.value), SqlInt(idB.value), SqlText(now),
                        SqlBlob(d.value.diffImage), SqlReal(d.value.mismatched as real));
      }
    }
  }

  // ---------------------------------------------------------------------
  // the tool switch

  datatype Tool = TakeSnapshotTool | ValidateSnapshotTool | CompareSnapshotsTool

  /** `switch (name)`: the three tool names, and `Unknown tool: <name>` otherwise. */
  function ToolNamed(name: string): (r: Result<Tool>)
    ensures r == Ok(TakeSnapshotTool) <==> name == "take_snapshot"
    ensures r == Ok(ValidateSnapshotTool) <==> name == "validate_snapshot"
    ensures r == Ok(CompareSnapshotsTool) <==> name == "compare_snapshots"
    ensures r.Err? ==> r.error == "Unknown tool: " + name
  {
    if name == "take_snapshot" then Ok(TakeSnapshotTool)
    else if name == "validate_snapshot" then Ok(ValidateSnapshotTool)
    else if name == "compare_snapshots" then Ok(CompareSnapshotsTool)
    else Err("Unknown tool: " + name)
  }

  function CallToolSpec(t: Tables, name: string, arguments: Option<Json>, capture: string -> Result<Page>,
                        differ: (Value, Value, Option<real>) -> Result<PixelDiff>, now: string): Step<Json>
  {
    var args := Arguments(arguments);
    match ToolNamed(name)
    case Err(e) => Step(Err(e), t)
    case Ok(TakeSnapshotTool) => TakeSnapshotSpec(t, args, capture, now)
    case Ok(ValidateSnapshotTool) => ValidateSpec(t, args, now)
    case Ok(CompareSnapshotsTool) => CompareSpec(t, args, differ, now)
  }

  /** The CallToolRequest handler. */
  method CallTool(store: SnapshotStore, name: string, arguments: Option<Json>, capture: string -> Result<Page>,
                  differ: (Value, Value, Option<real>) -> Result<PixelDiff>, now: string)
    returns (r: Result<Json>)
    requires store.Valid()
    modifies store
    ensures store.Valid()
    ensures Step(r, store.State()) == CallToolSpec(old(store.State()), name, arguments, capture, differ, now)
  {
    var args := Arguments(arguments);
    var tool := ToolNamed(name);
    match tool
    case Err(e) => r := Err(e);
    case Ok(TakeSnapshotTool) => r := TakeSnapshot(store, args, capture, now);
    case Ok(ValidateSnapshotTool) => r := ValidateSnapshot(store, args, now);
    case Ok(CompareSnapshotsTool) => r := CompareSnapshots(store, args, differ, now);
  }

  /** An unknown tool name fails with "Unknown tool: <name>" and changes no table. */
  lemma UnknownToolChangesNothing(t: Tables, name: string, arguments: Option<Json>, capture: string -> Result<Page>,
                                  differ: (Value, Value, Option<real>) -> Result<PixelDiff>, now: string)
    requires name !in {"take_snapshot", "validate_snapshot", "compare_snapshots"}
    ensures CallToolSpec(t, name, arguments, capture, differ, now) == Step(Err("Unknown tool: " + name), t)
  {
  }

  /** Every tool call keeps the tables' ids unique. */
  lemma CallToolValid(t: Tables, name: string, arguments: Option<Json>, capture: string -> Result<Page>,
                      differ: (Value, Value, Option<real>) -> Result<PixelDiff>, now: string)
    requires Database.Valid(t)
    ensures Database.Valid(CallToolSpec(t, name, arguments, capture, differ, now).tables)
  {
    var args := Arguments(arguments);
    match ToolNamed(name)
    case Err(_) =>
    case Ok(TakeSnapshotTool) =>
      if capture(UrlArg(args)).Ok? {
        TakeSnapshotInserts(t, args, capture, now);
      }
    case Ok(ValidateSnapshotTool) => ValidateValid(t, args, now);
    case Ok(CompareSnapshotsTool) => CompareValid(t, args, differ, now);
  }
}
