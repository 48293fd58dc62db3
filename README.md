# Sightline record store, rule check, dispatcher and panel filter

Sightline is a UI-snapshot regression tool. An MCP server captures a page's
DOM and a full-page screenshot into a SQLite file, checks stored DOMs against
rules, and records pixel diffs between two snapshots. A command-line tool
edits the same file: archive, unarchive, delete, validate, compare, import.
A VS Code side panel lists the snapshots and filters them by a search box.

This Dafny project models:

- **The database** (`database.dfy`, `store.dfy`).
  - Three tables: `snapshots` (a map from id to row), `validations` and `diffs` (sequences of rows).
  - Each table has an AUTOINCREMENT counter, the largest id it ever assigned.
  - Cells are SQLite values: NULL, INTEGER, REAL, TEXT or BLOB.
  - The pure functions in `Database` say what each statement does to the tables.
  - The class `Store.SnapshotStore` holds the tables as fields. Its methods update those fields in place and are proved equal to the pure functions.
  - The invariant kept throughout is that ids are unique and never above their table's counter.
- **The MCP tool handlers** (`tools.dfy`).
  - `take_snapshot`, `validate_snapshot` and `compare_snapshots`, plus the switch on the tool name.
  - Each handler is a method on the store, proved against a specification function.
  - The browser capture and the PNG/pixelmatch comparison are function parameters.
- **The validation rule check** (`validation.dfy`).
  - A rule is found iff the DOM text contains the selector string and also contains the expected text.
  - The two substrings are checked independently; no selector is matched against elements.
  - The `for` loop that collects the results is a method, proved against a recursive specification.
- **The CLI commands that write** (`cli.dfy`).
  - archive-snapshot, unarchive-snapshot, delete-snapshot, validate-snapshot, compare-snapshots, and import-data.
  - import-data builds one INSERT from the keys of the first row, then runs it once per row in a loop.
- **The JSON-RPC dispatcher** (`rpc.dfy`).
  - Routes `list_tools` and `call_tool`; any other method is an error.
  - The response echoes the id and holds exactly one of `result` or `error`.
- **The panel's `filterSnapshots`** (`panel.dfy`): a case-insensitive substring filter.
- **Shared pieces**:
  - `json.dfy` covers JavaScript values and the JavaScript operations the code applies to them: property read, truthiness, `String()`, `Number()`, `Object.keys`, `JSON.stringify`.
  - `text.dfy` covers `includes`, `toLowerCase` and decimal text.
  - `wrappers.dfy` holds Option and Result.

Where a JavaScript statement throws, the model returns `Err` with the message
and leaves the tables as they were before that statement. A database error's
message is the one the sqlite3 driver builds: the result code, a colon, then
SQLite's text, as in `SQLITE_CONSTRAINT: UNIQUE constraint failed: snapshots.id`. A statement that
already ran stays applied: for example, the rows imported before a failing row
stay in the table.

## Model

| member | source | states |
|---|---|---|
| Store.SnapshotStore.constructor | mcp/sightline-server/src/index.ts:27-68 | a freshly created database has three empty tables, counters at 0, and satisfies the id invariant |
| Store.SnapshotStore.InsertSnapshot | mcp/sightline-server/src/index.ts:171-180 | the in-place insert leaves exactly the tables `Database.InsertSnapshot` describes, and keeps the id invariant |
| Store.SnapshotStore.InsertValidation | mcp/sightline-server/src/index.ts:218-222 | the in-place insert leaves exactly the tables `Database.InsertValidation` describes, and keeps the id invariant |
| Store.SnapshotStore.InsertDiff | mcp/sightline-server/src/index.ts:266-272 | the in-place insert leaves exactly the tables `Database.InsertDiff` describes, and keeps the id invariant |
| Store.SnapshotStore.SetArchived | mcp/sightline-server/src/cli.ts:37 | the in-place UPDATE matches `Database.SetArchived` and keeps the id invariant |
| Store.SnapshotStore.Delete | mcp/sightline-server/src/cli.ts:57 | the in-place DELETE matches `Database.DeleteSnapshot` and keeps the id invariant |
| Store.SnapshotStore.Run | mcp/sightline-server/src/cli.ts:106 | running an INSERT statement in place matches `Database.Execute`, error messages included, and keeps the id invariant |
| Database.EmptyValid | mcp/sightline-server/src/index.ts:33-68 | the empty database satisfies the id invariant |
| Database.Valid | mcp/sightline-server/src/index.ts:33-68 | defines the invariant every operation keeps: ids are unique per table, the counters are non-negative, and no id is above its table's counter |
| Database.FindSnapshot | mcp/sightline-server/src/index.ts:197-201 | `SELECT ... WHERE id = ?` finds a row iff the id is a number with a row; NaN finds nothing; the row found is the stored one |
| Database.InsertSnapshot | mcp/sightline-server/src/index.ts:35 | an INSERT without an id gets counter+1; an explicit id fails iff taken; on success exactly that key is set and the counter becomes the max of itself and the id; a failure changes nothing |
| Database.InsertValidation | mcp/sightline-server/src/index.ts:51 | as for snapshots: appends exactly one row with the given cells under counter+1 (or the explicit free id); fails iff an explicit id is taken, changing nothing |
| Database.InsertDiff | mcp/sightline-server/src/index.ts:59 | as for validations, for the `diffs` table |
| Database.SetArchived | mcp/sightline-server/src/cli.ts:37 | only the `archived` cell of the row with that id changes; every other row, table and counter is unchanged; an absent id changes nothing |
| Database.DeleteSnapshot | mcp/sightline-server/src/cli.ts:57 | exactly that key leaves `snapshots`; validations and diffs rows that refer to it stay, since nothing cascades |
| Database.InsertSnapshotValid | mcp/sightline-server/src/index.ts:35 | inserting a snapshot keeps ids unique and at most the counter; an assigned id is one no existing row had |
| Database.InsertValidationValid | mcp/sightline-server/src/index.ts:51 | inserting a validation keeps validation ids unique and at most the counter |
| Database.InsertDiffValid | mcp/sightline-server/src/index.ts:59 | inserting a diff keeps diff ids unique and at most the counter |
| Database.SetArchivedValid | mcp/sightline-server/src/cli.ts:37 | the archive UPDATE keeps the id invariant |
| Database.DeleteSnapshotValid | mcp/sightline-server/src/cli.ts:57 | the DELETE keeps the id invariant |
| Database.SetArchivedTwice | mcp/sightline-server/src/cli.ts:37 | of two flag updates on one id the later wins, so repeating a command is idempotent |
| Database.SetArchivedUnchanged | mcp/sightline-server/src/cli.ts:47 | writing the flag a row already holds leaves the tables equal to before |
| Database.DeleteSnapshotGone | mcp/sightline-server/src/cli.ts:57 | after the DELETE the id is not found, and deleting again changes nothing |
| Database.TableNamed | mcp/sightline-server/src/cli.ts:104 | a table name in the statement resolves iff it is `snapshots`, `validations` or `diffs`, and then to that table |
| Database.MarkersOfPlaceholders | mcp/sightline-server/src/cli.ts:103 | `n` placeholders joined by "," hold exactly `n` markers, and none (a syntax error) when `n` is 0 |
| Database.UnknownColumns | mcp/sightline-server/src/cli.ts:104 | a column is reported as unknown iff the statement names it and the table does not declare it |
| Database.Execute | mcp/sightline-server/src/cli.ts:104-106 | a failing INSERT (syntax error, no such table, wrong column count, unknown column, too many values, bad id) changes no table; success implies the table name resolved |
| Database.ExecuteTouchesOneTable | mcp/sightline-server/src/cli.ts:104-106 | an INSERT changes no table or counter other than the one its name resolves to |
| Database.ExecuteValid | mcp/sightline-server/src/cli.ts:106 | any INSERT, whatever its columns and values, keeps the id invariant |
| Database.CellByPosition | mcp/sightline-server/src/cli.ts:106 | a column the statement names receives the value bound at its position in the column list, or NULL when fewer values were bound |
| Database.RowId | mcp/sightline-server/src/cli.ts:106 | defines how the `id` column's bound value is read: NULL asks for a fresh id, an integer is the id, and anything else is `SQLITE_MISMATCH: datatype mismatch` |
| Database.ExecuteWritesSnapshot | mcp/sightline-server/src/cli.ts:104-106 | a successful INSERT into `snapshots` uses the explicit id (one not taken) or counter+1; the stored row holds the bound value of each named column and the schema default of each other one: CURRENT_TIMESTAMP for `timestamp`, 0 for `archived`, NULL otherwise; other rows stay |
| Database.ExecuteWritesValidation | mcp/sightline-server/src/cli.ts:104-106 | a successful INSERT into `validations` appends exactly one row under the explicit free id or counter+1, holding each named column's bound value and CURRENT_TIMESTAMP or NULL for the others |
| Database.ExecuteWritesDiff | mcp/sightline-server/src/cli.ts:104-106 | a successful INSERT into `diffs` appends exactly one row under the explicit free id or counter+1, holding each named column's bound value and CURRENT_TIMESTAMP or NULL for the others |
| Json.Get | mcp/sightline-server/src/index.ts:157-160 | a property read yields a value only on an object that has a member with that key and value; otherwise undefined |
| Json.Read | mcp/sightline-server/src/index.ts:207-208 | reading a property throws iff the value is null, and otherwise yields `Get` |
| Json.Truthy | mcp/sightline-server/src/index.ts:158-160 | defines JavaScript truthiness: undefined, null, false, 0 and "" are falsy, and every other value, arrays and objects included, is truthy |
| Json.Stringify | mcp/sightline-server/src/index.ts:159-160 | defines `JSON.stringify` on the modelled values: literals, integers in decimal, quoted and escaped strings, arrays, and objects with keys in `Object.keys` order and the last value of a repeated key |
| Json.ToJsString | mcp/sightline-server/src/index.ts:157 | `String(undefined)` is "undefined" and `String` of a string is the string itself |
| Json.ToNumber | mcp/sightline-server/src/index.ts:193 | `Number(undefined)` is NaN, `Number(null)` is 0, and a number converts to itself |
| Json.NumberOfString | mcp/sightline-server/src/index.ts:193 | `Number(String(n)) == n` for every integer, so an id given as its decimal text finds the same row |
| Json.KeysOf | mcp/sightline-server/src/cli.ts:102 | the keys of an object: each key once, and exactly the keys its members have |
| Json.ObjectKeys | mcp/sightline-server/src/cli.ts:102 | `Object.keys` throws iff given null; an object gives its distinct keys; every result is duplicate-free |
| Json.IndexKeys | mcp/sightline-server/src/cli.ts:102 | the keys of an array or string of length `n` are the decimal texts of 0..n-1 |
| Json.IndexKeysDistinct | mcp/sightline-server/src/cli.ts:102 | those index keys are pairwise distinct |
| Json.EscapeChar | mcp/sightline-server/src/index.ts:221 | `JSON.stringify` escapes a character with a backslash iff it is a quote, a backslash or a control character |
| Text.Includes | mcp/sightline-server/src/index.ts:209 | `hay.includes(needle)` is true iff `needle` occurs at some position of `hay` |
| Text.IncludesEmpty | src/sightlinePanelProvider.ts:145 | every string includes the empty string |
| Text.EmptyIncludesOnlyEmpty | mcp/sightline-server/src/index.ts:209 | an empty DOM includes only the empty string |
| Text.ToLower | src/sightlinePanelProvider.ts:141 | lowercasing keeps the length and lowercases each character |
| Text.ToLowerIdempotent | src/sightlinePanelProvider.ts:141-144 | lowercasing twice is lowercasing once |
| Validation.DomIncludes | mcp/sightline-server/src/index.ts:209 | `dom.includes` succeeds iff the stored cell is text, and then is true iff the needle occurs in it |
| Validation.CheckRule | mcp/sightline-server/src/cli.ts:124 | the check succeeds iff the DOM is text; `found` iff the DOM contains the selector and contains the text; selector and text are kept as given |
| Validation.EvaluateRule | mcp/sightline-server/src/index.ts:207-210 | one rule succeeds iff the DOM is text and the rule is not null; the entry holds `String(rule.selector)`, `String(rule.text)` and the co-occurrence `found` |
| Validation.EvaluateRules | mcp/sightline-server/src/index.ts:206-211 | defines the rule loop: each rule in order contributes its entry, and the first rule that throws ends the loop with that exception |
| Validation.EvaluateRulesSucceeds | mcp/sightline-server/src/index.ts:206-211 | the rule loop succeeds iff there are no rules, or the DOM is text and no rule is null |
| Validation.EvaluateRulesOk | mcp/sightline-server/src/index.ts:206-211 | a text DOM with no null rule, or no rules at all, never throws |
| Validation.EvaluateRulesOkOnly | mcp/sightline-server/src/index.ts:206-211 | a loop that does not throw had no rules, or a text DOM and no null rule |
| Validation.EvaluateRulesAppend | mcp/sightline-server/src/index.ts:210 | each pass appends its entry after the entries of the earlier rules |
| Validation.EvaluateRulesResults | mcp/sightline-server/src/index.ts:206-211 | one entry per rule in rule order, each with the rule's selector and text as strings and `found` iff the DOM contains both |
| Validation.EvaluateRulesFailsEarly | mcp/sightline-server/src/index.ts:206-211 | an exception on a prefix of the rules is the result of the whole loop |
| Validation.RunRules | mcp/sightline-server/src/index.ts:204-211 | the `for` loop that pushes onto `results` returns exactly the specified result list or exception |
| Tools.Arguments | mcp/sightline-server/src/index.ts:153 | absent or null arguments become `{}`; any other value is taken as it is |
| Tools.OptionalString | mcp/sightline-server/src/index.ts:158 | the label is stored as NULL iff the argument is falsy |
| Tools.OptionalJson | mcp/sightline-server/src/index.ts:159-160 | tags and env_info are stored as NULL iff the argument is falsy |
| Tools.SnapshotRow | mcp/sightline-server/src/index.ts:157-179 | the new row holds the captured DOM and image and `{"url": ...}` as metadata; label, tags and env_info are NULL iff not supplied; archived defaults to 0 and timestamp to now |
| Tools.TakeSnapshotSpec | mcp/sightline-server/src/index.ts:156-190 | defines take_snapshot: a failed capture is its error; otherwise one snapshots INSERT, whose new id is returned as `{"snapshot_id": id}` |
| Tools.TakeSnapshot | mcp/sightline-server/src/index.ts:156-190 | the handler changes the store exactly as `TakeSnapshotSpec` says, and keeps the id invariant |
| Tools.TakeSnapshotCaptureFails | mcp/sightline-server/src/index.ts:162-166 | a failed capture returns its error and writes nothing |
| Tools.TakeSnapshotInserts | mcp/sightline-server/src/index.ts:171-186 | a capture inserts exactly one snapshot under a fresh id, one above every id used before, and returns `{"snapshot_id": id}`; validations and diffs are unchanged; the id then finds that row |
| Tools.RulesArg | mcp/sightline-server/src/index.ts:194 | a rules argument that is not an array is the empty rule list |
| Tools.ProfileArg | mcp/sightline-server/src/index.ts:195 | the profile is recorded as null iff the argument is falsy |
| Tools.ValidateSpec | mcp/sightline-server/src/index.ts:192-232 | defines validate_snapshot: convert the id with `Number()`, look the row up, run the rule loop, INSERT the `{profile, rules}` payload, and return that text |
| Tools.ValidateSnapshot | mcp/sightline-server/src/index.ts:192-232 | the handler changes the store exactly as `ValidateSpec` says, and keeps the id invariant |
| Tools.ValidateNotFound | mcp/sightline-server/src/index.ts:197-201 | an id with no row fails with "Snapshot not found" and appends no validation row |
| Tools.ValidateRulesFail | mcp/sightline-server/src/index.ts:206-211 | an exception in the rule loop is returned and nothing is written |
| Tools.ValidateRecords | mcp/sightline-server/src/index.ts:213-228 | on success exactly one validations row is appended, for that snapshot id, under counter+1; its stored result is the very text returned; snapshots and diffs are unchanged |
| Tools.ValidateIdRecords | mcp/sightline-server/src/index.ts:213-228 | the same, for an id already converted by `Number()` |
| Tools.ValidateValid | mcp/sightline-server/src/index.ts:218-222 | validate_snapshot keeps the id invariant |
| Tools.ValidateWithoutRules | mcp/sightline-server/src/index.ts:194 | without a rules argument the payload has an empty rule list, and the call succeeds whatever the stored dom cell holds |
| Tools.ThresholdArg | mcp/sightline-server/src/index.ts:237 | an absent threshold defaults to 0.1; a null one is `Number(null)`, that is 0 |
| Tools.CompareSpec | mcp/sightline-server/src/index.ts:234-282 | defines compare_snapshots: look both rows up, compare their images at the threshold, INSERT a diffs row, and return the mismatch count |
| Tools.CompareSnapshots | mcp/sightline-server/src/index.ts:234-282 | the handler changes the store exactly as `CompareSpec` says, and keeps the id invariant |
| Tools.CompareNotFound | mcp/sightline-server/src/index.ts:239-247 | if either id has no row the call fails with "Snapshots not found" and appends no diff row |
| Tools.CompareDifferFails | mcp/sightline-server/src/index.ts:249-264 | a failure of image decoding or comparison is returned and nothing is written |
| Tools.CompareRecords | mcp/sightline-server/src/index.ts:255-278 | on success exactly one diffs row is appended, with the ids in argument order, the diff image, and the mismatch count as score; the same count is returned; nothing else changes |
| Tools.CompareIdsRecords | mcp/sightline-server/src/index.ts:266-278 | the same, for ids already converted by `Number()` |
| Tools.CompareValid | mcp/sightline-server/src/index.ts:266-272 | compare_snapshots keeps the id invariant |
| Tools.ToolNamed | mcp/sightline-server/src/index.ts:155-285 | each of the three tool names routes to its own handler, and only that name does; any other name fails with "Unknown tool: " and the name |
| Tools.CallToolSpec | mcp/sightline-server/src/index.ts:151-287 | defines the CallTool handler: default the arguments to `{}`, then run the named tool, or fail with `Unknown tool: <name>` |
| Tools.CallTool | mcp/sightline-server/src/index.ts:151-287 | the CallTool handler changes the store exactly as `CallToolSpec` says, and keeps the id invariant |
| Tools.UnknownToolChangesNothing | mcp/sightline-server/src/index.ts:284-285 | a name other than the three tools fails with "Unknown tool: <name>" and changes no table |
| Tools.CallToolValid | mcp/sightline-server/src/index.ts:151-287 | every tool call keeps the id invariant |
| Cli.Archive | mcp/sightline-server/src/cli.ts:37 | archive-snapshot sets `archived = 1` on that row only, as `Database.SetArchived` says |
| Cli.Unarchive | mcp/sightline-server/src/cli.ts:47 | unarchive-snapshot sets `archived = 0` on that row only |
| Cli.Delete | mcp/sightline-server/src/cli.ts:57 | delete-snapshot removes that snapshots row only |
| Cli.ArchiveThenUnarchive | mcp/sightline-server/src/cli.ts:37-47 | archiving an active snapshot, or an absent id, and then unarchiving restores the tables |
| Cli.ArchiveIdempotent | mcp/sightline-server/src/cli.ts:37 | archiving twice is archiving once |
| Cli.ValidateCommandSpec | mcp/sightline-server/src/cli.ts:112-133 | defines validate-snapshot: look the row up, check the DOM for the selector and the text, and INSERT the `{selector, expectedText, found}` result |
| Cli.ValidateCommand | mcp/sightline-server/src/cli.ts:112-133 | the command changes the store exactly as `ValidateCommandSpec` says, and keeps the id invariant |
| Cli.ValidateCommandNotFound | mcp/sightline-server/src/cli.ts:117-122 | a missing snapshot reports "Snapshot not found" and inserts nothing |
| Cli.ValidateCommandRecords | mcp/sightline-server/src/cli.ts:123-130 | on a text DOM, exactly one validations row holding `{selector, expectedText, found}` is appended, with `found` iff the DOM contains both strings |
| Cli.CompareCommandSpec | mcp/sightline-server/src/cli.ts:135-171 | defines compare-snapshots: both rows must exist, then compare their images at threshold 0.1 and INSERT a diffs row with the count as score |
| Cli.CompareCommand | mcp/sightline-server/src/cli.ts:135-171 | the command changes the store exactly as `CompareCommandSpec` says, and keeps the id invariant |
| Cli.CompareCommandRecords | mcp/sightline-server/src/cli.ts:140-168 | a missing snapshot inserts nothing; otherwise a comparison at threshold 0.1 appends exactly one diffs row with the ids in argument order and the count as score; a failed comparison writes nothing |
| Cli.Bind | mcp/sightline-server/src/cli.ts:106 | undefined and null bind as NULL, numbers as INTEGER, strings as TEXT |
| Cli.BindAll | mcp/sightline-server/src/cli.ts:106 | the values bind one per marker, in order; a leading array or object is reported as an error |
| Cli.RowValues | mcp/sightline-server/src/cli.ts:106 | the values are the row's properties in column order; a null row throws, but only when there is a column to read |
| Cli.ImportColumns | mcp/sightline-server/src/cli.ts:102 | the columns are the keys of the first row, without duplicates; an empty array has no first row and fails |
| Cli.ImportStatement | mcp/sightline-server/src/cli.ts:103-104 | the statement names the given table and exactly the first row's columns |
| Cli.ImportRow | mcp/sightline-server/src/cli.ts:106 | a row that fails to bind or insert leaves the tables as they were |
| Cli.Loop | mcp/sightline-server/src/cli.ts:105-107 | defines the row loop: apply the step to each row in order, count the successes, and stop at the first error with the tables as they are then |
| Cli.LoopFailsEarly | mcp/sightline-server/src/cli.ts:105-107 | an error on some row ends the loop with that error, and later rows are not run |
| Cli.LoopNext | mcp/sightline-server/src/cli.ts:105-107 | after one more row, the count goes up by one, or the loop ends with that row's error |
| Cli.ImportOne | mcp/sightline-server/src/cli.ts:106 | running the statement on `rows[i]` takes the store from the loop's state after `rows[..i]` to its state after `rows[..i+1]` |
| Cli.InsertRows | mcp/sightline-server/src/cli.ts:105-107 | the `for` loop ends in exactly the specified count or first error, with the tables the specification gives |
| Cli.ImportData | mcp/sightline-server/src/cli.ts:101-107 | import-data changes the store exactly as `ImportSpec` says, and keeps the id invariant |
| Cli.ImportSpec | mcp/sightline-server/src/cli.ts:94-110 | defines import-data on the parsed file: the columns are the first row's keys, then one INSERT per row through the loop |
| Cli.ImportEmptyFails | mcp/sightline-server/src/cli.ts:101-102 | an empty array fails before anything is inserted |
| Cli.ImportStatementShape | mcp/sightline-server/src/cli.ts:102-106 | the statement has exactly one marker per column, and none (a syntax error) when there is no column; a non-null row's values are its properties in column order |
| Cli.ExecuteAddsOneRow | mcp/sightline-server/src/cli.ts:106 | a successful INSERT adds exactly one row to the table it names |
| Cli.ImportRowsEffect | mcp/sightline-server/src/cli.ts:105-107 | import touches only the named table; if every row goes in, the count is the number of rows and that table gains exactly that many rows |
| Cli.ImportUnknownTable | mcp/sightline-server/src/cli.ts:104-106 | an import into a table that does not exist changes nothing |
| Cli.ImportRowsValid | mcp/sightline-server/src/cli.ts:105-107 | import keeps the id invariant, whatever the rows hold |
| Rpc.RouteMethod | mcp/sightline-server/src/index.ts:327-335 | exactly the strings "list_tools" and "call_tool" are routed; any other method is "Unsupported method: " followed by `String(method)` |
| Rpc.HandleJsonRpcRequest | mcp/sightline-server/src/index.ts:322-345 | defines `handleJsonRpcRequest`: a null request throws; otherwise route the method, call the SDK, and wrap its result, or any failure under code -32000, with the request's id |
| Rpc.ErrorMessage | mcp/sightline-server/src/index.ts:337 | the error message is never empty, and is the thrown message when that is non-empty |
| Rpc.ResponseJson | mcp/sightline-server/src/index.ts:340-344 | defines the response object: `jsonrpc` "2.0", the id when present, then `result`, or `error` holding code and message |
| Rpc.ResponseJsonFields | mcp/sightline-server/src/index.ts:340-344 | the response object has `jsonrpc` "2.0" and the response's id, and exactly one of `error` or `result`, holding the code and message or the result |
| Rpc.EnvelopeMembers | mcp/sightline-server/src/index.ts:340-344 | in the member list `jsonrpc`, optional `id`, then `result` or `error`, each key reads back its own value and the other of `result`/`error` is absent |
| Rpc.ResponseEnvelope | mcp/sightline-server/src/index.ts:322-345 | every non-null request is answered with its own id, and every error has code -32000 and a non-empty message |
| Rpc.UnsupportedMethod | mcp/sightline-server/src/index.ts:333-337 | an unsupported method is answered with code -32000 and "Unsupported method: ...", without calling the SDK |
| Rpc.RoutedMethod | mcp/sightline-server/src/index.ts:327-338 | a routed method answers with the SDK handler's result, or with its failure under code -32000 |
| Panel.FilterSubsequence | src/sightlinePanelProvider.ts:142-146 | the filtered list keeps the input order and only drops elements |
| Panel.FieldMatches | src/sightlinePanelProvider.ts:143-144 | defines the test on label or tags: present, non-empty, and containing the query once lowercased |
| Panel.Matches | src/sightlinePanelProvider.ts:143-145 | defines the `.filter` callback: the label matches, or the tags match, or the status word contains the query |
| Panel.Filter | src/sightlinePanelProvider.ts:142-146 | defines `.filter` with that callback over the loaded list |
| Panel.FilterSnapshots | src/sightlinePanelProvider.ts:140-148 | defines `filterSnapshots`: lowercase the query, then filter the loaded snapshots, or none before data arrives |
| Panel.FilterKeeps | src/sightlinePanelProvider.ts:143-145 | a snapshot is kept iff it is in the input and the query occurs in its lowercased label, its lowercased tags or its status word |
| Panel.FilterIgnoresQueryCase | src/sightlinePanelProvider.ts:141 | lowercasing the search text beforehand does not change the result, since the filter lowercases it itself |
| Panel.MatchesIgnoresFieldCase | src/sightlinePanelProvider.ts:143-144 | lowercasing whichever of label and tags are present beforehand does not change whether a snapshot matches |
| Panel.EmptyQueryKeepsAll | src/sightlinePanelProvider.ts:145 | an empty query keeps every snapshot |
| Panel.EmptyFilterKeepsAll | src/sightlinePanelProvider.ts:145 | the inner filter with an empty query drops nothing, since every status word contains the empty string |
| Panel.MissingFieldNeverMatches | src/sightlinePanelProvider.ts:143-144 | a missing or empty label or tags field never matches on that field |
| Panel.NoDataShowsNothing | src/sightlinePanelProvider.ts:142 | with no snapshot data loaded the result is empty |

## Left out

- Page capture with Puppeteer (mcp/sightline-server/src/index.ts:162-169) is the `capture` parameter, a function from URL to page or error. Navigation, timing and the browser are not modelled.
- PNG decoding and encoding and pixelmatch (mcp/sightline-server/src/index.ts:249-264, mcp/sightline-server/src/cli.ts:147-161) are the `differ` parameter. It maps the two stored image cells and the threshold to a diff image and a mismatch count, or to an error.
  - There is no dimension check of its own, because the code takes the width and height from image A only.
  - The float threshold is passed through as a `real`. JSON numbers in the model are integers, so a fractional `threshold` argument such as 0.05 cannot be expressed. Only the default 0.1 and integral values reach the comparison.
- `CURRENT_TIMESTAMP` is the `now` parameter. The indexes and the declared foreign keys are not modelled, since the code never relies on them.
- Cli.ImportData: one `now` serves every imported row. In the program each `db.run` is a statement of its own, so rows without a `timestamp` may receive different timestamps.
- Database.InsertSnapshot, Database.InsertValidation and Database.InsertDiff do not model integer width:
  - ids and counters are unbounded, where SQLite's AUTOINCREMENT fails with SQLITE_FULL once the sequence reaches 2^63-1;
  - JavaScript numbers lose integer precision above 2^53, which the model's integer ids do not.
- The MCP SDK's routing behind `server.request` (mcp/sightline-server/src/index.ts:329, 332) is the `sdk` parameter: a function from method and params to a result or an error message.
- The Express, SSE and WebSocket transports (mcp/sightline-server/src/index.ts:292-377) are not modelled. Neither are `JSON.parse` of incoming messages and the static tool catalog (mcp/sightline-server/src/index.ts:90-146).
- Console output is not modelled. This covers the CLI's success messages and `console.table`. A CLI command that prints an error and returns ends in `Err` with that text.
- The list commands, export-data (mcp/sightline-server/src/cli.ts:22-92) and the reading and parsing of the import file are not modelled. import-data starts from the parsed JSON value.
- `commander` argument parsing is not modelled, and CLI ids are taken as integers.
  - The source binds the id argument as text.
  - The INTEGER affinity of the id columns turns decimal text into the same integer.
  - Non-numeric id text, which would match no row, is not modelled.
- src/extension.ts is not part of this model. The HTML rendering and the message forwarding of src/sightlinePanelProvider.ts are not part of it either.
- JSON numbers are integers.
  - `Number()` of a string accepts optional white space, a sign and decimal digits. Fractions, exponents, hexadecimal and `Infinity` become NaN (`None`).
  - A non-integer `snapshot_id` is therefore not modelled. Nor is the driver binding numbers outside the 32-bit range as REAL.
- Text operations are ASCII only. `toLowerCase` folds A-Z only, and white space for `Number()` is ASCII white space. Strings are sequences of characters, with no UTF-16 surrogate handling.
- SQLite column matching is exact. Case-insensitive column and table names, the `rowid`/`oid` aliases, type affinity conversions of inserted values, and `INTEGER PRIMARY KEY` rounding of REAL ids are not modelled.
  - An id cell that is neither NULL nor an integer is a "datatype mismatch" error.
- The table name and column names that import-data interpolates into its SQL are taken as names. Names that would change the statement's syntax are reported as unknown names, not as a syntax error.
- A duplicate key in an imported row's keys cannot occur, since `Object.keys` yields distinct keys. `Database.Execute` therefore requires distinct columns.
- `Object.keys`, and with it the key order of `JSON.stringify`, lists keys in document order. JavaScript lists integer-like keys first in ascending order. For an object with such keys the model differs in two places:
  - the column order import-data uses, which changes which value is checked first in error messages;
  - the text stored for `tags` and `env_info` by take_snapshot. For example, env_info `{"b":1,"2":0}` is stored as `{"2":0,"b":1}` by the program and as `{"b":1,"2":0}` by the model.
- A BLOB `dom` cell cannot arise from the program's own inserts or from import. The model treats it like any other non-text cell, as an error. JavaScript would receive a Buffer there and search its bytes with `Buffer.includes`.
- Cli.BindAll: a first parameter that is an array or an object is reported as an error. In the driver such a value is taken as the whole parameter list or as named parameters.
- Cli.Bind: booleans bind as 1 or 0, and arrays and objects bind as their `String()` text. The contract only pins down the null, number and string cases.
- Cli.ImportRow: its own contract says only that a failing row changes nothing. What a successful row does is stated by `Database.ExecuteWritesSnapshot`, `Database.ExecuteWritesValidation`, `Database.ExecuteWritesDiff`, `Cli.ImportRowsEffect` and `Database.ExecuteTouchesOneTable`.
- Database.Execute: on success its own contract says only that the table name resolved. The id and cells written are stated by `Database.ExecuteWritesSnapshot`, `Database.ExecuteWritesValidation` and `Database.ExecuteWritesDiff`. That nothing else changes is stated by `Database.ExecuteTouchesOneTable`, and the invariant by `Database.ExecuteValid`.
- Deleting a snapshot does not cascade to its validations or diffs, and no dimension check precedes diffing; the model follows the code.
- Each tool handler and CLI command is modelled as running alone, as one step on the tables:
  - there is no interleaving at the awaits between a handler's SELECT and its INSERT (mcp/sightline-server/src/index.ts:197-218, 239-266);
  - so another request or a CLI process deleting the snapshot in between, after which the handler would still insert its row, is not modelled;
  - neither are SQLITE_BUSY, I/O failures or a second process sharing the file.
- The `near "...":` part of a syntax error is modelled only for an empty column list. For a malformed marker list, which import never builds, the message is plain `SQLITE_ERROR: syntax error`.
