/** The search box of the side panel: `filterSnapshots` keeps the snapshots
    whose label, tags or status word contains the lowercased query. */
module Panel {
  import opened Wrappers
  import Text

  /** The fields of a listed snapshot the filter reads; `None` is a missing
      field, and `archived` is the truthiness of the stored flag. The label is
      `labelText` because `label` is a keyword here. */
  datatype PanelSnapshot = PanelSnapshot(labelText: Option<string>, tags: Option<string>, archived: bool)

  /** `snap.archived ? 'archived' : 'active'`. */
  function StatusWord(snap: PanelSnapshot): string {
    if snap.archived then "archived" else "active"
  }

  /** `snap.f && snap.f.toLowerCase().includes(query)`: a missing or empty
      field is falsy and never matches. */
  predicate FieldMatches(field: Option<string>, query: string) {
    field.Some? && field.value != "" && Text.Includes(Text.ToLower(field.value), query)
  }

  /** The predicate passed to `.filter`, for a query already lowercased. */
  predicate Matches(snap: PanelSnapshot, query: string) {
    FieldMatches(snap.labelText, query) || FieldMatches(snap.tags, query) || Text.Includes(StatusWord(snap), query)
  }

  function Filter(snapshots: seq<PanelSnapshot>, query: string): seq<PanelSnapshot> {
    if snapshots == [] then []
    else (if Matches(snapshots[0], query) then [snapshots[0]] else []) + Filter(snapshots[1..], query)
  }

  /** `filterSnapshots()`: `None` is `window.snapshotData` before any list arrived. */
  function FilterSnapshots(data: Option<seq<PanelSnapshot>>, rawQuery: string): seq<PanelSnapshot> {
    var query := Text.ToLower(rawQuery);
    match data
    case None => []
    case Some(snapshots) => Filter(snapshots, query)
  }

  /** `a` is `b` with some elements dropped and the rest in their order. */
  ghost predicate Subsequence(a: seq<PanelSnapshot>, b: seq<PanelSnapshot>)
    decreases |b|
  {
    if a == [] then true
    else if b == [] then false
    else (a[0] == b[0] && Subsequence(a[1..], b[1..])) || Subsequence(a, b[1..])
  }

  /** The filtered list only drops snapshots and keeps the others in order. */
  lemma {:induction false} FilterSubsequence(snapshots: seq<PanelSnapshot>, query: string)
    ensures Subsequence(Filter(snapshots, query), snapshots)
  {
    if snapshots != [] {
      FilterSubsequence(snapshots[1..], query);
      var rest := Filter(snapshots[1..], query);
      if Matches(snapshots[0], query) {
        assert Filter(snapshots, query) == [snapshots[0]] + rest;
        assert ([snapshots[0]] + rest)[1..] == rest;
      } else {
        assert Filter(snapshots, query) == rest;
        if rest != [] {
          assert Subsequence(rest, snapshots[1..]);
        }
      }
    }
  }

  /** A snapshot is in the filtered list iff it is in the input and its
      lowercased label, its lowercased tags or its status word contains the
      query. */
  lemma {:induction false} FilterKeeps(snapshots: seq<PanelSnapshot>, query: string, snap: PanelSnapshot)
    ensures snap in Filter(snapshots, query) <==>
      snap in snapshots &&
      ((snap.labelText.Some? && snap.labelText.value != "" && Text.Occurs(Text.ToLower(snap.labelText.value), query))
       || (snap.tags.Some? && snap.tags.value != "" && Text.Occurs(Text.ToLower(snap.tags.value), query))
       || Text.Occurs(StatusWord(snap), query))
  {
    if snapshots != [] {
      FilterKeeps(snapshots[1..], query, snap);
      assert snapshots == [snapshots[0]] + snapshots[1..];
    }
  }

  /** Lowercasing the query first changes nothing: the filter ignores its case. */
  lemma FilterIgnoresQueryCase(data: Option<seq<PanelSnapshot>>, rawQuery: string)
    ensures FilterSnapshots(data, Text.ToLower(rawQuery)) == FilterSnapshots(data, rawQuery)
  {
    Text.ToLowerIdempotent(rawQuery);
  }

  /** A field with its text lowercased; a missing field stays missing. */
  function LowerField(field: Option<string>): Option<string> {
    if field.Some? then Some(Text.ToLower(field.value)) else None
  }

  /** Matching ignores the case of the label and tags too, whichever of them
      are present. */
  lemma MatchesIgnoresFieldCase(snap: PanelSnapshot, query: string)
    ensures Matches(snap, query) ==
      Matches(snap.(labelText := LowerField(snap.labelText), tags := LowerField(snap.tags)), query)
  {
    if snap.labelText.Some? {
      Text.ToLowerIdempotent(snap.labelText.value);
    }
    if snap.tags.Some? {
      Text.ToLowerIdempotent(snap.tags.value);
    }
  }

  /** An empty query keeps every snapshot, since every status word contains it. */
  lemma {:induction false} EmptyQueryKeepsAll(snapshots: seq<PanelSnapshot>)
    ensures FilterSnapshots(Some(snapshots), "") == snapshots
  {
    assert Text.ToLower("") == "";
    EmptyFilterKeepsAll(snapshots);
  }

  lemma {:induction false} EmptyFilterKeepsAll(snapshots: seq<PanelSnapshot>)
    ensures Filter(snapshots, "") == snapshots
  {
    if snapshots != [] {
      Text.IncludesEmpty(StatusWord(snapshots[0]));
      EmptyFilterKeepsAll(snapshots[1..]);
    }
  }

  /** A missing or empty label or tags field never matches on that field. */
  lemma MissingFieldNeverMatches(field: Option<string>, query: string)
    requires field.None? || field == Some("")
    ensures !FieldMatches(field, query)
  {
  }

  /** Before any list has arrived the panel shows nothing. */
  lemma NoDataShowsNothing(rawQuery: string)
    ensures FilterSnapshots(None, rawQuery) == []
  {
  }
}
