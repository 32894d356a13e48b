/** code/main.py: the chart load transform shared by the editor (chart_main)
    and the game (gameplay_main). A chart file is read back as a ChartDoc;
    each "note{x}" record becomes a note at the record's time less the
    file's offset. */
module ChartFile {
  import opened PyCore
  import opened Chart

  /** note_spawn_pos[lane] is defined: Python also counts -8 .. -1 back
      from the end of the list, which has one spawn position per receptor. */
  predicate HasSpawn(lane: int) {
    -LaneCount <= lane < LaneCount
  }

  /** The note builds hold segments: hold_ms_in_steps > 0 for a step of
      `stepMs` milliseconds. */
  predicate BuildsHolds(holdMs: real, stepMs: real)
    requires stepMs > 0.0
  {
    Trunc(holdMs / stepMs) > 0
  }

  /** Note x of the file as the loader builds it: id, lane and hold as
      written, time less the offset, texture with its quote marks removed,
      type as written. `stepMs` is the song's sec_per_step * 1000.

      The editor reads `loaded_JSON[f'note{x}']` first, so a missing record
      is a KeyError; the game reads it with `.get` and then subscripts None,
      a TypeError. The editor looks up note_spawn_pos[lane] (IndexError)
      before it reads "offset" (KeyError); the game reads "offset" first and
      looks up the spawn position inside Note.__init__. Last, a note that
      builds hold segments looks up its receptor for each segment and reads
      `.angle` of None when there is none (AttributeError). */
  function LoadNote(doc: ChartDoc, x: nat, forEditor: bool, stepMs: real): (r: Result<NoteData>)
    requires stepMs > 0.0
    ensures r.Err? <==>
      || x !in doc.notes || doc.offset.None? || !HasSpawn(doc.notes[x].lane)
      || (BuildsHolds(doc.notes[x].hold, stepMs) && !HasReceptor(doc.notes[x].lane))
    ensures x !in doc.notes ==> r == Err(if forEditor then KeyError else TypeError)
    ensures x in doc.notes && !HasSpawn(doc.notes[x].lane) ==>
      r == Err(if forEditor || doc.offset.Some? then IndexError else KeyError)
    ensures x in doc.notes && HasSpawn(doc.notes[x].lane) && doc.offset.None? ==> r == Err(KeyError)
    ensures (&& x in doc.notes && doc.offset.Some? && HasSpawn(doc.notes[x].lane)
             && BuildsHolds(doc.notes[x].hold, stepMs) && !HasReceptor(doc.notes[x].lane)) ==> r == Err(AttributeError)
    ensures r.Ok? ==>
      (&& r.value.id == doc.notes[x].id && r.value.lane == doc.notes[x].lane
       && r.value.ms + doc.offset.value == doc.notes[x].time && r.value.holdMs == doc.notes[x].hold
       && r.value.texture == RemoveChar(doc.notes[x].texture, '"') && r.value.kind == doc.notes[x].kind)
  {
    if x !in doc.notes then Err(if forEditor then KeyError else TypeError)
    else
      var rec := doc.notes[x];
      if forEditor && !HasSpawn(rec.lane) then Err(IndexError)
      else if doc.offset.None? then Err(KeyError)
      else if !HasSpawn(rec.lane) then Err(IndexError)
      else if BuildsHolds(rec.hold, stepMs) && !HasReceptor(rec.lane) then Err(AttributeError)
      else Ok(NoteData(rec.id, rec.lane, rec.time - doc.offset.value, rec.hold, RemoveChar(rec.texture, '"'), rec.kind))
  }

  /** A note the loader accepts: it has a spawn position, and a receptor
      whenever it builds hold segments. */
  predicate Loadable(n: NoteData, stepMs: real)
    requires stepMs > 0.0
  {
    HasSpawn(n.lane) && (BuildsHolds(n.holdMs, stepMs) ==> HasReceptor(n.lane))
  }

  /** A lane outside note_spawn_pos fails the load in both loaders, with
      the editor's IndexError and, once the offset is there, the game's;
      a long note on a negative lane has a spawn position but no receptor. */
  lemma {:induction false} BadLaneFails(doc: ChartDoc, x: nat, stepMs: real)
    requires stepMs > 0.0 && x in doc.notes && doc.offset.Some?
    ensures !HasSpawn(doc.notes[x].lane) ==>
      LoadNote(doc, x, true, stepMs) == Err(IndexError) && LoadNote(doc, x, false, stepMs) == Err(IndexError)
    ensures -LaneCount <= doc.notes[x].lane < 0 && doc.notes[x].hold >= stepMs ==>
      LoadNote(doc, x, true, stepMs) == Err(AttributeError) && LoadNote(doc, x, false, stepMs) == Err(AttributeError)
  {
    var h := doc.notes[x].hold;
    if h >= stepMs {
      TruncAtLeastOne(h, stepMs);
    }
  }

  lemma TruncAtLeastOne(y: real, d: real)
    requires d > 0.0 && y >= d
    ensures Trunc(y / d) > 0
  {
    assert (y / d) * d == y;
    assert y / d >= 1.0;
  }

  /** The notes of `for x in range(0, k)`: the first failing record stops
      the load. */
  function LoadPrefix(doc: ChartDoc, k: int, forEditor: bool, stepMs: real): (r: Result<seq<NoteData>>)
    requires stepMs > 0.0
    ensures r.Ok? ==> |r.value| == (if k < 0 then 0 else k)
    decreases k
  {
    if k <= 0 then Ok([])
    else match LoadPrefix(doc, k - 1, forEditor, stepMs)
      case Err(e) => Err(e)
      case Ok(s) =>
        match LoadNote(doc, k - 1, forEditor, stepMs)
        case Err(e) => Err(e)
        case Ok(n) => Ok(s + [n])
  }

  /** A load succeeds exactly when every record it visits loads, and then
      note x is record x, moved by the offset. */
  lemma {:induction false} LoadPrefixSpec(doc: ChartDoc, k: int, forEditor: bool, stepMs: real)
    requires stepMs > 0.0
    ensures LoadPrefix(doc, k, forEditor, stepMs).Ok? <==> forall x: nat :: x < k ==> LoadNote(doc, x, forEditor, stepMs).Ok?
    ensures LoadPrefix(doc, k, forEditor, stepMs).Ok? ==>
      forall x: nat :: x < k ==> LoadPrefix(doc, k, forEditor, stepMs).value[x] == LoadNote(doc, x, forEditor, stepMs).value
    decreases k
  {
    if k > 0 {
      LoadPrefixSpec(doc, k - 1, forEditor, stepMs);
      var prev := LoadPrefix(doc, k - 1, forEditor, stepMs);
      var note := LoadNote(doc, k - 1, forEditor, stepMs);
      if prev.Ok? && note.Ok? {
        var r := prev.value + [note.value];
        assert LoadPrefix(doc, k, forEditor, stepMs) == Ok(r);
        forall x: nat | x < k ensures LoadNote(doc, x, forEditor, stepMs).Ok? && r[x] == LoadNote(doc, x, forEditor, stepMs).value {
          if x < k - 1 {
            assert r[x] == prev.value[x];
          }
        }
      } else if prev.Err? {
        assert LoadPrefix(doc, k, forEditor, stepMs).Err?;
        assert !(forall x: nat :: x < k - 1 ==> LoadNote(doc, x, forEditor, stepMs).Ok?);
      } else {
        assert LoadPrefix(doc, k, forEditor, stepMs).Err?;
        assert !LoadNote(doc, k - 1, forEditor, stepMs).Ok?;
      }
    }
  }

  /** The loop over `range(0, len(loaded_JSON) - 1)`: one note per top-level
      key but the offset. */
  method LoadChart(doc: ChartDoc, forEditor: bool, stepMs: real) returns (r: Result<seq<NoteData>>)
    requires stepMs > 0.0
    ensures r == LoadPrefix(doc, KeyCount(doc) - 1, forEditor, stepMs)
  {
    var notes: seq<NoteData> := [];
    var x := 0;
    while x < KeyCount(doc) - 1
      invariant 0 <= x && (x <= KeyCount(doc) - 1 || x == 0)
      invariant LoadPrefix(doc, x, forEditor, stepMs) == Ok(notes)
    {
      var note := LoadNote(doc, x, forEditor, stepMs);
      if note.Err? {
        ErrorPersists(doc, x + 1, KeyCount(doc) - 1, forEditor, stepMs);
        return Err(note.error);
      }
      notes := notes + [note.value];
      x := x + 1;
    }
    r := Ok(notes);
  }

  /** The file save_json writes for a non-empty list (last hold fixed). */
  ghost function Saved(notes: seq<NoteData>, offset: real): ChartDoc
  {
    ChartDoc(Some(offset), Records(SortByMs(notes), offset))
  }

  /** Record x of a saved file loads as sorted note x, renumbered x. */
  lemma LoadSavedRecord(notes: seq<NoteData>, offset: real, x: nat, forEditor: bool, stepMs: real)
    requires stepMs > 0.0
    requires x < |notes|
    requires forall n :: n in notes ==> '"' !in n.texture && Loadable(n, stepMs)
    ensures LoadNote(Saved(notes, offset), x, forEditor, stepMs) == Ok(SortByMs(notes)[x].(id := x))
  {
    var sorted := SortByMs(notes);
    var n := sorted[x];
    RecordAt(sorted, offset, x);
    assert n in multiset(notes);
    LoadRecord(Saved(notes, offset), n, x, offset, forEditor, stepMs);
  }

  lemma RecordAt(sorted: seq<NoteData>, offset: real, x: nat)
    requires x < |sorted|
    ensures x in Records(sorted, offset) && Records(sorted, offset)[x] == RecordOf(sorted[x], x, offset)
  {
  }

  lemma LoadRecord(doc: ChartDoc, n: NoteData, x: nat, offset: real, forEditor: bool, stepMs: real)
    requires stepMs > 0.0
    requires doc.offset == Some(offset) && x in doc.notes && doc.notes[x] == RecordOf(n, x, offset)
    requires '"' !in n.texture && Loadable(n, stepMs)
    ensures LoadNote(doc, x, forEditor, stepMs) == Ok(n.(id := x))
  {
    assert n.ms + offset - offset == n.ms;
  }

  /** Saving a non-empty chart and loading the file back gives the notes in
      ascending time order, renumbered 0, 1, ..., with their times, holds
      and types intact, for notes the loader accepts and textures without
      quote marks, which the written JSON could not hold anyway. */
  lemma SaveThenLoad(notes: seq<NoteData>, offset: real, forEditor: bool, stepMs: real)
    requires stepMs > 0.0
    requires |notes| > 0
    requires forall n :: n in notes ==> '"' !in n.texture && Loadable(n, stepMs)
    ensures var doc := Saved(notes, offset);
      var sorted := SortByMs(notes);
      && LoadPrefix(doc, KeyCount(doc) - 1, forEditor, stepMs).Ok?
      && |LoadPrefix(doc, KeyCount(doc) - 1, forEditor, stepMs).value| == |notes|
      && forall x :: 0 <= x < |notes| ==> LoadPrefix(doc, KeyCount(doc) - 1, forEditor, stepMs).value[x] == sorted[x].(id := x)
  {
    var sorted := SortByMs(notes);
    var doc := Saved(notes, offset);
    assert doc.notes.Keys == Below(|sorted|);
    assert KeyCount(doc) - 1 == |notes|;
    forall x: nat | x < |notes| ensures LoadNote(doc, x, forEditor, stepMs) == Ok(sorted[x].(id := x)) {
      LoadSavedRecord(notes, offset, x, forEditor, stepMs);
    }
    LoadPrefixSpec(doc, |notes|, forEditor, stepMs);
  }

  /** Once a prefix fails, every longer one fails the same way. */
  lemma {:induction false} ErrorPersists(doc: ChartDoc, k: int, k2: int, forEditor: bool, stepMs: real)
    requires stepMs > 0.0
    requires k <= k2 && LoadPrefix(doc, k, forEditor, stepMs).Err?
    ensures LoadPrefix(doc, k2, forEditor, stepMs) == LoadPrefix(doc, k, forEditor, stepMs)
    decreases k2 - k
  {
    if k < k2 {
      ErrorPersists(doc, k, k2 - 1, forEditor, stepMs);
    }
  }

  /** A file missing record x, loaded past x, fails in the editor with a
      KeyError and in the game with a TypeError. */
  lemma MissingRecordErrors(doc: ChartDoc, x: nat, stepMs: real)
    requires stepMs > 0.0
    requires x < KeyCount(doc) - 1 && x !in doc.notes
    requires forall y: nat :: y < x ==> LoadNote(doc, y, true, stepMs).Ok?
    ensures LoadPrefix(doc, KeyCount(doc) - 1, true, stepMs) == Err(KeyError)
    ensures LoadPrefix(doc, KeyCount(doc) - 1, false, stepMs) == Err(TypeError)
  {
    PrefixStopsAt(doc, x, KeyCount(doc) - 1, true, stepMs);
    forall y: nat | y < x ensures LoadNote(doc, y, false, stepMs).Ok? {
      assert LoadNote(doc, y, true, stepMs).Ok?;
    }
    PrefixStopsAt(doc, x, KeyCount(doc) - 1, false, stepMs);
  }

  /** The first failing record decides the load's error. */
  lemma {:induction false} PrefixStopsAt(doc: ChartDoc, x: nat, k: int, forEditor: bool, stepMs: real)
    requires stepMs > 0.0
    requires x < k && LoadNote(doc, x, forEditor, stepMs).Err?
    requires forall y: nat :: y < x ==> LoadNote(doc, y, forEditor, stepMs).Ok?
    ensures LoadPrefix(doc, k, forEditor, stepMs) == Err(LoadNote(doc, x, forEditor, stepMs).error)
    decreases k
  {
    if k - 1 > x {
      PrefixStopsAt(doc, x, k - 1, forEditor, stepMs);
    } else {
      LoadPrefixSpec(doc, x, forEditor, stepMs);
    }
  }
}
