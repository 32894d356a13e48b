/** code/util/Chart.py: the chart editor's grid cells, its notes and their
    hold edits, the editor's kill rules, and save_json. */
module Chart {
  import opened PyCore
  import opened Approach

  /** key_count: the receptors dict holds receptor0 .. receptor7. */
  const LaneCount: int := 8

  /** receptors.get(f'receptor{lane}') finds a receptor; for any other lane
      it gives None, and building a hold segment reads None.angle. */
  predicate HasReceptor(lane: int) {
    0 <= lane < LaneCount
  }

  // ---------------------------------------------------------------------
  // Kill rules
  // ---------------------------------------------------------------------

  /** ChartNote.run_kill: a note is hidden once its fraction is known and
      lies outside [0.1, 0.88]; before the first run_calc it is shown. */
  function ChartRunKill(frac: Option<real>): (r: bool)
  {
    frac.Some? && (frac.value > 0.88 || frac.value < 0.1)
  }

  /** In terms of time: an editor note is shown exactly while the conductor
      is no more than 0.77 screen-times before the note and no more than
      0.01 screen-times after it (a screen-time is spb * beats_shown
      seconds). */
  lemma ChartNoteVisibleWindow(ms: real, dt: real, t: Timing)
    requires ValidTiming(t)
    ensures var d := t.secPerBeat * t.beatsShown;
      (!ChartRunKill(Some(Calc(Beat(ms, t), dt, t))) <==> -0.77 * d <= dt - ms / 1000.0 <= 0.01 * d)
  {
    var d := t.secPerBeat * t.beatsShown;
    var y := dt - ms / 1000.0;
    CalcClosedForm(ms, dt, t);
    assert Calc(Beat(ms, t), dt, t) == 0.87 + y / d;
    DivBounds(y, d, -0.77, 0.01);
  }

  /** ChartHoldNote.run_kill: a hold segment is consumed past 0.87; reading
      a fraction that was never computed is a TypeError (None > 0.87). */
  function ChartHoldRunKill(seg: HoldSegment): (r: Result<bool>)
    ensures r.Err? <==> seg.frac.None?
    ensures r.Ok? ==> (r.value <==> seg.frac.value > 0.87)
  {
    match seg.frac
    case None => Err(TypeError)
    case Some(c) => Ok(c > 0.87)
  }

  /** Once consumed, a segment stays consumed as the song moves forward. */
  lemma ChartHoldConsumedStays(beat: real, dt1: real, dt2: real, t: Timing)
    requires ValidTiming(t) && dt1 <= dt2
    requires Calc(beat, dt1, t) > 0.87
    ensures Calc(beat, dt2, t) > 0.87
  {
    if dt1 < dt2 { CalcStrictlyIncreasing(beat, dt1, dt2, t); }
  }

  /** ChartHoldNote.update then `hold.alive = not hold.run_kill(song)`:
      the segment's fraction is recomputed for the conductor time dt and it
      is drawn only while not consumed. */
  function RecalcHold(seg: HoldSegment, dt: real, t: Timing): (r: HoldSegment)
    requires ValidTiming(t)
    ensures r.frac.Some? && r.frac.value == Calc(seg.beat, dt, t)
    ensures ChartHoldRunKill(r) == Ok(!r.alive)
    ensures r.(frac := seg.frac, alive := seg.alive) == seg
  {
    var c := Calc(seg.beat, dt, t);
    seg.(frac := Some(c), alive := !(c > 0.87))
  }

  // ---------------------------------------------------------------------
  // Editor events and the hold edit
  // ---------------------------------------------------------------------

  /** The events ChartNote.update reacts to: a mouse button released, a key
      pressed (by its character), or anything else. */
  datatype EditorEvent = MouseUp(button: int) | KeyDown(key: char) | OtherEvent

  /** What the event loop of ChartNote.update changes: the selection, the
      hold length in steps and in ms, whether hold_notes was rebuilt, and
      the editor's note list. */
  datatype EditState = EditState(
    selected: bool, steps: int, holdMs: real, rebuilt: bool, list: seq<ChartNote>)

  /** The hold edit of `q` and `e` once the step count and hold_ms are
      set: hold_notes is emptied and rebuilt for `range(0, steps + 1)`. The
      first segment built looks up the note's receptor, so a lane without
      one raises AttributeError as soon as the range is not empty, leaving
      the new counts and an empty hold_notes behind. */
  function Rebuild(s: EditState, steps: int, holdMs: real, lane: int): (EditState, Option<PyError>)
  {
    var s1 := s.(steps := steps, holdMs := holdMs, rebuilt := true);
    if steps >= 0 && !HasReceptor(lane) then (s1, Some(AttributeError)) else (s1, None)
  }

  /** One event of the loop, with the exception it raises if any. Left
      release selects a hovered, shown note and deselects when the pointer
      is elsewhere; right release on the note removes it from the list
      (ValueError, with nothing changed, when it is already gone); `q` and
      `e` shorten and lengthen a selected note's hold by one step, `q` only
      while the step count stays non-negative, and both rebuild
      hold_notes. */
  function EditStep(s: EditState, ev: EditorEvent, self: ChartNote, hovering: bool,
                    rootAlive: bool, stepMs: real): (EditState, Option<PyError>)
  {
    match ev
    case MouseUp(b) =>
      if b == 1 then
        if hovering && rootAlive then (s.(selected := true), None)
        else if !hovering then (s.(selected := false), None)
        else (s, None)
      else if b == 3 && hovering then
        if self in s.list then (s.(list := RemoveFirst(s.list, self)), None) else (s, Some(ValueError))
      else (s, None)
    case KeyDown(k) =>
      if !s.selected then (s, None)
      else if k == 'q' then
        if s.steps - 1 >= 0 then Rebuild(s, s.steps - 1, s.holdMs - stepMs, self.lane)
        else Rebuild(s, s.steps, s.holdMs, self.lane)
      else if k == 'e' then Rebuild(s, s.steps + 1, s.holdMs + stepMs, self.lane)
      else (s, None)
    case OtherEvent => (s, None)
  }

  /** The whole event loop: the state after the last event, or the state
      in which an exception stopped it together with that exception. */
  function ApplyEdits(s: EditState, events: seq<EditorEvent>, self: ChartNote, hovering: bool,
                      rootAlive: bool, stepMs: real): (EditState, Option<PyError>)
    decreases |events|
  {
    if events == [] then (s, None)
    else
      var (s1, e) := EditStep(s, events[0], self, hovering, rootAlive, stepMs);
      if e.Some? then (s1, e) else ApplyEdits(s1, events[1..], self, hovering, rootAlive, stepMs)
  }

  /** Which events raise: a right release on a note already gone from the
      list (ValueError), and `q` or `e` on a selected note whose lane has
      no receptor, unless the step count it leaves is negative
      (AttributeError). A note loaded in lane -1 with no hold is one: `e`
      takes it to one step and fails on the root segment. */
  lemma EditStepFails(s: EditState, ev: EditorEvent, self: ChartNote, hovering: bool,
                      rootAlive: bool, stepMs: real)
    ensures var (s1, e) := EditStep(s, ev, self, hovering, rootAlive, stepMs);
      && (e == Some(ValueError) <==> ev == MouseUp(3) && hovering && self !in s.list)
      && (e == Some(AttributeError) <==>
            && ev.KeyDown? && (ev.key == 'q' || ev.key == 'e') && s.selected
            && s1.steps >= 0 && !HasReceptor(self.lane))
      && (e.None? || e == Some(ValueError) || e == Some(AttributeError))
      && (e == Some(ValueError) ==> s1 == s)
  {
  }

  /** One event moves hold_ms by a whole step exactly when it moves the
      step count by one, in the same direction; this holds also for an
      edit that then raises. */
  lemma EditStepHold(s: EditState, ev: EditorEvent, self: ChartNote, hovering: bool,
                     rootAlive: bool, stepMs: real)
    ensures var s1 := EditStep(s, ev, self, hovering, rootAlive, stepMs).0;
      || (s1.steps == s.steps && s1.holdMs == s.holdMs)
      || (s1.steps == s.steps - 1 && s1.holdMs == s.holdMs - stepMs)
      || (s1.steps == s.steps + 1 && s1.holdMs == s.holdMs + stepMs)
  {
  }

  /** The part of hold_ms that is not a whole number of steps. */
  function HoldRemainder(s: EditState, stepMs: real): real {
    s.holdMs - s.steps as real * stepMs
  }

  /** Hence one event keeps the part of hold_ms that is not whole steps. */
  lemma EditStepKeepsRemainder(s: EditState, ev: EditorEvent, self: ChartNote, hovering: bool,
                               rootAlive: bool, stepMs: real)
    ensures HoldRemainder(EditStep(s, ev, self, hovering, rootAlive, stepMs).0, stepMs) == HoldRemainder(s, stepMs)
  {
    var s1 := EditStep(s, ev, self, hovering, rootAlive, stepMs).0;
    EditStepHold(s, ev, self, hovering, rootAlive, stepMs);
    var k := s.steps as real;
    if s1.steps == s.steps - 1 {
      assert s1.steps as real * stepMs == k * stepMs - stepMs;
    } else if s1.steps == s.steps + 1 {
      assert s1.steps as real * stepMs == k * stepMs + stepMs;
    }
  }

  /** The hold edits move hold_ms and the step count together, so the part
      of hold_ms that is not a whole number of steps never changes. */
  lemma {:induction false} EditsKeepHoldRemainder(s: EditState, events: seq<EditorEvent>, self: ChartNote,
                                                 hovering: bool, rootAlive: bool, stepMs: real)
    ensures HoldRemainder(ApplyEdits(s, events, self, hovering, rootAlive, stepMs).0, stepMs) == HoldRemainder(s, stepMs)
    decreases |events|
  {
    if events != [] {
      var (s1, e) := EditStep(s, events[0], self, hovering, rootAlive, stepMs);
      EditStepKeepsRemainder(s, events[0], self, hovering, rootAlive, stepMs);
      if e.None? {
        EditsKeepHoldRemainder(s1, events[1..], self, hovering, rootAlive, stepMs);
      }
    }
  }

  /** A step count that starts non-negative stays non-negative. */
  lemma {:induction false} EditsKeepStepsNonNegative(s: EditState, events: seq<EditorEvent>, self: ChartNote,
                                                    hovering: bool, rootAlive: bool, stepMs: real)
    requires s.steps >= 0
    ensures ApplyEdits(s, events, self, hovering, rootAlive, stepMs).0.steps >= 0
    decreases |events|
  {
    if events != [] {
      var (s1, e) := EditStep(s, events[0], self, hovering, rootAlive, stepMs);
      if e.None? {
        EditsKeepStepsNonNegative(s1, events[1..], self, hovering, rootAlive, stepMs);
      }
    }
  }

  /** A note that is not selected and receives no left release keeps its
      hold: key presses alone never edit an unselected note, so they never
      raise either. */
  lemma {:induction false} UnselectedNoteKeepsHold(s: EditState, events: seq<EditorEvent>, self: ChartNote,
                                                  hovering: bool, rootAlive: bool, stepMs: real)
    requires !s.selected
    requires forall i :: 0 <= i < |events| ==> events[i] != MouseUp(1)
    ensures var (s', e) := ApplyEdits(s, events, self, hovering, rootAlive, stepMs);
      s'.steps == s.steps && s'.holdMs == s.holdMs && !s'.rebuilt == !s.rebuilt && !s'.selected
      && e != Some(AttributeError)
    decreases |events|
  {
    if events != [] {
      var (s1, e) := EditStep(s, events[0], self, hovering, rootAlive, stepMs);
      assert s1.steps == s.steps && s1.holdMs == s.holdMs && s1.rebuilt == s.rebuilt && !s1.selected;
      assert e != Some(AttributeError);
      if e.None? {
        UnselectedNoteKeepsHold(s1, events[1..], self, hovering, rootAlive, stepMs);
      }
    }
  }

  // ---------------------------------------------------------------------
  // ChartNote
  // ---------------------------------------------------------------------

  /** The fields of a chart note that save_json writes. */
  datatype NoteData = NoteData(id: int, lane: int, ms: real, holdMs: real, texture: string, kind: string)

  /** ChartNote: a note in the editor. `holdSteps` is hold_ms_in_steps,
      `holds` the hold_notes list, `frac` the approach fraction (calc). */
  class ChartNote {
    const id: int
    const lane: int
    const ms: real
    const beat: real
    const texture: string
    const kind: string
    var holdMs: real
    var holdSteps: int
    var holds: seq<HoldSegment>
    var selected: bool
    var rootAlive: bool
    var frac: Option<real>

    /** ChartNote.__init__: hold_ms_in_steps = int(hold_ms / step_ms), and
        hold segments only when that is positive. */
    constructor (id: int, lane: int, ms: real, holdMs: real, texture: string, kind: string, t: Timing)
      requires ValidTiming(t)
      ensures this.id == id && this.lane == lane && this.ms == ms && this.holdMs == holdMs
      ensures this.texture == texture && this.kind == kind
      ensures beat == Beat(ms, t)
      ensures holdSteps == HoldSteps(holdMs, t)
      ensures holds == if holdSteps > 0 then HoldLayout(ms, holdSteps, t) else []
      ensures !selected && rootAlive && frac == None
    {
      this.id := id;
      this.lane := lane;
      this.ms := ms;
      this.holdMs := holdMs;
      this.texture := texture;
      this.kind := kind;
      beat := Beat(ms, t);
      var k := HoldSteps(holdMs, t);
      holdSteps := k;
      var segs := [];
      if k > 0 {
        segs := BuildHoldSegments(ms, k, t);
      }
      holds := segs;
      selected := false;
      rootAlive := true;
      frac := None;
    }

    /** The record save_json takes from this note. */
    function Data(): (d: NoteData)
      reads this
      ensures d.id == id && d.lane == lane && d.ms == ms && d.holdMs == holdMs
      ensures d.texture == texture && d.kind == kind
    {
      NoteData(id, lane, ms, holdMs, texture, kind)
    }

    /** The rebuild both keys share: hold_notes is emptied, then one
        segment is built per x in range(0, steps + 1); the first of them
        raises AttributeError when the lane has no receptor. */
    method RebuildHolds(t: Timing) returns (err: Option<PyError>)
      requires ValidTiming(t)
      modifies this`holds
      ensures err.Some? <==> holdSteps >= 0 && !HasReceptor(lane)
      ensures err.Some? ==> err == Some(AttributeError) && holds == []
      ensures err.None? ==> holds == HoldLayout(ms, holdSteps, t)
    {
      holds := [];
      if holdSteps >= 0 && !HasReceptor(lane) {
        return Some(AttributeError);
      }
      holds := BuildHoldSegments(ms, holdSteps, t);
      return None;
    }

    /** Key `q` on a selected note: one step shorter when the step count
        can drop without going negative; hold_notes is rebuilt for
        `range(0, steps + 1)` either way, which raises on a lane without a
        receptor after the counts have changed. */
    method ShortenHold(t: Timing) returns (err: Option<PyError>)
      requires ValidTiming(t)
      modifies this`holdSteps, this`holdMs, this`holds
      ensures old(holdSteps) - 1 >= 0 ==> holdSteps == old(holdSteps) - 1 && holdMs == old(holdMs) - StepMs(t)
      ensures old(holdSteps) - 1 < 0 ==> holdSteps == old(holdSteps) && holdMs == old(holdMs)
      ensures err.Some? <==> holdSteps >= 0 && !HasReceptor(lane)
      ensures err.Some? ==> err == Some(AttributeError) && holds == []
      ensures err.None? ==> holds == HoldLayout(ms, holdSteps, t)
    {
      if holdSteps - 1 >= 0 {
        holdSteps := holdSteps - 1;
        holdMs := holdMs - StepMs(t);
      }
      err := RebuildHolds(t);
    }

    /** Key `e` on a selected note: one step longer, hold_notes rebuilt,
        which raises on a lane without a receptor after the counts have
        changed. */
    method LengthenHold(t: Timing) returns (err: Option<PyError>)
      requires ValidTiming(t)
      modifies this`holdSteps, this`holdMs, this`holds
      ensures holdSteps == old(holdSteps) + 1 && holdMs == old(holdMs) + StepMs(t)
      ensures err.Some? <==> holdSteps >= 0 && !HasReceptor(lane)
      ensures err.Some? ==> err == Some(AttributeError) && holds == []
      ensures err.None? ==> holds == HoldLayout(ms, holdSteps, t)
    {
      holdSteps := holdSteps + 1;
      holdMs := holdMs + StepMs(t);
      err := RebuildHolds(t);
    }

    /** One event of the loop in ChartNote.update (EditStep on the note's
        fields); `rebuilt` says whether hold_notes was emptied for a
        rebuild, which an AttributeError leaves empty. */
    method HandleEvent(ev: EditorEvent, hovering: bool, list: seq<ChartNote>, ghost before: bool, t: Timing)
      returns (newList: seq<ChartNote>, err: Option<PyError>, rebuilt: bool)
      requires ValidTiming(t)
      modifies this`selected, this`holdSteps, this`holdMs, this`holds
      ensures var (s1, e) := EditStep(EditState(old(selected), old(holdSteps), old(holdMs), before, list),
                                      ev, this, hovering, rootAlive, StepMs(t));
        && err == e
        && s1 == EditState(selected, holdSteps, holdMs, before || rebuilt, newList)
      ensures rebuilt <==> ev.KeyDown? && old(selected) && (ev.key == 'q' || ev.key == 'e')
      ensures rebuilt && err.None? ==> holds == HoldLayout(ms, holdSteps, t)
      ensures rebuilt && err.Some? ==> holds == []
      ensures !rebuilt ==> holds == old(holds) && holdSteps == old(holdSteps) && holdMs == old(holdMs)
    {
      newList, err, rebuilt := list, None, false;
      match ev {
        case MouseUp(b) =>
          if b == 1 {
            if hovering && rootAlive {
              selected := true;
            } else if !hovering {
              selected := false;
            }
          } else if b == 3 && hovering {
            if this !in newList {
              err := Some(ValueError);
              return;
            }
            newList := RemoveFirst(newList, this);
          }
        case KeyDown(k) =>
          if selected {
            if k == 'q' {
              err := ShortenHold(t);
              rebuilt := true;
            } else if k == 'e' {
              err := LengthenHold(t);
              rebuilt := true;
            }
          }
        case OtherEvent =>
      }
    }

    /** ChartNote.update for one frame at conductor time dt: root_alive is
        set from the fraction of the previous frame, the events are applied
        in order (an exception stops the frame where it happens), then
        every hold segment is recomputed and the note's own fraction is
        recomputed. `noteList` is the editor's note list; the new list is
        returned. */
    method Update(events: seq<EditorEvent>, hovering: bool, noteList: seq<ChartNote>, dt: real, t: Timing)
      returns (newList: seq<ChartNote>, err: Option<PyError>)
      requires ValidTiming(t)
      modifies this`rootAlive, this`selected, this`holdSteps, this`holdMs, this`holds, this`frac
      ensures rootAlive == !ChartRunKill(old(frac))
      ensures var (s, e) := ApplyEdits(EditState(old(selected), old(holdSteps), old(holdMs), false, noteList),
                                       events, this, hovering, rootAlive, StepMs(t));
        && err == e
        && selected == s.selected && holdSteps == s.steps && holdMs == s.holdMs && newList == s.list
        && (e == Some(AttributeError) ==> holds == [])
        && (s.rebuilt && e != Some(AttributeError) ==> HoldsMatch(holds, HoldLayout(ms, holdSteps, t), e, dt, t))
        && (!s.rebuilt ==> HoldsMatch(holds, old(holds), e, dt, t))
        && frac == (if e.None? then Some(Calc(beat, dt, t)) else old(frac))
    {
      rootAlive := !ChartRunKill(frac);
      ghost var s0 := EditState(selected, holdSteps, holdMs, false, noteList);
      ghost var s := s0;
      newList := noteList;
      err := None;
      var i := 0;
      while i < |events|
        invariant 0 <= i <= |events|
        invariant s == EditState(selected, holdSteps, holdMs, s.rebuilt, newList)
        invariant ApplyEdits(s0, events, this, hovering, rootAlive, StepMs(t))
               == ApplyEdits(s, events[i..], this, hovering, rootAlive, StepMs(t))
        invariant s.rebuilt ==> holds == HoldLayout(ms, holdSteps, t)
        invariant !s.rebuilt ==> holds == old(holds)
        invariant unchanged(this`frac) && rootAlive == !ChartRunKill(old(frac)) && err.None?
      {
        var ev := events[i];
        assert events[i..][0] == ev && events[i..][1..] == events[i + 1..];
        ghost var next := EditStep(s, ev, this, hovering, rootAlive, StepMs(t));
        assert ApplyEdits(s, events[i..], this, hovering, rootAlive, StepMs(t))
            == if next.1.Some? then next else ApplyEdits(next.0, events[i + 1..], this, hovering, rootAlive, StepMs(t));
        var rebuiltNow;
        newList, err, rebuiltNow := HandleEvent(ev, hovering, newList, s.rebuilt, t);
        s := next.0;
        if err.Some? {
          return;
        }
        i := i + 1;
      }
      assert events[i..] == [];
      holds := RecalcHolds(holds, dt, t);
      frac := Some(Calc(beat, dt, t));
    }

    /** The two loops over hold_notes at the end of update: hold.update
        (run_calc) for every segment, then `hold.alive = not run_kill`. */
    static method RecalcHolds(segs: seq<HoldSegment>, dt: real, t: Timing) returns (r: seq<HoldSegment>)
      requires ValidTiming(t)
      ensures |r| == |segs|
      ensures forall i :: 0 <= i < |segs| ==> r[i] == RecalcHold(segs[i], dt, t)
    {
      r := segs;
      var i := 0;
      while i < |r|
        invariant 0 <= i <= |r| == |segs|
        invariant forall j :: 0 <= j < i ==> r[j] == segs[j].(frac := Some(Calc(segs[j].beat, dt, t)))
        invariant forall j :: i <= j < |r| ==> r[j] == segs[j]
      {
        r := r[i := r[i].(frac := Some(Calc(r[i].beat, dt, t)))];
        i := i + 1;
      }
      i := 0;
      while i < |r|
        invariant 0 <= i <= |r| == |segs|
        invariant forall j :: 0 <= j < i ==> r[j] == RecalcHold(segs[j], dt, t)
        invariant forall j :: i <= j < |r| ==> r[j] == segs[j].(frac := Some(Calc(segs[j].beat, dt, t)))
      {
        var consumed := ChartHoldRunKill(r[i]);
        r := r[i := r[i].(alive := !consumed.value)];
        i := i + 1;
      }
    }
  }

  /** The hold segments after a frame: recomputed from `from` when the
      frame finished, `from` untouched when an exception stopped it. */
  ghost predicate HoldsMatch(holds: seq<HoldSegment>, from: seq<HoldSegment>, e: Option<PyError>, dt: real, t: Timing)
    requires ValidTiming(t)
  {
    if e.Some? then holds == from
    else |holds| == |from| && forall i :: 0 <= i < |from| ==> holds[i] == RecalcHold(from[i], dt, t)
  }

  // ---------------------------------------------------------------------
  // ChartGrid
  // ---------------------------------------------------------------------

  /** ChartGrid: one cell of the editor grid in a lane. `mult` is how many
      seconds ahead of the judgement line the cell sits; curMs is the
      song time the cell stands for, which scrolling moves. */
  class ChartGrid {
    const lane: int
    const mult: real
    const initMs: real
    var curMs: real

    /** ChartGrid.__init__: cur_ms = round(ms * 1000, 2) and init_ms the same. */
    constructor (lane: int, ms: real)
      ensures this.lane == lane && mult == ms
      ensures curMs == initMs == Round2(ms * 1000.0)
      ensures ms * 1000.0 - 0.005 < curMs <= ms * 1000.0 + 0.005
    {
      this.lane := lane;
      mult := ms;
      var c := Round2(ms * 1000.0);
      initMs := c;
      curMs := c;
    }

    /** The time a note placed on this cell gets: the global offset is
        subtracted at the call (cur_ms - offset) and again inside add_note. */
    function PlacedMs(offset: real): (r: real)
      reads this
      ensures curMs - r == 2.0 * offset
    {
      (curMs - offset) - offset
    }

    /** A left click on the cell: with a song loaded, the pointer on the
        cell and on no existing note, add_note appends a new ChartNote with
        id len(note_list), this cell's lane, PlacedMs, no hold, texture
        'note' and type ''. Otherwise the list is unchanged. */
    method Click(noteList: seq<ChartNote>, hovering: bool, overNote: bool, song: Option<Timing>, offset: real)
      returns (newList: seq<ChartNote>)
      requires song.Some? ==> ValidTiming(song.value)
      ensures hovering && song.Some? && !overNote ==>
        && |newList| == |noteList| + 1 && newList[..|noteList|] == noteList
        && fresh(newList[|noteList|])
        && newList[|noteList|].Data() == NoteData(|noteList|, lane, PlacedMs(offset), 0.0, "note", "")
        && newList[|noteList|].holds == []
      ensures !(hovering && song.Some? && !overNote) ==> newList == noteList
    {
      newList := noteList;
      if hovering && song.Some? {
        if !overNote {
          var n := new ChartNote(|noteList|, lane, (curMs - offset) - offset, 0.0, "note", "", song.value);
          assert HoldSteps(0.0, song.value) == 0;
          newList := noteList + [n];
        }
      }
    }
  }

  // ---------------------------------------------------------------------
  // save_json
  // ---------------------------------------------------------------------

  /** One `"note{x}": [id, lane, time, hold, texture, type]` record, held as
      the values json.loads gives back. */
  datatype NoteRecord = NoteRecord(id: int, lane: int, time: real, hold: real, texture: string, kind: string)

  /** A chart file: its "offset" key (if present) and its "note{x}" keys by x. */
  datatype ChartDoc = ChartDoc(offset: Option<real>, notes: map<nat, NoteRecord>)

  /** Number of top-level keys of the JSON object. */
  function KeyCount(doc: ChartDoc): nat
  {
    |doc.notes.Keys| + (if doc.offset.Some? then 1 else 0)
  }

  /** Notes in ascending order of ms. */
  ghost predicate SortedByMs(s: seq<NoteData>) {
    forall i, j :: 0 <= i < j < |s| ==> s[i].ms <= s[j].ms
  }

  /** Insert n in front of the first note that is not earlier than it. */
  function InsertByMs(n: NoteData, s: seq<NoteData>): (r: seq<NoteData>)
    ensures multiset(r) == multiset(s) + multiset{n}
    ensures |r| == |s| + 1
    decreases |s|
  {
    if s == [] || n.ms <= s[0].ms then [n] + s
    else
      assert s == [s[0]] + s[1..];
      [s[0]] + InsertByMs(n, s[1..])
  }

  /** sorted(note_list, key=lambda n: n.ms), as an insertion sort. */
  function SortByMs(s: seq<NoteData>): (r: seq<NoteData>)
    ensures multiset(r) == multiset(s)
    ensures |r| == |s|
    decreases |s|
  {
    if s == [] then []
    else
      assert s == [s[0]] + s[1..];
      InsertByMs(s[0], SortByMs(s[1..]))
  }

  lemma {:induction false} InsertByMsSorted(n: NoteData, s: seq<NoteData>)
    requires SortedByMs(s)
    ensures SortedByMs(InsertByMs(n, s))
    decreases |s|
  {
    if s != [] && n.ms > s[0].ms {
      InsertByMsSorted(n, s[1..]);
      var rest := InsertByMs(n, s[1..]);
      forall k | 0 <= k < |rest| ensures s[0].ms <= rest[k].ms {
        assert rest[k] in multiset(rest);
        if rest[k] != n {
          assert rest[k] in multiset(s[1..]);
          var j :| 0 <= j < |s[1..]| && s[1..][j] == rest[k];
          assert s[j + 1] == rest[k];
        }
      }
    }
  }

  /** The sorted list is in ascending order of ms (and, by SortByMs's
      contract, holds exactly the notes it was given). */
  lemma {:induction false} SortByMsSorted(s: seq<NoteData>)
    ensures SortedByMs(SortByMs(s))
    decreases |s|
  {
    if s != [] {
      SortByMsSorted(s[1..]);
      InsertByMsSorted(s[0], SortByMs(s[1..]));
    }
  }

  /** The notes of s timed at m, in their order in s. */
  function WithMs(s: seq<NoteData>, m: real): seq<NoteData>
    decreases |s|
  {
    if s == [] then []
    else (if s[0].ms == m then [s[0]] else []) + WithMs(s[1..], m)
  }

  /** Inserting n puts it ahead of every note timed as it is. */
  lemma {:induction false} InsertByMsWithMs(n: NoteData, s: seq<NoteData>, m: real)
    ensures WithMs(InsertByMs(n, s), m) == (if n.ms == m then [n] else []) + WithMs(s, m)
    decreases |s|
  {
    if s == [] || n.ms <= s[0].ms {
      assert ([n] + s)[1..] == s;
    } else {
      InsertByMsWithMs(n, s[1..], m);
      assert ([s[0]] + InsertByMs(n, s[1..]))[1..] == InsertByMs(n, s[1..]);
    }
  }

  /** The sort is stable, as Python's sorted is: notes with equal ms keep
      the order they were given in. */
  lemma {:induction false} SortByMsStable(s: seq<NoteData>, m: real)
    ensures WithMs(SortByMs(s), m) == WithMs(s, m)
    decreases |s|
  {
    if s != [] {
      SortByMsStable(s[1..], m);
      InsertByMsWithMs(s[0], SortByMs(s[1..]), m);
    }
  }

  /** The record for sorted position x: id x, the note's lane, its time
      with the global offset added back, its hold, texture and type. */
  function RecordOf(n: NoteData, x: nat, offset: real): (r: NoteRecord)
    ensures r.id == x && r.lane == n.lane && r.time - offset == n.ms && r.hold == n.holdMs
    ensures r.texture == n.texture && r.kind == n.kind
  {
    NoteRecord(x, n.lane, n.ms + offset, n.holdMs, n.texture, n.kind)
  }

  /** The note records save_json writes for a sorted list of at least two
      notes: the loop writes every record but the last, and the last record
      takes its hold from `note`, the loop's final value, which is the
      second-to-last note. */
  ghost function RecordsAsWritten(sorted: seq<NoteData>, offset: real): map<nat, NoteRecord>
    requires |sorted| >= 2
  {
    var last := |sorted| - 1;
    map x: nat | x <= last ::
      if x < last then RecordOf(sorted[x], x, offset)
      else RecordOf(sorted[last], last, offset).(hold := sorted[last - 1].holdMs)
  }

  /** The records one per sorted note, each with its own hold. */
  ghost function Records(sorted: seq<NoteData>, offset: real): map<nat, NoteRecord>
  {
    map x: nat | x < |sorted| :: RecordOf(sorted[x], x, offset)
  }

  /** The records of the first n sorted notes, as the loop of save_json
      has built them. */
  ghost function RecordsUpTo(sorted: seq<NoteData>, offset: real, n: nat): map<nat, NoteRecord>
    requires n <= |sorted|
  {
    map x: nat | x < n :: RecordOf(sorted[x], x, offset)
  }

  /** One more turn of the loop writes record n. */
  lemma RecordsUpToGrow(sorted: seq<NoteData>, offset: real, n: nat)
    requires n < |sorted|
    ensures RecordsUpTo(sorted, offset, n)[n := RecordOf(sorted[n], n, offset)] == RecordsUpTo(sorted, offset, n + 1)
  {
  }

  /** All records built: Records, or RecordsAsWritten once the last record
      is written with the hold of the one before. */
  lemma RecordsUpToAll(sorted: seq<NoteData>, offset: real)
    ensures RecordsUpTo(sorted, offset, |sorted|) == Records(sorted, offset)
    ensures |sorted| >= 2 ==>
      var last := |sorted| - 1;
      RecordsUpTo(sorted, offset, last)[last := RecordOf(sorted[last], last, offset).(hold := sorted[last - 1].holdMs)]
        == RecordsAsWritten(sorted, offset)
  {
  }

  /** What save_json leaves in the chart file: a whole document, or, when
      it raises part way, only the opening brace and the offset line that
      it wrote after opening the file with 'w' (not valid JSON). */
  datatype Written = Whole(doc: ChartDoc) | Cut(offset: real)

  /** save_json as written. An empty list opens no file (None). Otherwise
      the file is opened for writing, which empties it, and the offset is
      written first. One note then fails with UnboundLocalError when the
      last record reads `note`, leaving the cut file behind. Two or more
      notes give the offset and RecordsAsWritten of the notes sorted by
      ms. */
  method SaveJson(notes: seq<NoteData>, offset: real) returns (file: Option<Written>, err: Option<PyError>)
    ensures |notes| == 0 ==> file == None && err == None
    ensures |notes| == 1 ==> file == Some(Cut(offset)) && err == Some(UnboundLocalError)
    ensures |notes| >= 2 ==>
      file == Some(Whole(ChartDoc(Some(offset), RecordsAsWritten(SortByMs(notes), offset)))) && err == None
  {
    if |notes| == 0 {
      return None, None;
    }
    var sorted := SortByMs(notes);
    SortByMsSorted(notes);
    file := Some(Cut(offset));
    var records: map<nat, NoteRecord> := map[];
    var note: Option<NoteData> := None;
    var x := 0;
    while x < |sorted| - 1
      invariant 0 <= x <= |sorted| - 1
      invariant records == RecordsUpTo(sorted, offset, x)
      invariant note == if x == 0 then None else Some(sorted[x - 1])
    {
      note := Some(sorted[x]);
      RecordsUpToGrow(sorted, offset, x);
      records := records[x := RecordOf(sorted[x], x, offset)];
      x := x + 1;
    }
    if note.None? {
      return file, Some(UnboundLocalError);
    }
    var last := |sorted| - 1;
    RecordsUpToAll(sorted, offset);
    records := records[last := RecordOf(sorted[last], last, offset).(hold := note.value.holdMs)];
    file := Some(Whole(ChartDoc(Some(offset), records)));
    err := None;
  }

  /** save_json with the last record's hold taken from the last note: every
      non-empty list is written, each record with its own hold. */
  method SaveJsonFixed(notes: seq<NoteData>, offset: real) returns (r: Option<ChartDoc>)
    ensures |notes| == 0 ==> r == None
    ensures |notes| > 0 ==> r == Some(ChartDoc(Some(offset), Records(SortByMs(notes), offset)))
  {
    if |notes| == 0 {
      return None;
    }
    var sorted := SortByMs(notes);
    SortByMsSorted(notes);
    var records: map<nat, NoteRecord> := map[];
    var x := 0;
    while x < |sorted|
      invariant 0 <= x <= |sorted|
      invariant records == RecordsUpTo(sorted, offset, x)
    {
      RecordsUpToGrow(sorted, offset, x);
      records := records[x := RecordOf(sorted[x], x, offset)];
      x := x + 1;
    }
    RecordsUpToAll(sorted, offset);
    r := Some(ChartDoc(Some(offset), records));
  }

  /** Written records come in ascending time order under keys note0, note1,
      ..., each key equal to its record's id. */
  lemma SavedRecordsAscending(notes: seq<NoteData>, offset: real)
    ensures forall x: nat :: x in Records(SortByMs(notes), offset) <==> x < |notes|
    ensures forall x: nat :: x < |notes| ==> Records(SortByMs(notes), offset)[x].id == x
    ensures forall x: nat, y: nat :: x <= y < |notes| ==>
      Records(SortByMs(notes), offset)[x].time <= Records(SortByMs(notes), offset)[y].time
  {
    SortByMsSorted(notes);
    RecordsAscending(SortByMs(notes), offset);
  }

  /** The records of a sorted list: keys 0 .. |s| - 1, ids equal to keys,
      times ascending. */
  lemma RecordsAscending(s: seq<NoteData>, offset: real)
    requires SortedByMs(s)
    ensures forall x: nat :: x in Records(s, offset) <==> x < |s|
    ensures forall x: nat :: x < |s| ==> Records(s, offset)[x].id == x
    ensures forall x: nat, y: nat :: x <= y < |s| ==> Records(s, offset)[x].time <= Records(s, offset)[y].time
  {
    var recs := Records(s, offset);
    forall x: nat, y: nat | x <= y < |s| ensures recs[x].time <= recs[y].time {
      if x < y {
        assert s[x].ms <= s[y].ms;
      }
    }
  }

  /** The defect: two notes whose earlier one has no hold and whose later
      one holds for 500 ms are saved with no hold on the later one. */
  lemma LastRecordTakesPreviousHold()
    ensures var a := NoteData(0, 0, 100.0, 0.0, "note", "");
      var b := NoteData(1, 1, 200.0, 500.0, "note", "");
      var written := RecordsAsWritten(SortByMs([a, b]), 0.0);
      1 in written && written[1].hold == 0.0 && b.holdMs == 500.0
  {
    var a := NoteData(0, 0, 100.0, 0.0, "note", "");
    var b := NoteData(1, 1, 200.0, 500.0, "note", "");
    assert SortByMs([b]) == [b];
    assert SortByMs([a, b]) == [a, b];
  }
}
