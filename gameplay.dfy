/** code/main.py, gameplay_main: the hittable set, key-down and key-up
    judgement and the passive miss pass. The notes are the values of
    note_list by key number x ("note{x}"); cur_hit_notes holds note objects,
    compared by identity, and is modelled as the list of their key numbers. */
module Gameplay {
  import opened PyCore
  import opened Util
  import opened Approach
  import opened Classes
  import opened Game
  import Chart

  // ---------------------------------------------------------------------
  // Duplicate-free index lists
  // ---------------------------------------------------------------------

  /** No key number occurs twice. */
  ghost predicate NoDup(s: seq<nat>) {
    forall i, j :: 0 <= i < j < |s| ==> s[i] != s[j]
  }

  function Elems(s: seq<nat>): set<nat> {
    set v | v in s
  }

  /** A duplicate-free list grows by a key it lacks and stays duplicate-free. */
  lemma NoDupAppend(s: seq<nat>, v: nat)
    requires NoDup(s)
    ensures v !in s ==> NoDup(s + [v])
  {
    if v !in s {
      forall i, j | 0 <= i < j < |s| + 1 ensures (s + [v])[i] != (s + [v])[j] {
        if j == |s| {
          assert s[i] in s;
        }
      }
    }
  }

  /** A duplicate-free list less its head: its head does not recur. */
  lemma NoDupTail(s: seq<nat>)
    requires NoDup(s) && |s| > 0
    ensures NoDup(s[1..]) && s[0] !in s[1..]
  {
    forall i, j | 0 <= i < j < |s| - 1 ensures s[1..][i] != s[1..][j] {
      assert s[1..][i] == s[i + 1] && s[1..][j] == s[j + 1];
    }
    forall j | 0 <= j < |s| - 1 ensures s[1..][j] != s[0] {
      assert s[1..][j] == s[j + 1];
    }
  }

  /** A key a duplicate-free list lacks, put in front of it. */
  lemma NoDupCons(v: nat, s: seq<nat>)
    requires NoDup(s) && v !in s
    ensures NoDup([v] + s)
  {
    forall i, j | 0 <= i < j < |s| + 1 ensures ([v] + s)[i] != ([v] + s)[j] {
      assert ([v] + s)[j] == s[j - 1];
      if i > 0 {
        assert ([v] + s)[i] == s[i - 1];
      } else {
        assert s[j - 1] in s;
      }
    }
  }

  lemma {:induction false} NoDupElems(s: seq<nat>)
    requires NoDup(s)
    ensures |Elems(s)| == |s|
    decreases |s|
  {
    if s != [] {
      NoDupTail(s);
      NoDupElems(s[1..]);
      assert Elems(s) == Elems(s[1..]) + {s[0]};
    }
  }

  lemma {:induction false} SubsetSize(a: set<nat>, b: set<nat>)
    requires a <= b
    ensures |a| <= |b|
    decreases |b|
  {
    if b != {} {
      var v :| v in b;
      SubsetSize(a - {v}, b - {v});
    }
  }

  /** A list of distinct key numbers below n holds at most n of them: the
      hittable set never outgrows the chart. */
  lemma HittableBound(s: seq<nat>, n: nat)
    requires NoDup(s) && forall v :: v in s ==> v < n
    ensures |s| <= n
  {
    NoDupElems(s);
    SubsetSize(Elems(s), Below(n));
  }

  /** Removing the first copy of a key from a duplicate-free list removes
      that key and nothing else. */
  lemma {:induction false} RemoveFirstKey(s: seq<nat>, k: nat)
    requires NoDup(s) && k in s
    ensures NoDup(RemoveFirst(s, k))
    ensures forall v :: v in RemoveFirst(s, k) <==> (v in s && v != k)
    decreases |s|
  {
    NoDupTail(s);
    assert s == [s[0]] + s[1..];
    if s[0] != k {
      RemoveFirstKey(s[1..], k);
      NoDupCons(s[0], RemoveFirst(s[1..], k));
    }
  }

  /** `while list.count(v) > 0: list.remove(v)`: every copy of v removed,
      the rest kept in order. */
  function RemoveAll(s: seq<nat>, v: nat): (r: seq<nat>)
    ensures |r| <= |s|
    ensures forall w :: w in r <==> (w in s && w != v)
    decreases |s|
  {
    if s == [] then []
    else
      assert s == [s[0]] + s[1..];
      if s[0] == v then RemoveAll(s[1..], v) else [s[0]] + RemoveAll(s[1..], v)
  }

  /** Removing every copy of a key keeps a list duplicate-free. */
  lemma {:induction false} RemoveAllNoDup(s: seq<nat>, v: nat)
    requires NoDup(s)
    ensures NoDup(RemoveAll(s, v))
    decreases |s|
  {
    if s != [] {
      NoDupTail(s);
      RemoveAllNoDup(s[1..], v);
      if s[0] != v {
        NoDupCons(s[0], RemoveAll(s[1..], v));
      }
    }
  }

  // ---------------------------------------------------------------------
  // The judgement state
  // ---------------------------------------------------------------------

  /** What the judgement reads and writes: the notes by key number,
      cur_hit_notes, cur_note, accuracy_ranks, average_acc and accuracy_ms
      (None until the first hit assigns it). */
  datatype Play = Play(
    notes: seq<Note>, hittable: seq<nat>, cur: nat, ranks: seq<int>,
    accuracy: real, lastAccuracyMs: Option<real>)

  /** What every step keeps: five non-negative counters, cur_note a key of
      the chart (0 for an empty chart), and a duplicate-free hittable set of
      keys of the chart no further than cur_note + 1. */
  ghost predicate WellFormed(p: Play) {
    && |p.ranks| == 5 && (forall j :: 0 <= j < 5 ==> p.ranks[j] >= 0)
    && (p.cur < |p.notes| || (p.cur == 0 && |p.notes| == 0))
    && NoDup(p.hittable)
    && (forall v :: v in p.hittable ==> v < |p.notes| && v <= p.cur + 1)
  }

  /** calc_note_data on the state: count the rank of hitMs and recompute
      average_acc over len(note_list) notes. */
  function Score(p: Play, hitMs: Option<real>): (q: Play)
    requires WellFormed(p) && |p.notes| > 0
    ensures WellFormed(q) && q == p.(ranks := q.ranks, accuracy := q.accuracy)
    ensures q.ranks == Judge(p.ranks, Rank(hitMs))
    ensures Accuracy(|p.notes|, q.ranks) == Ok(q.accuracy)
  {
    var ranks := Judge(p.ranks, Rank(hitMs));
    AccuracyBounds(|p.notes|, ranks);
    p.(ranks := ranks, accuracy := Accuracy(|p.notes|, ranks).value)
  }

  /** `accuracy_ranks[4] += 1` and then calc_note_data(None, ...). */
  function Miss(p: Play): (q: Play)
    requires WellFormed(p) && |p.notes| > 0
    ensures WellFormed(q) && q == p.(ranks := q.ranks, accuracy := q.accuracy)
    ensures q.ranks == p.ranks[MissRank := p.ranks[MissRank] + 1]
  {
    Score(p.(ranks := p.ranks[MissRank := p.ranks[MissRank] + 1]), None)
  }

  /** `if cur_note + 1 <= len(note_list) - 1: cur_note += 1`. */
  function Advance(p: Play): (q: Play)
    requires WellFormed(p)
    ensures WellFormed(q) && q == p.(cur := q.cur)
    ensures q.cur == Min(p.cur + 1, if |p.notes| == 0 then 0 else |p.notes| - 1)
  {
    p.(cur := if p.cur + 1 <= |p.notes| - 1 then p.cur + 1 else p.cur)
  }

  /** Every hold segment killed. */
  function KillHolds(segs: seq<HoldSegment>): (r: seq<HoldSegment>)
    ensures |r| == |segs| && forall i :: 0 <= i < |r| ==> !r[i].alive
    ensures forall i :: 0 <= i < |r| ==> r[i] == segs[i].(alive := false)
  {
    seq(|segs|, (i: int) requires 0 <= i < |segs| => segs[i].(alive := false))
  }

  // ---------------------------------------------------------------------
  // The hittable set
  // ---------------------------------------------------------------------

  /** The start of each frame: unless the current note is already hit, it
      joins the set if absent, and so does the next note if it exists, is
      within 250 ms of the current one (inclusive) and is absent. An empty
      chart fails on reading `.actually_hit` of None. */
  function Refresh(p: Play): (r: Result<Play>)
    requires WellFormed(p)
    ensures r.Err? <==> |p.notes| == 0
    ensures r.Err? ==> r.error == AttributeError
    ensures r.Ok? ==> WellFormed(r.value) && r.value == p.(hittable := r.value.hittable)
  {
    if |p.notes| == 0 then Err(AttributeError)
    else
      var cur := p.notes[p.cur];
      if cur.actuallyHit then Ok(p)
      else
        var h1 := if p.cur !in p.hittable then p.hittable + [p.cur] else p.hittable;
        NoDupAppend(p.hittable, p.cur);
        var h2 :=
          if p.cur + 1 < |p.notes| && CompareFromRange(cur.ms, p.notes[p.cur + 1].ms, 250.0) && p.cur + 1 !in h1
          then h1 + [p.cur + 1] else h1;
        NoDupAppend(h1, p.cur + 1);
        Ok(p.(hittable := h2))
  }

  /** The set after a refresh holds what it held, the current note unless
      it was hit, and the next note exactly when it is a chord partner
      (within 250 ms) of an unhit current note. */
  lemma RefreshAdds(p: Play)
    requires WellFormed(p) && |p.notes| > 0
    ensures var h := Refresh(p).value.hittable;
      && (forall v :: v in p.hittable ==> v in h)
      && (!p.notes[p.cur].actuallyHit ==> p.cur in h)
      && (forall v :: v in h && v !in p.hittable ==>
            !p.notes[p.cur].actuallyHit
            && (v == p.cur || (v == p.cur + 1 && Abs(p.notes[v].ms - p.notes[p.cur].ms) <= 250.0)))
      && ((!p.notes[p.cur].actuallyHit && p.cur + 1 < |p.notes|
           && Abs(p.notes[p.cur + 1].ms - p.notes[p.cur].ms) <= 250.0) ==> p.cur + 1 in h)
      && (p.notes[p.cur].actuallyHit ==> h == p.hittable)
  {
  }

  // ---------------------------------------------------------------------
  // Key-down
  // ---------------------------------------------------------------------

  /** The hit window for a note `delta` ms ahead of the conductor: strictly
      between -133.33 and 250. */
  predicate InWindow(delta: real) {
    delta < 250.0 && delta > -133.33
  }

  /** A judged note: hit, root knocked down, and held if it has a hold. */
  function Hit(n: Note): Note {
    n.(actuallyHit := true, rootAlive := false, holding := if n.holdMs <= 0.0 then n.holding else true)
  }

  /** A judged tap: hit, ranked with its rounded delta, out of the set,
      and cur_note advanced. */
  function Tap(p: Play, k: nat, acc: real): (q: Play)
    requires WellFormed(p) && k in p.hittable
    ensures WellFormed(q) && |q.notes| == |p.notes|
  {
    RemoveFirstKey(p.hittable, k);
    var q := p.(notes := p.notes[k := Hit(p.notes[k])], hittable := RemoveFirst(p.hittable, k), lastAccuracyMs := Some(acc));
    Advance(Score(q, Some(acc)))
  }

  /** A judged tap field by field. */
  lemma TapFields(p: Play, k: nat, acc: real)
    requires WellFormed(p) && k in p.hittable
    ensures var ranks := Judge(p.ranks, Rank(Some(acc)));
      Tap(p, k, acc) == Play(p.notes[k := Hit(p.notes[k])], RemoveFirst(p.hittable, k),
                             if p.cur + 1 <= |p.notes| - 1 then p.cur + 1 else p.cur,
                             ranks, Accuracy(|p.notes|, ranks).value, Some(acc))
  {
  }

  /** One pass of the key-down loop body at position i of the set, while
      lane x's timer is not counting. A note of lane x in the window is hit:
      a tap is scored at round(delta, 2) and removed from the set, a hold is
      held and starts the lane timer (true in the result); either way
      cur_note advances. A note more than 133.33 ms behind adds the next
      note as a safety net when it exists and is absent. */
  function KeyDownStep(p: Play, x: nat, songDt: real, i: nat): (o: (Play, bool))
    requires WellFormed(p) && i < |p.hittable|
    ensures WellFormed(o.0) && |o.0.notes| == |p.notes|
  {
    var k := p.hittable[i];
    assert k in p.hittable;
    var delta := p.notes[k].ms - songDt * 1000.0;
    if InWindow(delta) && p.notes[k].lane == x then KeyDownHit(p, k, Round2(delta))
    else if delta < -133.33 then (SafetyNet(p), false)
    else (p, false)
  }

  /** A note of the pressed lane judged at acc: a tap is scored and leaves
      the set, a hold starts the lane timer (true in the result); either way
      cur_note advances. */
  function KeyDownHit(p: Play, k: nat, acc: real): (o: (Play, bool))
    requires WellFormed(p) && k in p.hittable
    ensures WellFormed(o.0) && |o.0.notes| == |p.notes|
  {
    if p.notes[k].holdMs <= 0.0 then (Tap(p, k, acc), false)
    else (Advance(p.(notes := p.notes[k := Hit(p.notes[k])], lastAccuracyMs := Some(acc))), true)
  }

  /** The safety net for a note missed by more than 133.33 ms: the note
      after cur_note joins the set when it exists and is absent. */
  function SafetyNet(p: Play): (q: Play)
    requires WellFormed(p)
    ensures WellFormed(q) && q == p.(hittable := q.hittable)
    ensures forall v :: v in q.hittable <==> v in p.hittable || (v == p.cur + 1 && v < |p.notes|)
  {
    if p.cur + 1 < |p.notes| && p.cur + 1 !in p.hittable then
      NoDupAppend(p.hittable, p.cur + 1);
      p.(hittable := p.hittable + [p.cur + 1])
    else p
  }

  /** The loop `for hit_note in cur_hit_notes` of a key-down in lane x, from
      position i on, with the lane timer not yet counting. */
  function KeyDownFrom(p: Play, x: nat, songDt: real, i: nat): (r: (Play, bool))
    requires WellFormed(p) && i <= |p.notes|
    ensures WellFormed(r.0) && |r.0.notes| == |p.notes|
  {
    KeyDownRest(p, false, x, songDt, i)
  }

  /** The rest of the key-down loop from position i, `held` telling whether
      the lane timer counts. The loop runs over the set as it grows and
      shrinks, and its index always moves on, so the note that moves into a
      removed tap's place is skipped; once a hold starts the lane timer the
      remaining passes do nothing. The loop is split into three functions
      (the loop test, the pass at i, the pass followed by the rest) so that
      each unfolds one level at a time. */
  function KeyDownRest(p: Play, held: bool, x: nat, songDt: real, i: nat): (r: (Play, bool))
    requires WellFormed(p) && i <= |p.notes|
    ensures WellFormed(r.0) && |r.0.notes| == |p.notes|
    decreases |p.notes| - i, 2
  {
    if held then (p, true)
    else if i >= |p.hittable| then (p, false)
    else
      HittableBound(p.hittable, |p.notes|);
      KeyDownPass(p, x, songDt, i)
  }

  /** Pass i of the loop while the lane timer does not count, and the rest. */
  function KeyDownPass(p: Play, x: nat, songDt: real, i: nat): (r: (Play, bool))
    requires WellFormed(p) && i < |p.hittable| && i < |p.notes|
    ensures WellFormed(r.0) && |r.0.notes| == |p.notes|
    decreases |p.notes| - i, 1
  {
    KeyDownThen(p, x, songDt, i)
  }

  /** KeyDownStep at position i followed by the loop from i + 1. */
  function KeyDownThen(p: Play, x: nat, songDt: real, i: nat): (r: (Play, bool))
    requires WellFormed(p) && i < |p.hittable| && i < |p.notes|
    ensures WellFormed(r.0) && |r.0.notes| == |p.notes|
    decreases |p.notes| - i, 0
  {
    var o := KeyDownStep(p, x, songDt, i);
    KeyDownRest(o.0, o.1, x, songDt, i + 1)
  }

  // ---------------------------------------------------------------------
  // Key-up
  // ---------------------------------------------------------------------

  /** The end of a release: every segment dead, holding off, and every
      copy of the note out of the set. */
  function Drop(p: Play, k: nat): (q: Play)
    requires WellFormed(p) && k < |p.notes|
    ensures WellFormed(q) && |q.notes| == |p.notes|
  {
    var m := p.notes[k];
    var h := RemoveAll(p.hittable, k);
    RemoveAllNoDup(p.hittable, k);
    p.(notes := p.notes[k := m.(holds := KillHolds(m.holds), holding := false)], hittable := h)
  }

  /** The scoring of a released hold k: released before hold_ms - 100, its
      segments die and a miss is counted; otherwise it is scored with
      accuracy_ms, the delta of the latest key-down hit (unbound before any
      hit). */
  function ScoreRelease(p: Play, k: nat, holdTime: int): (r: Result<Play>)
    requires WellFormed(p) && k < |p.notes|
    ensures r.Ok? ==> WellFormed(r.value) && |r.value.notes| == |p.notes|
    ensures r.Err? ==> r.error == UnboundLocalError
    ensures (holdTime as real) < p.notes[k].holdMs - 100.0 ==>
      && r.Ok?
      && r.value.ranks == p.ranks[MissRank := p.ranks[MissRank] + 1]
      && r.value.notes == p.notes[k := p.notes[k].(holds := KillHolds(p.notes[k].holds))]
      && r.value.hittable == p.hittable && r.value.cur == p.cur
      && Accuracy(|p.notes|, r.value.ranks) == Ok(r.value.accuracy)
    ensures (holdTime as real) >= p.notes[k].holdMs - 100.0 ==>
      && (r.Err? <==> p.lastAccuracyMs.None?)
      && (r.Ok? ==>
            && r.value.ranks == Judge(p.ranks, Rank(p.lastAccuracyMs))
            && r.value.notes == p.notes && r.value.hittable == p.hittable && r.value.cur == p.cur
            && Accuracy(|p.notes|, r.value.ranks) == Ok(r.value.accuracy))
  {
    var n := p.notes[k];
    if (holdTime as real) < n.holdMs - 100.0 then
      Ok(Miss(p.(notes := p.notes[k := n.(holds := KillHolds(n.holds))])))
    else if p.lastAccuracyMs.None? then Err(UnboundLocalError)
    else Ok(Score(p, p.lastAccuracyMs))
  }

  /** One pass of the key-up loop body at position i, with hold_time the
      lane timer's whole milliseconds: a hit hold of lane x is scored and
      dropped. */
  function KeyUpStep(p: Play, x: nat, holdTime: int, i: nat): (r: Result<Play>)
    requires WellFormed(p) && i < |p.hittable|
    ensures r.Ok? ==> WellFormed(r.value) && |r.value.notes| == |p.notes|
    ensures r.Err? ==> r.error == UnboundLocalError
  {
    var k := p.hittable[i];
    assert k in p.hittable;
    var n := p.notes[k];
    if n.actuallyHit && n.holdMs > 0.0 && n.lane == x then
      match ScoreRelease(p, k, holdTime)
      case Err(e) => Err(e)
      case Ok(q) => Ok(Drop(q, k))
    else
      Ok(p)
  }

  /** The loop `for hit_note in cur_hit_notes` of a key-up in lane x, from
      position i on; an exception ends it. Like the key-down loop it is
      split into the loop test, the pass at i and the pass followed by the
      rest. */
  function KeyUpFrom(p: Play, x: nat, holdTime: int, i: nat): (r: Result<Play>)
    requires WellFormed(p) && i <= |p.notes|
    ensures r.Ok? ==> WellFormed(r.value) && |r.value.notes| == |p.notes|
    ensures r.Err? ==> r.error == UnboundLocalError
    decreases |p.notes| - i, 2
  {
    if i >= |p.hittable| then Ok(p)
    else
      HittableBound(p.hittable, |p.notes|);
      KeyUpPass(p, x, holdTime, i)
  }

  /** Pass i of the key-up loop and the rest. */
  function KeyUpPass(p: Play, x: nat, holdTime: int, i: nat): (r: Result<Play>)
    requires WellFormed(p) && i < |p.hittable| && i < |p.notes|
    ensures r.Ok? ==> WellFormed(r.value) && |r.value.notes| == |p.notes|
    ensures r.Err? ==> r.error == UnboundLocalError
    decreases |p.notes| - i, 1
  {
    KeyUpThen(p, x, holdTime, i)
  }

  /** KeyUpStep at position i followed by the loop from i + 1. */
  function KeyUpThen(p: Play, x: nat, holdTime: int, i: nat): (r: Result<Play>)
    requires WellFormed(p) && i < |p.hittable| && i < |p.notes|
    ensures r.Ok? ==> WellFormed(r.value) && |r.value.notes| == |p.notes|
    ensures r.Err? ==> r.error == UnboundLocalError
    decreases |p.notes| - i, 0
  {
    match KeyUpStep(p, x, holdTime, i)
    case Err(e) => Err(e)
    case Ok(q) => KeyUpFrom(q, x, holdTime, i + 1)
  }

  /** One more pass of the key-up loop. */
  lemma KeyUpUnfold(p: Play, x: nat, holdTime: int, i: nat)
    requires WellFormed(p) && i < |p.hittable| && i < |p.notes|
    ensures KeyUpFrom(p, x, holdTime, i)
         == match KeyUpStep(p, x, holdTime, i)
            case Err(e) => Err(e)
            case Ok(q) => KeyUpFrom(q, x, holdTime, i + 1)
  {
    assert KeyUpFrom(p, x, holdTime, i) == KeyUpPass(p, x, holdTime, i) == KeyUpThen(p, x, holdTime, i);
  }

  // ---------------------------------------------------------------------
  // Passive misses
  // ---------------------------------------------------------------------

  /** One pass of the miss loop at key x: a live note is updated, then
      run_kill checks it for a miss; a miss kills its segments, counts a
      miss and advances cur_note. */
  function TickStep(p: Play, songDt: real, t: Timing, x: nat): (q: Play)
    requires WellFormed(p) && x < |p.notes| && ValidTiming(t)
    ensures WellFormed(q) && |q.notes| == |p.notes|
  {
    var n := p.notes[x];
    if !n.alive then p
    else
      var m := NoteTick(n, songDt, t);
      TickedNoteHasFraction(n, songDt, t);
      var (m2, killed) := NoteRunKill(m).value;
      if killed then Advance(Miss(p.(notes := p.notes[x := m2.(holds := KillHolds(m2.holds))])))
      else p.(notes := p.notes[x := m2])
  }

  /** The loop `for x in range(len(note_list))` of a playing frame, from key
      x on. */
  function TickFrom(p: Play, songDt: real, t: Timing, x: nat): (r: Play)
    requires WellFormed(p) && x <= |p.notes| && ValidTiming(t)
    ensures WellFormed(r) && |r.notes| == |p.notes|
    decreases |p.notes| - x
  {
    if x == |p.notes| then p else TickFrom(TickStep(p, songDt, t, x), songDt, t, x + 1)
  }

  // ---------------------------------------------------------------------
  // What the judgement promises
  // ---------------------------------------------------------------------

  /** The note facts of a key-down: the set only gains notes past cur_note,
      and a note changes only if it is of lane x, inside the window, and in
      the set or past cur_note; it is then hit, and a judged tap has left
      the set with cur_note at or past it, while a judged hold stays in the
      set and ends the pass. */
  ghost predicate KeyDownNotes(p: Play, r: Play, x: nat, songDt: real, held: bool)
    requires |r.notes| == |p.notes|
  {
    && (forall v :: v in r.hittable ==> v in p.hittable || v > p.cur)
    && (forall k :: 0 <= k < |p.notes| && r.notes[k] != p.notes[k] ==>
          && (k in p.hittable || k > p.cur)
          && p.notes[k].lane == x && InWindow(p.notes[k].ms - songDt * 1000.0)
          && r.notes[k] == Hit(p.notes[k])
          && (p.notes[k].holdMs <= 0.0 ==> k !in r.hittable && k <= r.cur)
          && (p.notes[k].holdMs > 0.0 ==> k in r.hittable && held))
    && r.cur >= p.cur
  }

  /** The counters of a key-down: no miss, and no counter goes down. */
  ghost predicate KeyDownCounts(p: Play, r: Play)
    requires |p.ranks| == |r.ranks| == 5
  {
    r.ranks[MissRank] == p.ranks[MissRank] && forall j :: 0 <= j < 5 ==> r.ranks[j] >= p.ranks[j]
  }

  lemma KeyDownStepFacts(p: Play, x: nat, songDt: real, i: nat)
    requires WellFormed(p) && i < |p.hittable|
    ensures KeyDownNotes(p, KeyDownStep(p, x, songDt, i).0, x, songDt, KeyDownStep(p, x, songDt, i).1)
    ensures KeyDownCounts(p, KeyDownStep(p, x, songDt, i).0)
  {
    var k := p.hittable[i];
    assert k in p.hittable;
    var n := p.notes[k];
    var delta := n.ms - songDt * 1000.0;
    if InWindow(delta) && n.lane == x {
      var acc := Round2(delta);
      assert KeyDownStep(p, x, songDt, i) == KeyDownHit(p, k, acc);
      if n.holdMs <= 0.0 {
        TapFacts(p, k, x, songDt, acc);
      } else {
        var q := p.(notes := p.notes[k := Hit(n)], lastAccuracyMs := Some(acc));
        HoldFacts(p, q, k, x, songDt);
      }
    } else if delta < -133.33 {
      SameNotesFacts(p, SafetyNet(p), x, songDt);
    } else {
      SameNotesFacts(p, p, x, songDt);
    }
  }

  /** A judged hold: it stays in the set, is hit and ends the pass. */
  lemma HoldFacts(p: Play, q: Play, k: nat, x: nat, songDt: real)
    requires WellFormed(p) && WellFormed(q) && k in p.hittable
    requires p.notes[k].lane == x && InWindow(p.notes[k].ms - songDt * 1000.0) && p.notes[k].holdMs > 0.0
    requires q == p.(notes := p.notes[k := Hit(p.notes[k])], lastAccuracyMs := q.lastAccuracyMs)
    ensures KeyDownNotes(p, Advance(q), x, songDt, true) && KeyDownCounts(p, Advance(q))
  {
  }

  /** A pass that changes no note and no counter, and only adds keys past
      cur_note. */
  lemma SameNotesFacts(p: Play, q: Play, x: nat, songDt: real)
    requires WellFormed(p) && q == p.(hittable := q.hittable)
    requires forall v :: v in q.hittable ==> v in p.hittable || v > p.cur
    ensures KeyDownNotes(p, q, x, songDt, false) && KeyDownCounts(p, q)
  {
  }

  /** A judged tap: it leaves the set, is hit, and one non-miss counter goes up. */
  lemma TapFacts(p: Play, k: nat, x: nat, songDt: real, acc: real)
    requires WellFormed(p) && k in p.hittable
    requires p.notes[k].lane == x && InWindow(p.notes[k].ms - songDt * 1000.0) && p.notes[k].holdMs <= 0.0
    ensures KeyDownNotes(p, Tap(p, k, acc), x, songDt, false)
    ensures KeyDownCounts(p, Tap(p, k, acc))
  {
    RemoveFirstKey(p.hittable, k);
    var q := p.(notes := p.notes[k := Hit(p.notes[k])], hittable := RemoveFirst(p.hittable, k), lastAccuracyMs := Some(acc));
    var r := Advance(Score(q, Some(acc)));
    assert r == Tap(p, k, acc);
    assert r.notes == q.notes && r.hittable == q.hittable && r.cur >= p.cur;
    assert r.ranks == Judge(p.ranks, Rank(Some(acc)));
  }

  /** What a key-down in lane x does to the state, over the whole pass:
      the note facts and the counters above. */
  lemma {:induction false} KeyDownJudges(p: Play, x: nat, songDt: real, i: nat)
    requires WellFormed(p) && i <= |p.notes|
    ensures KeyDownNotes(p, KeyDownFrom(p, x, songDt, i).0, x, songDt, KeyDownFrom(p, x, songDt, i).1)
    ensures KeyDownCounts(p, KeyDownFrom(p, x, songDt, i).0)
    decreases |p.notes| - i
  {
    if i < |p.hittable| {
      HittableBound(p.hittable, |p.notes|);
      var o := KeyDownStep(p, x, songDt, i);
      KeyDownStepFacts(p, x, songDt, i);
      KeyDownUnfold(p, x, songDt, i);
      if !o.1 {
        KeyDownJudges(o.0, x, songDt, i + 1);
        var r := KeyDownFrom(o.0, x, songDt, i + 1);
        assert |p.notes| == |o.0.notes| == |r.0.notes| && |p.ranks| == |o.0.ranks| == |r.0.ranks| == 5;
        assert KeyDownNotes(p, o.0, x, songDt, false);
        assert KeyDownNotes(o.0, r.0, x, songDt, r.1);
        assert KeyDownCounts(p, o.0) && KeyDownCounts(o.0, r.0);
        KeyDownChain(p, o.0, r.0, x, songDt, r.1);
      }
    } else {
      assert KeyDownFrom(p, x, songDt, i) == (p, false);
    }
  }

  /** One more pass of the key-down loop. */
  lemma KeyDownUnfold(p: Play, x: nat, songDt: real, i: nat)
    requires WellFormed(p) && i < |p.hittable| && i < |p.notes|
    ensures var o := KeyDownStep(p, x, songDt, i);
      KeyDownRest(p, false, x, songDt, i) == KeyDownRest(o.0, o.1, x, songDt, i + 1)
    ensures var o := KeyDownStep(p, x, songDt, i);
      KeyDownFrom(p, x, songDt, i) == if o.1 then o else KeyDownFrom(o.0, x, songDt, i + 1)
  {
    HittableBound(p.hittable, |p.notes|);
    assert KeyDownRest(p, false, x, songDt, i) == KeyDownPass(p, x, songDt, i) == KeyDownThen(p, x, songDt, i);
  }

  /** Past the end of the set the key-down loop leaves the state as it is. */
  lemma KeyDownRestDone(p: Play, held: bool, x: nat, songDt: real, i: nat)
    requires WellFormed(p) && |p.hittable| <= i <= |p.notes|
    ensures KeyDownRest(p, held, x, songDt, i) == (p, held)
  {
  }

  /** A tap-only pass followed by a further pass composes. */
  lemma KeyDownChain(p: Play, q: Play, r: Play, x: nat, songDt: real, held: bool)
    requires |p.notes| == |q.notes| == |r.notes| && |p.ranks| == |q.ranks| == |r.ranks| == 5
    requires KeyDownNotes(p, q, x, songDt, false) && KeyDownNotes(q, r, x, songDt, held)
    requires KeyDownCounts(p, q) && KeyDownCounts(q, r)
    ensures KeyDownNotes(p, r, x, songDt, held) && KeyDownCounts(p, r)
  {
    forall k | 0 <= k < |p.notes| && r.notes[k] != p.notes[k]
      ensures && (k in p.hittable || k > p.cur)
              && p.notes[k].lane == x && InWindow(p.notes[k].ms - songDt * 1000.0)
              && r.notes[k] == Hit(p.notes[k])
              && (p.notes[k].holdMs <= 0.0 ==> k !in r.hittable && k <= r.cur)
              && (p.notes[k].holdMs > 0.0 ==> k in r.hittable && held)
    {
      if q.notes[k] != p.notes[k] {
        assert p.notes[k].holdMs <= 0.0 && k !in q.hittable && k <= q.cur;
        assert r.notes[k] == q.notes[k];
      }
    }
  }

  /** The facts of a key-up: it fails only when a hold is scored before any
      key-down hit assigned accuracy_ms. Otherwise the set only loses
      notes, and a note changes only if it is a hit hold of lane x that was
      in the set: it has left the set, stopped holding and lost every
      segment. cur_note stays and no counter goes down. */
  ghost predicate KeyUpFacts(p: Play, r: Result<Play>, x: nat)
    requires |p.ranks| == 5
    requires r.Ok? ==> |r.value.notes| == |p.notes| && |r.value.ranks| == 5
  {
    && (r.Err? ==> r.error == UnboundLocalError && p.lastAccuracyMs.None?)
    && (r.Ok? ==>
          && (forall v :: v in r.value.hittable ==> v in p.hittable)
          && (forall k :: 0 <= k < |p.notes| && r.value.notes[k] != p.notes[k] ==>
                && k in p.hittable && k !in r.value.hittable
                && p.notes[k].actuallyHit && p.notes[k].holdMs > 0.0 && p.notes[k].lane == x
                && r.value.notes[k] == p.notes[k].(holding := false, holds := KillHolds(p.notes[k].holds)))
          && r.value.cur == p.cur && r.value.lastAccuracyMs == p.lastAccuracyMs
          && (forall j :: 0 <= j < 5 ==> r.value.ranks[j] >= p.ranks[j]))
  }

  lemma KeyUpStepFacts(p: Play, x: nat, holdTime: int, i: nat)
    requires WellFormed(p) && i < |p.hittable|
    ensures KeyUpFacts(p, KeyUpStep(p, x, holdTime, i), x)
  {
    var k := p.hittable[i];
    assert k in p.hittable;
    var n := p.notes[k];
    assert KillHolds(KillHolds(n.holds)) == KillHolds(n.holds);
    var r := KeyUpStep(p, x, holdTime, i);
    if r.Ok? && n.actuallyHit && n.holdMs > 0.0 && n.lane == x {
    }
  }

  /** What a key-up in lane x does to the state, over the whole pass. */
  lemma {:induction false} KeyUpReleases(p: Play, x: nat, holdTime: int, i: nat)
    requires WellFormed(p) && i <= |p.notes|
    ensures KeyUpFacts(p, KeyUpFrom(p, x, holdTime, i), x)
    decreases |p.notes| - i
  {
    if i < |p.hittable| {
      HittableBound(p.hittable, |p.notes|);
      KeyUpUnfold(p, x, holdTime, i);
      KeyUpStepFacts(p, x, holdTime, i);
      var s := KeyUpStep(p, x, holdTime, i);
      if s.Ok? {
        var q := s.value;
        KeyUpReleases(q, x, holdTime, i + 1);
        var r := KeyUpFrom(q, x, holdTime, i + 1);
        assert r == KeyUpFrom(p, x, holdTime, i);
        if r.Ok? {
          forall k | 0 <= k < |p.notes| && r.value.notes[k] != p.notes[k]
            ensures && k in p.hittable && k !in r.value.hittable
                    && p.notes[k].actuallyHit && p.notes[k].holdMs > 0.0 && p.notes[k].lane == x
                    && r.value.notes[k] == p.notes[k].(holding := false, holds := KillHolds(p.notes[k].holds))
          {
            if q.notes[k] != p.notes[k] {
              assert k !in q.hittable;
              assert r.value.notes[k] == q.notes[k];
            }
          }
        }
      }
    }
  }

  /** The notes from key x on whose root run_kill knocked down. */
  function Fired(a: seq<Note>, b: seq<Note>, x: nat): (c: nat)
    requires |a| == |b| && x <= |a|
    ensures c <= |a| - x
    decreases |a| - x
  {
    if x == |a| then 0
    else (if a[x].rootAlive && !b[x].rootAlive then 1 else 0) + Fired(a, b, x + 1)
  }

  lemma {:induction false} FiredSameFrom(a: seq<Note>, a2: seq<Note>, b: seq<Note>, x: nat)
    requires |a| == |a2| == |b| && x <= |a|
    requires forall k :: x <= k < |a| ==> a[k] == a2[k]
    ensures Fired(a, b, x) == Fired(a2, b, x)
    decreases |a| - x
  {
    if x < |a| {
      FiredSameFrom(a, a2, b, x + 1);
    }
  }

  /** One pass of the miss loop touches key x only, and counts a miss (and
      advances cur_note) exactly when it knocks that note's root down. */
  lemma TickStepFacts(p: Play, songDt: real, t: Timing, x: nat)
    requires WellFormed(p) && x < |p.notes| && ValidTiming(t)
    ensures var q := TickStep(p, songDt, t, x);
      var fired := p.notes[x].rootAlive && !q.notes[x].rootAlive;
      && (forall k :: 0 <= k < |p.notes| && k != x ==> q.notes[k] == p.notes[k])
      && q.ranks[MissRank] == p.ranks[MissRank] + (if fired then 1 else 0)
      && (forall j :: 0 <= j < MissRank ==> q.ranks[j] == p.ranks[j])
      && q.cur == (if fired then Min(p.cur + 1, |p.notes| - 1) else p.cur)
      && q.hittable == p.hittable
      && (fired ==> forall s :: 0 <= s < |q.notes[x].holds| ==> !q.notes[x].holds[s].alive)
  {
    var n := p.notes[x];
    if n.alive {
      var m := NoteTick(n, songDt, t);
      TickedNoteHasFraction(n, songDt, t);
      RunKillOnlyDropsRoot(m);
    }
  }

  /** What the passive miss pass from key x on promises: one miss counted
      per note whose root it knocks down, and nothing else: the other
      counters stay, cur_note advances once per miss up to the last key,
      the set is untouched, keys before x are untouched, and a missed note
      has lost every segment. */
  ghost predicate TickFacts(p: Play, r: Play, x: nat)
    requires |r.notes| == |p.notes| && x <= |p.notes| && |p.ranks| == |r.ranks| == 5
  {
    var fired := Fired(p.notes, r.notes, x);
    && r.ranks[MissRank] == p.ranks[MissRank] + fired
    && (forall j :: 0 <= j < MissRank ==> r.ranks[j] == p.ranks[j])
    && (|p.notes| > 0 ==> r.cur == Min(p.cur + fired, |p.notes| - 1))
    && r.hittable == p.hittable
    && (forall k :: 0 <= k < x ==> r.notes[k] == p.notes[k])
    && (forall k :: x <= k < |p.notes| && p.notes[k].rootAlive && !r.notes[k].rootAlive ==>
          forall s :: 0 <= s < |r.notes[k].holds| ==> !r.notes[k].holds[s].alive)
  }

  /** The passive miss pass counts exactly the notes it misses. */
  lemma {:induction false} TickCountsMisses(p: Play, songDt: real, t: Timing, x: nat)
    requires WellFormed(p) && x <= |p.notes| && ValidTiming(t)
    ensures TickFacts(p, TickFrom(p, songDt, t, x), x)
    decreases |p.notes| - x
  {
    if x < |p.notes| {
      var q := TickStep(p, songDt, t, x);
      TickStepFacts(p, songDt, t, x);
      TickCountsMisses(q, songDt, t, x + 1);
      var r := TickFrom(q, songDt, t, x + 1);
      assert r == TickFrom(p, songDt, t, x);
      assert TickFacts(q, r, x + 1);
      TickChain(p, q, r, x);
    }
  }

  /** One pass at key x followed by the passes after it. */
  lemma TickChain(p: Play, q: Play, r: Play, x: nat)
    requires WellFormed(p) && |q.notes| == |p.notes| == |r.notes| && x < |p.notes|
    requires |q.ranks| == |r.ranks| == 5
    requires var fired := p.notes[x].rootAlive && !q.notes[x].rootAlive;
      && (forall k :: 0 <= k < |p.notes| && k != x ==> q.notes[k] == p.notes[k])
      && q.ranks[MissRank] == p.ranks[MissRank] + (if fired then 1 else 0)
      && (forall j :: 0 <= j < MissRank ==> q.ranks[j] == p.ranks[j])
      && q.cur == (if fired then Min(p.cur + 1, |p.notes| - 1) else p.cur)
      && q.hittable == p.hittable
      && (fired ==> forall s :: 0 <= s < |q.notes[x].holds| ==> !q.notes[x].holds[s].alive)
    requires TickFacts(q, r, x + 1)
    ensures TickFacts(p, r, x)
  {
    assert r.notes[x] == q.notes[x];
    FiredSameFrom(p.notes, q.notes, r.notes, x + 1);
    assert Fired(p.notes, r.notes, x) == (if p.notes[x].rootAlive && !r.notes[x].rootAlive then 1 else 0) + Fired(q.notes, r.notes, x + 1);
  }

  // ---------------------------------------------------------------------
  // Removing every copy
  // ---------------------------------------------------------------------

  /** Removing one copy of v first does not change what removing every
      copy leaves. */
  lemma {:induction false} RemoveFirstThenAll(s: seq<nat>, v: nat)
    requires v in s
    ensures RemoveAll(RemoveFirst(s, v), v) == RemoveAll(s, v)
    decreases |s|
  {
    if s[0] != v {
      RemoveFirstThenAll(s[1..], v);
      assert RemoveFirst(s, v) == [s[0]] + RemoveFirst(s[1..], v);
      assert RemoveFirst(s, v)[1..] == RemoveFirst(s[1..], v);
    }
  }

  /** A list without v loses nothing when every copy of v is removed. */
  lemma {:induction false} RemoveAllAbsent(s: seq<nat>, v: nat)
    requires v !in s
    ensures RemoveAll(s, v) == s
    decreases |s|
  {
    if s != [] {
      RemoveAllAbsent(s[1..], v);
    }
  }

  /** `while cur_hit_notes.count(v) > 0: cur_hit_notes.remove(v)`. */
  method RemoveEvery(s: seq<nat>, v: nat) returns (r: seq<nat>)
    ensures r == RemoveAll(s, v)
  {
    r := s;
    while v in r
      invariant RemoveAll(r, v) == RemoveAll(s, v)
      decreases |r|
    {
      RemoveFirstThenAll(r, v);
      r := RemoveFirst(r, v);
    }
    RemoveAllAbsent(r, v);
  }

  // ---------------------------------------------------------------------
  // Key events over the lanes
  // ---------------------------------------------------------------------

  /** What the judgement reads of a lane's Timer. */
  datatype LaneTimer = LaneTimer(counting: bool, clock: Option<real>, dt: real)

  /** A lane timer driven only by start and reset counts exactly while it
      has a clock. */
  predicate LaneRunning(l: LaneTimer) {
    l.counting <==> l.clock.Some?
  }

  /** The lane timer of a judged hold: started at 0 and counted at once. */
  function HeldTimer(now: real): LaneTimer {
    LaneTimer(true, Some(now), 0.0)
  }

  /** pygame.key.name(event.key) with quotes and brackets removed. */
  function KeyName(name: string): (r: string)
    ensures '\'' !in r && '[' !in r && ']' !in r
  {
    RemoveChar(RemoveChar(RemoveChar(name, '\''), '['), ']')
  }

  /** The key-down event from lane x on: every lane bound to the key is
      judged (while the game is not paused and not in a transition or the
      intro) unless its timer counts; a judged hold starts that lane's
      timer. A lane without a keybinding is an IndexError. */
  function KeyPressFrom(p: Play, lanes: seq<LaneTimer>, key: string, keybinds: seq<string>,
                        active: bool, songDt: real, now: real, x: nat): (r: Result<(Play, seq<LaneTimer>)>)
    requires WellFormed(p) && x <= |lanes|
    ensures r.Ok? ==> WellFormed(r.value.0) && |r.value.0.notes| == |p.notes| && |r.value.1| == |lanes|
    ensures r.Err? ==> r.error == IndexError
    decreases |lanes| - x
  {
    if x == |lanes| then Ok((p, lanes))
    else if x >= |keybinds| then Err(IndexError)
    else if key != keybinds[x] || !active || lanes[x].counting then
      KeyPressFrom(p, lanes, key, keybinds, active, songDt, now, x + 1)
    else
      var o := KeyDownFrom(p, x, songDt, 0);
      KeyPressFrom(o.0, if o.1 then lanes[x := HeldTimer(now)] else lanes, key, keybinds, active, songDt, now, x + 1)
  }

  /** The key-up event from lane x on: for every lane bound to the key
      (while not paused) the hold time is the lane timer's whole
      milliseconds; the held notes are released unless a transition or
      the intro blocks judging; then a counting lane timer is reset to 0. */
  function KeyReleaseFrom(p: Play, lanes: seq<LaneTimer>, key: string, keybinds: seq<string>,
                          paused: bool, blocked: bool, x: nat): (r: Result<(Play, seq<LaneTimer>)>)
    requires WellFormed(p) && x <= |lanes|
    ensures r.Ok? ==> WellFormed(r.value.0) && |r.value.0.notes| == |p.notes| && |r.value.1| == |lanes|
    ensures r.Err? ==> r.error in {IndexError, UnboundLocalError}
    decreases |lanes| - x
  {
    if x == |lanes| then Ok((p, lanes))
    else if x >= |keybinds| then Err(IndexError)
    else if key != keybinds[x] || paused then
      KeyReleaseFrom(p, lanes, key, keybinds, paused, blocked, x + 1)
    else
      var holdTime := Trunc(lanes[x].dt * 1000.0);
      var released := if blocked then Ok(p) else KeyUpFrom(p, x, holdTime, 0);
      match released
      case Err(e) => Err(e)
      case Ok(q) =>
        var lanes' := if lanes[x].counting then lanes[x := LaneTimer(false, None, 0.0)] else lanes;
        KeyReleaseFrom(q, lanes', key, keybinds, paused, blocked, x + 1)
  }

  /** A key bound to no lane, or any key while judging is off, changes
      nothing (once every lane has a keybinding). */
  lemma {:induction false} UnboundKeyPressIgnored(p: Play, lanes: seq<LaneTimer>, key: string, keybinds: seq<string>,
                                                  active: bool, songDt: real, now: real, x: nat)
    requires WellFormed(p) && x <= |lanes| <= |keybinds|
    requires !active || forall y :: x <= y < |lanes| ==> keybinds[y] != key
    ensures KeyPressFrom(p, lanes, key, keybinds, active, songDt, now, x) == Ok((p, lanes))
    decreases |lanes| - x
  {
    if x < |lanes| {
      UnboundKeyPressIgnored(p, lanes, key, keybinds, active, songDt, now, x + 1);
    }
  }

  /** While paused a key-up changes nothing (once every lane has a
      keybinding). */
  lemma {:induction false} PausedReleaseIgnored(p: Play, lanes: seq<LaneTimer>, key: string, keybinds: seq<string>,
                                                blocked: bool, x: nat)
    requires WellFormed(p) && x <= |lanes| <= |keybinds|
    ensures KeyReleaseFrom(p, lanes, key, keybinds, true, blocked, x) == Ok((p, lanes))
    decreases |lanes| - x
  {
    if x < |lanes| {
      PausedReleaseIgnored(p, lanes, key, keybinds, blocked, x + 1);
    }
  }

  /** A key-up leaves every lane timer it touches stopped at 0 and keeps
      the others; lane timers that ran only on start and reset still do. */
  lemma {:induction false} ReleaseStopsTimers(p: Play, lanes: seq<LaneTimer>, key: string, keybinds: seq<string>,
                                              paused: bool, blocked: bool, x: nat)
    requires WellFormed(p) && x <= |lanes|
    requires forall y :: 0 <= y < |lanes| ==> LaneRunning(lanes[y])
    ensures var r := KeyReleaseFrom(p, lanes, key, keybinds, paused, blocked, x);
      r.Ok? ==>
        && (forall y :: 0 <= y < |lanes| ==> LaneRunning(r.value.1[y]))
        && (forall y :: 0 <= y < |lanes| && r.value.1[y] != lanes[y] ==>
              x <= y < |keybinds| && keybinds[y] == key && !paused && lanes[y].counting && r.value.1[y] == LaneTimer(false, None, 0.0))
    decreases |lanes| - x
  {
    if x < |lanes| && x < |keybinds| && key == keybinds[x] && !paused {
      var holdTime := Trunc(lanes[x].dt * 1000.0);
      var released := if blocked then Ok(p) else KeyUpFrom(p, x, holdTime, 0);
      if released.Ok? {
        var lanes' := if lanes[x].counting then lanes[x := LaneTimer(false, None, 0.0)] else lanes;
        ReleaseStopsTimers(released.value, lanes', key, keybinds, paused, blocked, x + 1);
        ReleaseStep(lanes, lanes', KeyReleaseFrom(released.value, lanes', key, keybinds, paused, blocked, x + 1), key, keybinds, paused, x);
        assert KeyReleaseFrom(p, lanes, key, keybinds, paused, blocked, x)
            == KeyReleaseFrom(released.value, lanes', key, keybinds, paused, blocked, x + 1);
      }
    } else if x < |lanes| && x < |keybinds| {
      ReleaseStopsTimers(p, lanes, key, keybinds, paused, blocked, x + 1);
    }
  }

  /** One matching lane of a key-up: stopping lane x's timer (when it
      counts) keeps the timers-only-stopped property of the rest. */
  lemma ReleaseStep(lanes: seq<LaneTimer>, lanes': seq<LaneTimer>, r: Result<(Play, seq<LaneTimer>)>,
                    key: string, keybinds: seq<string>, paused: bool, x: nat)
    requires x < |lanes| && x < |keybinds| && key == keybinds[x] && !paused
    requires forall y :: 0 <= y < |lanes| ==> LaneRunning(lanes[y])
    requires lanes' == if lanes[x].counting then lanes[x := LaneTimer(false, None, 0.0)] else lanes
    requires r.Ok? ==> |r.value.1| == |lanes'|
    requires r.Ok? ==>
        && (forall y :: 0 <= y < |lanes'| ==> LaneRunning(r.value.1[y]))
        && (forall y :: 0 <= y < |lanes'| && r.value.1[y] != lanes'[y] ==>
              x + 1 <= y < |keybinds| && keybinds[y] == key && !paused && lanes'[y].counting && r.value.1[y] == LaneTimer(false, None, 0.0))
    ensures r.Ok? ==>
        && (forall y :: 0 <= y < |lanes| ==> LaneRunning(r.value.1[y]))
        && (forall y :: 0 <= y < |lanes| && r.value.1[y] != lanes[y] ==>
              x <= y < |keybinds| && keybinds[y] == key && !paused && lanes[y].counting && r.value.1[y] == LaneTimer(false, None, 0.0))
  {
    if r.Ok? {
      forall y | 0 <= y < |lanes| && r.value.1[y] != lanes[y]
        ensures x <= y < |keybinds| && keybinds[y] == key && !paused && lanes[y].counting && r.value.1[y] == LaneTimer(false, None, 0.0)
      {
        if y != x {
          assert lanes'[y] == lanes[y];
        }
      }
    }
  }

  /** A key-down only starts timers: a lane timer it changes is one bound to
      the key that was not counting, and it now counts from now with dt 0. */
  lemma {:induction false} PressStartsTimers(p: Play, lanes: seq<LaneTimer>, key: string, keybinds: seq<string>,
                                             active: bool, songDt: real, now: real, x: nat)
    requires WellFormed(p) && x <= |lanes|
    ensures var r := KeyPressFrom(p, lanes, key, keybinds, active, songDt, now, x);
      r.Ok? ==>
        forall y :: 0 <= y < |lanes| && r.value.1[y] != lanes[y] ==>
          x <= y < |keybinds| && keybinds[y] == key && active && !lanes[y].counting && r.value.1[y] == HeldTimer(now)
    decreases |lanes| - x
  {
    if x < |lanes| && x < |keybinds| {
      if key != keybinds[x] || !active || lanes[x].counting {
        PressStartsTimers(p, lanes, key, keybinds, active, songDt, now, x + 1);
      } else {
        var o := KeyDownFrom(p, x, songDt, 0);
        PressStartsTimers(o.0, if o.1 then lanes[x := HeldTimer(now)] else lanes, key, keybinds, active, songDt, now, x + 1);
      }
    }
  }

  /** Every counting lane timer counted at now: dt becomes the time since
      its clock (Timer.count without the offset). */
  function CountLanes(lanes: seq<LaneTimer>, now: real): (r: seq<LaneTimer>)
    ensures |r| == |lanes|
    ensures forall x :: 0 <= x < |lanes| ==>
      r[x] == (if lanes[x].counting && lanes[x].clock.Some? then lanes[x].(dt := now - lanes[x].clock.value) else lanes[x])
  {
    seq(|lanes|, (x: int) requires 0 <= x < |lanes| =>
      if lanes[x].counting && lanes[x].clock.Some? then lanes[x].(dt := now - lanes[x].clock.value) else lanes[x])
  }

  /** A hold started at now0 and counted each frame up to now1 reads
      int((now1 - now0) * 1000) ms at its key-up. */
  lemma HeldLaneMeasures(lanes: seq<LaneTimer>, x: nat, now0: real, now1: real)
    requires x < |lanes| && lanes[x] == HeldTimer(now0)
    ensures CountLanes(lanes, now1)[x].counting
    ensures Trunc(CountLanes(lanes, now1)[x].dt * 1000.0) == Trunc((now1 - now0) * 1000.0)
  {
  }

  // ---------------------------------------------------------------------
  // The gameplay loop's judgement state
  // ---------------------------------------------------------------------

  /** Lane timer t as the judgement sees it. */
  function LaneOf(t: Timer): LaneTimer
    reads t
  {
    LaneTimer(t.counting, t.clock, t.dt)
  }

  /** The variables of gameplay_main that the judgement updates in place:
      note_list (by key number), cur_hit_notes, cur_note, accuracy_ranks,
      average_acc, accuracy_ms, paused and the lane timers recep_timers;
      `timing` is what the notes read of current_song. */
  class Session {
    var notes: seq<Note>
    var hittable: seq<nat>
    var cur: nat
    const ranks: array<int>
    var accuracy: real
    var lastAccuracyMs: Option<real>
    var paused: bool
    const timers: seq<Timer>
    const timing: Timing

    /** The judgement state as a value. */
    function Snapshot(): Play
      reads this, ranks
    {
      Play(notes, hittable, cur, ranks[..], accuracy, lastAccuracyMs)
    }

    /** The lane timers as values. */
    function Lanes(): (r: seq<LaneTimer>)
      reads this, timers
      ensures |r| == |timers| && forall x :: 0 <= x < |timers| ==> r[x] == LaneOf(timers[x])
    {
      seq(|timers|, (x: int) requires 0 <= x < |timers| reads timers => LaneOf(timers[x]))
    }

    /** A well-formed judgement state, distinct lane timers that count
        exactly while they have a clock, and a song with positive timing. */
    ghost predicate Valid()
      reads this, ranks, timers
    {
      && ranks.Length == 5 && WellFormed(Snapshot()) && ValidTiming(timing)
      && (forall i, j :: 0 <= i < j < |timers| ==> timers[i] != timers[j])
      && (forall x :: 0 <= x < |timers| ==> timers[x].Running())
    }

    /** The set-up of gameplay_main: one Note per loaded record, one lane
        timer per key, each started, counted and reset to zero, cur_note 0,
        no hittable notes, every counter 0 and average_acc 0. */
    constructor (data: seq<Chart.NoteData>, keyCount: nat, timing: Timing, now: real)
      requires ValidTiming(timing)
      ensures Valid() && this.timing == timing
      ensures |notes| == |data|
      ensures forall x :: 0 <= x < |data| ==>
        notes[x] == Note(data[x].id, data[x].lane, data[x].ms, data[x].holdMs, data[x].texture, data[x].kind,
                         Beat(data[x].ms, timing), true, true, false, false,
                         FreshHolds(data[x].ms, data[x].holdMs, timing), None)
      ensures hittable == [] && cur == 0 && ranks[..] == [0, 0, 0, 0, 0] && accuracy == 0.0
      ensures lastAccuracyMs == None && !paused
      ensures |Lanes()| == keyCount && forall x :: 0 <= x < keyCount ==> Lanes()[x] == LaneTimer(false, None, 0.0)
    {
      var ns: seq<Note> := [];
      var i := 0;
      while i < |data|
        invariant 0 <= i <= |data| && |ns| == i
        invariant forall x :: 0 <= x < i ==>
          ns[x] == Note(data[x].id, data[x].lane, data[x].ms, data[x].holdMs, data[x].texture, data[x].kind,
                        Beat(data[x].ms, timing), true, true, false, false,
                        FreshHolds(data[x].ms, data[x].holdMs, timing), None)
      {
        var d := data[i];
        var n := NewNote(d.id, d.lane, d.ms, d.holdMs, d.texture, d.kind, timing);
        ns := ns + [n];
        i := i + 1;
      }
      var ts: seq<Timer> := [];
      var x := 0;
      while x < keyCount
        invariant 0 <= x <= keyCount && |ts| == x
        invariant forall a, b :: 0 <= a < b < x ==> ts[a] != ts[b]
        invariant forall a :: 0 <= a < x ==> !ts[a].counting && ts[a].clock == None && ts[a].dt == 0.0
      {
        var t := new Timer(x);
        var e := t.Start(0.0, now);
        e := t.Count(now, false, 0.0, []);
        e := t.Reset(true, now);
        ts := ts + [t];
        x := x + 1;
      }
      notes := ns;
      hittable := [];
      cur := 0;
      ranks := new int[5](_ => 0);
      accuracy := 0.0;
      lastAccuracyMs := None;
      paused := false;
      timers := ts;
      this.timing := timing;
      new;
      assert ranks[..] == [0, 0, 0, 0, 0];
    }

    /** The hittable-set refresh at the start of a frame (Refresh). */
    method RefreshHittable() returns (err: Option<PyError>)
      requires Valid()
      modifies this`hittable
      ensures Valid()
      ensures var r := Refresh(old(Snapshot()));
        && (err.Some? <==> r.Err?) && (r.Err? ==> err == Some(r.error))
        && (r.Ok? ==> Snapshot() == r.value)
    {
      ghost var p := Snapshot();
      if |notes| == 0 {
        return Some(AttributeError);
      }
      err := None;
      var h := hittable;
      if !notes[cur].actuallyHit {
        if cur !in h {
          h := h + [cur];
        }
        if cur + 1 < |notes| && CompareFromRange(notes[cur].ms, notes[cur + 1].ms, 250.0) && cur + 1 !in h {
          h := h + [cur + 1];
        }
      }
      assert h == Refresh(p).value.hittable;
      hittable := h;
      assert Snapshot() == Refresh(p).value;
    }

    /** One pass of the key-down loop for lane x over hittable note i,
        while the lane timer is not counting (KeyDownStep). */
    method PressAt(x: nat, i: nat, songDt: real, now: real)
      requires Valid() && x < |timers| && i < |hittable| && !timers[x].counting
      modifies this`notes, this`hittable, this`cur, this`accuracy, this`lastAccuracyMs, ranks, timers[x]
      ensures Valid()
      ensures var o := KeyDownStep(old(Snapshot()), x, songDt, i);
        && Snapshot() == o.0 && timers[x].counting == o.1
        && (o.1 ==> LaneOf(timers[x]) == HeldTimer(now))
        && (!o.1 ==> LaneOf(timers[x]) == old(LaneOf(timers[x])))
    {
      var k := hittable[i];
      assert k in hittable;
      var n := notes[k];
      var delta := n.ms - songDt * 1000.0;
      if delta < 250.0 && delta > -133.33 && n.lane == x {
        var acc := Round2(delta);
        if n.holdMs <= 0.0 {
          JudgeTap(k, acc);
        } else {
          JudgeHold(x, k, acc, now);
        }
      } else if delta < -133.33 {
        AddSafetyNet();
      }
    }

    /** The safety net of a key-down (SafetyNet). */
    method AddSafetyNet()
      requires Valid()
      modifies this`hittable
      ensures Valid() && Snapshot() == SafetyNet(old(Snapshot()))
    {
      ghost var p := Snapshot();
      if cur + 1 < |notes| && cur + 1 !in hittable {
        hittable := hittable + [cur + 1];
      }
      assert Snapshot() == SafetyNet(p);
    }

    /** A judged tap: hit and knocked down, ranked with its rounded delta
        by calc_note_data, removed from the set, and cur_note advanced. */
    method JudgeTap(k: nat, acc: real)
      requires Valid() && k in hittable && notes[k].holdMs <= 0.0
      modifies this`notes, this`hittable, this`cur, this`accuracy, this`lastAccuracyMs, ranks
      ensures Valid()
      ensures Snapshot() == Tap(old(Snapshot()), k, acc)
    {
      ghost var p := Snapshot();
      TapFields(p, k, acc);
      RemoveFirstKey(p.hittable, k);
      var n := notes[k];
      notes := notes[k := n.(actuallyHit := true, rootAlive := false)];
      assert notes == p.notes[k := Hit(p.notes[k])];
      lastAccuracyMs := Some(acc);
      RankLast();
      hittable := RemoveFirst(hittable, k);
      if cur + 1 <= |notes| - 1 {
        cur := cur + 1;
      }
      assert Snapshot() == Tap(p, k, acc);
    }

    /** A judged hold: hit, knocked down and held; the lane timer starts at
        0 and is counted at once; cur_note advances. */
    method JudgeHold(x: nat, k: nat, acc: real, now: real)
      requires Valid() && x < |timers| && k < |notes| && notes[k].holdMs > 0.0 && !timers[x].counting
      modifies this`notes, this`cur, this`lastAccuracyMs, timers[x]
      ensures Valid()
      ensures Snapshot() == Advance(old(Snapshot()).(notes := old(notes)[k := Hit(old(notes)[k])], lastAccuracyMs := Some(acc)))
      ensures LaneOf(timers[x]) == HeldTimer(now)
    {
      var n := notes[k];
      notes := notes[k := n.(actuallyHit := true, rootAlive := false, holding := true)];
      lastAccuracyMs := Some(acc);
      var timer := timers[x];
      var e := timer.Start(0.0, now);
      e := timer.Count(now, false, 0.0, []);
      if cur + 1 <= |notes| - 1 {
        cur := cur + 1;
      }
    }
  
    /** The loop `for hit_note in cur_hit_notes` of a key-down in lane x
        (KeyDownFrom): nothing while the lane timer counts, and once a hold
        starts it the remaining passes do nothing. */
    method PressLane(x: nat, songDt: real, now: real)
      requires Valid() && x < |timers|
      modifies this`notes, this`hittable, this`cur, this`accuracy, this`lastAccuracyMs, ranks, timers[x]
      ensures Valid()
      ensures old(timers[x].counting) ==> Snapshot() == old(Snapshot()) && LaneOf(timers[x]) == old(LaneOf(timers[x]))
      ensures !old(timers[x].counting) ==>
        var o := KeyDownFrom(old(Snapshot()), x, songDt, 0);
        && Snapshot() == o.0
        && (o.1 ==> LaneOf(timers[x]) == HeldTimer(now))
        && (!o.1 ==> LaneOf(timers[x]) == old(LaneOf(timers[x])))
    {
      var timer := timers[x];
      if timer.counting {
        return;
      }
      ghost var p0 := Snapshot();
      ghost var t0 := LaneOf(timer);
      var i := 0;
      while i < |hittable|
        invariant Valid() && i <= |notes| == |p0.notes|
        invariant KeyDownRest(Snapshot(), timer.counting, x, songDt, i) == KeyDownFrom(p0, x, songDt, 0)
        invariant LaneOf(timer) == if timer.counting then HeldTimer(now) else t0
        decreases |notes| - i
      {
        PressNext(x, i, songDt, now);
        i := i + 1;
      }
      KeyDownRestDone(Snapshot(), timer.counting, x, songDt, i);
    }

    /** One iteration of the key-down loop: judged only while the lane
        timer does not count. */
    method PressNext(x: nat, i: nat, songDt: real, now: real)
      requires Valid() && x < |timers| && i < |hittable|
      modifies this`notes, this`hittable, this`cur, this`accuracy, this`lastAccuracyMs, ranks, timers[x]
      ensures Valid() && |notes| == old(|notes|) && i < |notes|
      ensures KeyDownRest(Snapshot(), timers[x].counting, x, songDt, i + 1)
           == KeyDownRest(old(Snapshot()), old(timers[x].counting), x, songDt, i)
      ensures old(timers[x].counting) ==> LaneOf(timers[x]) == old(LaneOf(timers[x]))
      ensures !old(timers[x].counting) ==>
        LaneOf(timers[x]) == if timers[x].counting then HeldTimer(now) else old(LaneOf(timers[x]))
    {
      HittableBound(hittable, |notes|);
      if !timers[x].counting {
        KeyDownUnfold(Snapshot(), x, songDt, i);
        PressAt(x, i, songDt, now);
      }
    }

    /** A KEYDOWN event: each lane bound to the key, while not paused, is
        judged unless a transition or the intro blocks it (KeyPressFrom). */
    method KeyDown(keyName: string, keybinds: seq<string>, blocked: bool, songDt: real, now: real)
      returns (err: Option<PyError>)
      requires Valid()
      modifies this`notes, this`hittable, this`cur, this`accuracy, this`lastAccuracyMs, ranks, timers
      ensures Valid()
      ensures var r := KeyPressFrom(old(Snapshot()), old(Lanes()), KeyName(keyName), keybinds, !paused && !blocked, songDt, now, 0);
        && (err.Some? <==> r.Err?) && (r.Err? ==> err == Some(r.error))
        && (r.Ok? ==> Snapshot() == r.value.0 && Lanes() == r.value.1)
    {
      var key := KeyName(keyName);
      var active := !paused && !blocked;
      ghost var p0 := Snapshot();
      ghost var l0 := Lanes();
      var x := 0;
      while x < |timers|
        invariant Valid() && x <= |timers| && |notes| == |p0.notes|
        invariant KeyPressFrom(Snapshot(), Lanes(), key, keybinds, active, songDt, now, x)
               == KeyPressFrom(p0, l0, key, keybinds, active, songDt, now, 0)
      {
        if x >= |keybinds| {
          return Some(IndexError);
        }
        PressKey(x, key, keybinds, active, songDt, now);
        x := x + 1;
      }
      err := None;
    }

    /** Lane x of a KEYDOWN event. */
    method PressKey(x: nat, key: string, keybinds: seq<string>, active: bool, songDt: real, now: real)
      requires Valid() && x < |timers| && x < |keybinds|
      modifies this`notes, this`hittable, this`cur, this`accuracy, this`lastAccuracyMs, ranks, timers[x]
      ensures Valid() && |notes| == old(|notes|)
      ensures KeyPressFrom(Snapshot(), Lanes(), key, keybinds, active, songDt, now, x + 1)
           == KeyPressFrom(old(Snapshot()), old(Lanes()), key, keybinds, active, songDt, now, x)
    {
      ghost var p := Snapshot();
      ghost var l := Lanes();
      if key == keybinds[x] && active {
        PressLane(x, songDt, now);
        forall y | 0 <= y < |timers| && y != x ensures Lanes()[y] == l[y] {
          assert timers[y] != timers[x];
        }
        if !l[x].counting {
          ghost var o := KeyDownFrom(p, x, songDt, 0);
          assert Lanes() == if o.1 then l[x := HeldTimer(now)] else l;
        } else {
          assert Lanes() == l;
        }
      }
    }

    /** One pass of the key-up loop for lane x over hittable note i
        (KeyUpStep); the exception leaves the state as it was. */
    method ReleaseAt(x: nat, holdTime: int, i: nat) returns (err: Option<PyError>)
      requires Valid() && i < |hittable|
      modifies this`notes, this`hittable, this`accuracy, ranks
      ensures Valid() && |notes| == old(|notes|)
      ensures var r := KeyUpStep(old(Snapshot()), x, holdTime, i);
        && (err.Some? <==> r.Err?) && (r.Err? ==> err == Some(r.error) && Snapshot() == old(Snapshot()))
        && (r.Ok? ==> Snapshot() == r.value)
    {
      var k := hittable[i];
      assert k in hittable;
      var n := notes[k];
      err := None;
      if n.actuallyHit && n.holdMs > 0.0 && n.lane == x {
        err := ScoreHold(k, holdTime);
        if err.Some? {
          return;
        }
        DropHold(k);
      }
    }

    /** One iteration of the key-up loop, stated against the rest of the
        loop. */
    method ReleaseNext(x: nat, holdTime: int, i: nat) returns (err: Option<PyError>)
      requires Valid() && i < |hittable|
      modifies this`notes, this`hittable, this`accuracy, ranks
      ensures Valid() && |notes| == old(|notes|) && i < |notes|
      ensures err.Some? ==> KeyUpFrom(old(Snapshot()), x, holdTime, i) == Err(err.value)
      ensures err.None? ==> KeyUpFrom(Snapshot(), x, holdTime, i + 1) == KeyUpFrom(old(Snapshot()), x, holdTime, i)
    {
      HittableBound(hittable, |notes|);
      KeyUpUnfold(Snapshot(), x, holdTime, i);
      err := ReleaseAt(x, holdTime, i);
    }

    /** The scoring of a released hold (ScoreRelease). */
    method ScoreHold(k: nat, holdTime: int) returns (err: Option<PyError>)
      requires Valid() && k < |notes|
      modifies this`notes, this`accuracy, ranks
      ensures Valid()
      ensures var r := ScoreRelease(old(Snapshot()), k, holdTime);
        && (err.Some? <==> r.Err?) && (r.Err? ==> err == Some(r.error) && Snapshot() == old(Snapshot()))
        && (r.Ok? ==> Snapshot() == r.value)
    {
      var n := notes[k];
      err := None;
      if (holdTime as real) < n.holdMs - 100.0 {
        MissHold(k);
      } else {
        if lastAccuracyMs.None? {
          return Some(UnboundLocalError);
        }
        RankLast();
      }
    }

    /** A hold released too early: its segments die and it counts as a
        miss. */
    method MissHold(k: nat)
      requires Valid() && k < |notes|
      modifies this`notes, this`accuracy, ranks
      ensures Valid()
      ensures Snapshot() == Miss(old(Snapshot()).(notes := old(notes)[k := old(notes)[k].(holds := KillHolds(old(notes)[k].holds))]))
    {
      var n := notes[k];
      notes := notes[k := n.(holds := KillHolds(n.holds))];
      ranks[MissRank] := ranks[MissRank] + 1;
      AccuracyBounds(|notes|, ranks[..]);
      var rank, a := CalcNoteData(None, ranks, |notes|);
      accuracy := a.value;
    }

    /** calc_note_data(accuracy_ms, ...): the counters and average_acc
        after ranking the last recorded delta. */
    method RankLast()
      requires Valid() && |notes| > 0 && lastAccuracyMs.Some?
      modifies this`accuracy, ranks
      ensures Valid()
      ensures Snapshot() == Score(old(Snapshot()), old(lastAccuracyMs))
    {
      AccuracyBounds(|notes|, Judge(ranks[..], Rank(lastAccuracyMs)));
      var rank, a := CalcNoteData(lastAccuracyMs, ranks, |notes|);
      accuracy := a.value;
    }

    /** The end of a release (Drop). */
    method DropHold(k: nat)
      requires Valid() && k < |notes|
      modifies this`notes, this`hittable
      ensures Valid() && Snapshot() == Drop(old(Snapshot()), k)
    {
      var m := notes[k];
      notes := notes[k := m.(holds := KillHolds(m.holds), holding := false)];
      hittable := RemoveEvery(hittable, k);
      assert Snapshot() == Drop(old(Snapshot()), k);
    }

    /** The loop `for hit_note in cur_hit_notes` of a key-up in lane x
        (KeyUpFrom). */
    method ReleaseLane(x: nat, holdTime: int) returns (err: Option<PyError>)
      requires Valid()
      modifies this`notes, this`hittable, this`accuracy, ranks
      ensures Valid() && |notes| == old(|notes|)
      ensures var r := KeyUpFrom(old(Snapshot()), x, holdTime, 0);
        && (err.Some? <==> r.Err?) && (r.Err? ==> err == Some(r.error))
        && (r.Ok? ==> Snapshot() == r.value)
    {
      ghost var p0 := Snapshot();
      var i := 0;
      while i < |hittable|
        invariant Valid() && i <= |notes| == |p0.notes|
        invariant KeyUpFrom(Snapshot(), x, holdTime, i) == KeyUpFrom(p0, x, holdTime, 0)
        decreases |notes| - i
      {
        err := ReleaseNext(x, holdTime, i);
        if err.Some? {
          return;
        }
        i := i + 1;
      }
      err := None;
    }

    /** A KEYUP event: each lane bound to the key, while not paused, reads
        its hold time, releases its held notes unless a transition or the
        intro blocks judging, and stops its timer at 0 (KeyReleaseFrom). */
    method KeyUp(keyName: string, keybinds: seq<string>, blocked: bool, now: real)
      returns (err: Option<PyError>)
      requires Valid()
      modifies this`notes, this`hittable, this`accuracy, ranks, timers
      ensures Valid()
      ensures var r := KeyReleaseFrom(old(Snapshot()), old(Lanes()), KeyName(keyName), keybinds, paused, blocked, 0);
        && (err.Some? <==> r.Err?) && (r.Err? ==> err == Some(r.error))
        && (r.Ok? ==> Snapshot() == r.value.0 && Lanes() == r.value.1)
    {
      var key := KeyName(keyName);
      ghost var p0 := Snapshot();
      ghost var l0 := Lanes();
      var x := 0;
      while x < |timers|
        invariant Valid() && x <= |timers| && |notes| == |p0.notes|
        invariant KeyReleaseFrom(Snapshot(), Lanes(), key, keybinds, paused, blocked, x)
               == KeyReleaseFrom(p0, l0, key, keybinds, paused, blocked, 0)
      {
        if x >= |keybinds| {
          return Some(IndexError);
        }
        err := ReleaseKey(x, key, keybinds, blocked, now);
        if err.Some? {
          return;
        }
        x := x + 1;
      }
      err := None;
    }

    /** Lane x of a KEYUP event. */
    method ReleaseKey(x: nat, key: string, keybinds: seq<string>, blocked: bool, now: real)
      returns (err: Option<PyError>)
      requires Valid() && x < |timers| && x < |keybinds|
      modifies this`notes, this`hittable, this`accuracy, ranks, timers[x]
      ensures Valid() && |notes| == old(|notes|)
      ensures err.Some? ==> KeyReleaseFrom(old(Snapshot()), old(Lanes()), key, keybinds, paused, blocked, x) == Err(err.value)
      ensures err.None? ==>
        KeyReleaseFrom(Snapshot(), Lanes(), key, keybinds, paused, blocked, x + 1)
        == KeyReleaseFrom(old(Snapshot()), old(Lanes()), key, keybinds, paused, blocked, x)
    {
      err := None;
      if key == keybinds[x] && !paused {
        ghost var l := Lanes();
        var timer := timers[x];
        var holdTime := Trunc(timer.dt * 1000.0);
        if !blocked {
          err := ReleaseLane(x, holdTime);
          if err.Some? {
            return;
          }
        }
        if timer.counting {
          var e := timer.Reset(true, now);
          timer.dt := 0.0;
        }
        forall y | 0 <= y < |timers| && y != x ensures Lanes()[y] == l[y] {
          assert timers[y] != timers[x];
        }
        assert Lanes() == if l[x].counting then l[x := LaneTimer(false, None, 0.0)] else l;
      }
    }

    /** One pass of the miss loop at key x (TickStep): a live note is
        updated and checked by run_kill; a miss kills its segments, counts a
        miss through calc_note_data and advances cur_note. */
    method MissAt(x: nat, songDt: real)
      requires Valid() && x < |notes|
      modifies this`notes, this`cur, this`accuracy, ranks
      ensures Valid() && Snapshot() == TickStep(old(Snapshot()), songDt, timing, x)
    {
      var n := notes[x];
      if n.alive {
        var m := UpdateNote(n, songDt, timing);
        TickedNoteHasFraction(n, songDt, timing);
        var (m2, killed) := NoteRunKill(m).value;
        if killed {
          notes := notes[x := m2.(holds := KillHolds(m2.holds))];
          CountMiss();
        } else {
          notes := notes[x := m2];
        }
      }
    }

    /** A passive miss: `accuracy_ranks[4] += 1`, calc_note_data(None, ...)
        and cur_note advanced (Advance of Miss). */
    method CountMiss()
      requires Valid() && |notes| > 0
      modifies this`cur, this`accuracy, ranks
      ensures Valid() && Snapshot() == Advance(Miss(old(Snapshot())))
    {
      ranks[MissRank] := ranks[MissRank] + 1;
      AccuracyBounds(|notes|, ranks[..]);
      var rank, a := CalcNoteData(None, ranks, |notes|);
      accuracy := a.value;
      if cur + 1 <= |notes| - 1 {
        cur := cur + 1;
      }
    }

    /** The note pass of a frame: while the song plays, every key is
        updated and checked for a miss (TickFrom). */
    method Tick(songDt: real, playing: bool)
      requires Valid()
      modifies this`notes, this`cur, this`accuracy, ranks
      ensures Valid()
      ensures Snapshot() == if playing then TickFrom(old(Snapshot()), songDt, timing, 0) else old(Snapshot())
    {
      if !playing {
        return;
      }
      ghost var p0 := Snapshot();
      var x := 0;
      while x < |notes|
        invariant Valid() && x <= |notes| == |p0.notes|
        invariant TickFrom(Snapshot(), songDt, timing, x) == TickFrom(p0, songDt, timing, 0)
      {
        MissAt(x, songDt);
        x := x + 1;
      }
    }

    /** The top of a frame: every counting lane timer is counted (CountLanes). */
    method CountLaneTimers(now: real)
      requires Valid()
      modifies timers
      ensures Valid() && Lanes() == CountLanes(old(Lanes()), now)
    {
      ghost var l0 := Lanes();
      var x := 0;
      while x < |timers|
        invariant Valid() && x <= |timers|
        invariant forall y :: 0 <= y < |timers| ==> Lanes()[y] == (if y < x then CountLanes(l0, now)[y] else l0[y])
      {
        var timer := timers[x];
        ghost var l := Lanes();
        if timer.counting {
          var e := timer.Count(now, false, 0.0, []);
        }
        forall y | 0 <= y < |timers| && y != x ensures Lanes()[y] == l[y] {
          assert timers[y] != timers[x];
        }
        x := x + 1;
      }
    }

    /** Escape while the song has started and no transition or intro runs:
        toggle paused and pause or resume the song. */
    method Escape(song: Song, blocked: bool, now: real) returns (err: Option<PyError>)
      requires Valid() && song.Valid() && song.conductor !in timers
      modifies this`paused, song`playing, song`pauseTime, song.conductor
      ensures Valid() && song.Valid()
      ensures var toggles := !blocked && old(song.conductor.dt) > 0.0;
        && paused == (if toggles then !old(paused) else old(paused))
        && (toggles ==> song.playing == !old(song.playing))
        && (!toggles ==> err == None && unchanged(song) && unchanged(song.conductor))
      ensures !blocked && old(song.conductor.dt) > 0.0 && old(song.playing) ==>
        if old(song.conductor.clock).None? then
          && err == Some(TimerNotRunning) && song.pauseTime == old(song.pauseTime)
          && song.conductor.clock == None && song.conductor.counting == old(song.conductor.counting)
          && song.conductor.dt == old(song.conductor.dt)
        else
          && err == None && song.pauseTime == now - old(song.conductor.clock).value
          && song.conductor.dt == song.pauseTime && song.conductor.clock == None && !song.conductor.counting
      ensures !blocked && old(song.conductor.dt) > 0.0 && !old(song.playing) ==>
        && song.pauseTime == old(song.pauseTime) && song.conductor.dt == old(song.conductor.dt)
        && if old(song.conductor.clock).Some? then
             err == Some(TimerRunning) && song.conductor.clock == old(song.conductor.clock)
             && song.conductor.counting == old(song.conductor.counting)
           else
             err == None && song.conductor.clock == Some(now - song.pauseTime) && song.conductor.counting
    {
      err := None;
      if !blocked && song.conductor.dt > 0.0 {
        paused := !paused;
        err := song.Pause(!song.playing, now);
      }
    }
  }
}
