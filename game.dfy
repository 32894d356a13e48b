/** code/util/Game.py: the judgement of one hit (calc_note_data), the
    gameplay Note with its hold segments, and the Song conductor state. */
module Game {
  import opened PyCore
  import opened Util
  import opened Approach
  import opened Classes

  // ---------------------------------------------------------------------
  // calc_note_data: rank and accuracy
  // ---------------------------------------------------------------------

  /** The upper edges (in ms) of the Perfect, Great, Good and Bad bands. */
  const RankBands: seq<real> := [50.0, 100.0, 116.67, 133.3]

  /** Index 4 of the counters: misses. */
  const MissRank: nat := 4

  /** The rank of a hit `hitMs` ms off the note (None for a miss): the first
      band whose inclusive edge |hitMs| reaches, and Bad (3) beyond the last
      edge; only a missing delta is ranked Miss (4). */
  function Rank(hitMs: Option<real>): (i: nat)
    ensures hitMs.None? <==> i == MissRank
    ensures hitMs.Some? ==> i <= 3
    ensures hitMs.Some? ==> forall j :: 0 <= j < i ==> Abs(hitMs.value) > RankBands[j]
    ensures hitMs.Some? && i < 3 ==> Abs(hitMs.value) <= RankBands[i]
    ensures hitMs.Some? && Abs(hitMs.value) > RankBands[3] ==> i == 3
  {
    if hitMs.None? then MissRank else BandFrom(Abs(hitMs.value), 0)
  }

  /** The band search from band j on. */
  function BandFrom(a: real, j: nat): (i: nat)
    requires j <= 3
    ensures j <= i <= 3
    ensures forall m :: j <= m < i ==> a > RankBands[m]
    ensures i < 3 ==> a <= RankBands[i]
    decreases 3 - j
  {
    if a <= RankBands[j] || j == 3 then j else BandFrom(a, j + 1)
  }

  /** The search loop of calc_note_data: compare |hit_ms| with each edge
      through compare_from_range(0, |hit_ms|, edge), break on the first
      match, and stop counting up at 3. */
  method RankIndex(hitMs: Option<real>) returns (i: nat)
    ensures i == Rank(hitMs)
  {
    i := 0;
    if hitMs.Some? {
      var a := Abs(hitMs.value);
      var k := 0;
      while k < |RankBands|
        invariant 0 <= k <= 4 && i == (if k < 4 then k else 3)
        invariant k < 4 ==> BandFrom(a, k) == Rank(hitMs)
        invariant k == 4 ==> Rank(hitMs) == 3
      {
        var inBand := CompareFromRange(0.0, a, RankBands[k]);
        if inBand {
          break;
        }
        if i + 1 != 4 {
          i := i + 1;
        }
        k := k + 1;
      }
    } else {
      i := MissRank;
    }
  }

  /** A hit further off never ranks better. */
  lemma {:induction false} RankMonotone(d1: real, d2: real)
    requires Abs(d1) <= Abs(d2)
    ensures Rank(Some(d1)) <= Rank(Some(d2))
  {
    BandMonotone(Abs(d1), Abs(d2), 0);
  }

  lemma {:induction false} BandMonotone(a1: real, a2: real, j: nat)
    requires a1 <= a2 && j <= 3
    ensures BandFrom(a1, j) <= BandFrom(a2, j)
    decreases 3 - j
  {
    if a1 <= RankBands[j] || j == 3 {
    } else {
      BandMonotone(a1, a2, j + 1);
    }
  }

  /** The counters after judging at `rank`: one more in that rank's counter
      when it is 0..3; a miss (4) is counted by the caller instead. */
  function Judge(a: seq<int>, rank: nat): (b: seq<int>)
    requires |a| == 5
    ensures |b| == 5
  {
    if rank <= 3 then a[rank := a[rank] + 1] else a
  }

  function Total(a: seq<int>): int
    requires |a| == 5
  {
    a[0] + a[1] + a[2] + a[3] + a[4]
  }

  /** A numeric delta adds exactly one to exactly one of counters 0..3 and
      leaves the miss counter alone; a missing delta changes nothing. */
  lemma JudgeCountsOnce(a: seq<int>, hitMs: Option<real>)
    requires |a| == 5
    ensures var b := Judge(a, Rank(hitMs));
      && (hitMs.Some? ==>
            (&& Total(b) == Total(a) + 1 && b[MissRank] == a[MissRank]
             && forall j :: 0 <= j < 5 && j != Rank(hitMs) ==> b[j] == a[j]))
      && (hitMs.None? ==> b == a)
  {
  }

  /** The osu!mania accuracy over n notes and the five counters; a zero
      denominator is a ZeroDivisionError. */
  function Accuracy(n: int, a: seq<int>): (r: Result<real>)
    requires |a| == 5
    ensures r.Err? <==> n + Total(a) == 0
    ensures r.Err? ==> r.error == ZeroDivisionError
  {
    var den := 300 * (n + a[0] + a[1] + a[2] + a[3] + a[4]);
    if den == 0 then Err(ZeroDivisionError)
    else Ok((300 * (n + a[0]) + 200 * a[1] + 100 * a[2] + 50 * a[3]) as real / den as real)
  }

  /** With notes and non-negative counters the accuracy is defined, lies in
      (0, 1], and is exactly 1 when nothing was ranked below Perfect. */
  lemma AccuracyBounds(n: int, a: seq<int>)
    requires |a| == 5 && n > 0
    requires forall j :: 0 <= j < 5 ==> a[j] >= 0
    ensures Accuracy(n, a).Ok?
    ensures 0.0 < Accuracy(n, a).value <= 1.0
    ensures Accuracy(n, a).value == 1.0 <==> (a[1] == 0 && a[2] == 0 && a[3] == 0 && a[4] == 0)
  {
    var num := (300 * (n + a[0]) + 200 * a[1] + 100 * a[2] + 50 * a[3]) as real;
    var den := (300 * (n + a[0] + a[1] + a[2] + a[3] + a[4])) as real;
    assert den - num == (100 * a[1] + 200 * a[2] + 250 * a[3] + 300 * a[4]) as real;
    assert 0.0 < num <= den;
    RatioAtMostOne(num, den);
  }

  lemma RatioAtMostOne(num: real, den: real)
    requires 0.0 < num <= den
    ensures 0.0 < num / den <= 1.0
    ensures num / den == 1.0 <==> num == den
  {
    assert (num / den) * den == num;
  }

  /** Ten notes, five Perfect, three Great and two misses: 0.85. */
  lemma AccuracyExample()
    ensures Accuracy(10, [5, 3, 0, 0, 2]) == Ok(0.85)
  {
  }

  /** calc_note_data(hit_ms, acc_database, note_list): rank the hit, count
      it in place, and return the accuracy over n = len(note_list) notes. */
  method CalcNoteData(hitMs: Option<real>, acc: array<int>, n: int) returns (rank: nat, accuracy: Result<real>)
    requires acc.Length == 5
    modifies acc
    ensures rank == Rank(hitMs)
    ensures acc[..] == Judge(old(acc[..]), rank)
    ensures accuracy == Accuracy(n, acc[..])
  {
    rank := RankIndex(hitMs);
    if rank <= 3 {
      acc[rank] := acc[rank] + 1;
    }
    accuracy := Accuracy(n, acc[..]);
  }

  // ---------------------------------------------------------------------
  // Note and HoldNote
  // ---------------------------------------------------------------------

  /** A gameplay Note: its chart data (id, lane, ms, hold_ms, texture,
      type), its beat, the flags the judgement flips, its hold segments and
      its approach fraction (calc, None before the first run_calc). */
  datatype Note = Note(
    id: int, lane: int, ms: real, holdMs: real, texture: string, kind: string,
    beat: real, alive: bool, rootAlive: bool, holding: bool, actuallyHit: bool,
    holds: seq<HoldSegment>, frac: Option<real>)

  /** The hold segments a note of hold_ms builds: none unless the hold is
      at least one whole step. */
  function FreshHolds(ms: real, holdMs: real, t: Timing): seq<HoldSegment>
    requires ValidTiming(t)
  {
    var k := HoldSteps(holdMs, t);
    if k > 0 then HoldLayout(ms, k, t) else []
  }

  /** Note.__init__: alive, root alive, neither held nor hit, no fraction
      yet, and the hold segments from the append loop. */
  method NewNote(id: int, lane: int, ms: real, holdMs: real, texture: string, kind: string, t: Timing)
    returns (n: Note)
    requires ValidTiming(t)
    ensures n == Note(id, lane, ms, holdMs, texture, kind, Beat(ms, t),
                      true, true, false, false, FreshHolds(ms, holdMs, t), None)
  {
    var k := HoldSteps(holdMs, t);
    var holds := [];
    if k > 0 {
      holds := BuildHoldSegments(ms, k, t);
    }
    n := Note(id, lane, ms, holdMs, texture, kind, Beat(ms, t), true, true, false, false, holds, None);
  }

  /** One frame of a hold segment: HoldNote.update computes the fraction of
      a live segment, and while its note is held and hit HoldNote.run_kill
      consumes it past 0.87. */
  function SegmentTick(seg: HoldSegment, consume: bool, dt: real, t: Timing): HoldSegment
    requires ValidTiming(t)
  {
    if !seg.alive then seg
    else
      var c := Calc(seg.beat, dt, t);
      seg.(frac := Some(c), alive := !(consume && c > 0.87))
  }

  /** A segment of a held note is consumed in the frame the conductor has
      passed the segment's own time, and not before; an unheld segment and
      a consumed one stay as they are. */
  lemma HeldSegmentConsumedOnTime(seg: HoldSegment, consume: bool, dt: real, t: Timing)
    requires ValidTiming(t) && seg.alive && seg.beat == Beat(seg.ms, t)
    ensures !SegmentTick(seg, consume, dt, t).alive <==> (consume && dt * 1000.0 > seg.ms)
    ensures SegmentTick(seg, consume, dt, t).frac.Some?
  {
    var d := t.secPerBeat * t.beatsShown;
    var y := dt - seg.ms / 1000.0;
    CalcClosedForm(seg.ms, dt, t);
    DivBounds(y, d, 0.0, 0.0);
  }

  /** A consumed segment is never revived. */
  lemma ConsumedSegmentStays(seg: HoldSegment, consume: bool, dt: real, t: Timing)
    requires ValidTiming(t) && !seg.alive
    ensures SegmentTick(seg, consume, dt, t) == seg
  {
  }

  /** Note.update, as a function of the note and the conductor time: a tap
      note's alive follows its root; every segment ticks (consuming only
      while held and hit); a live note gets its fraction. */
  function NoteTick(n: Note, dt: real, t: Timing): (m: Note)
    requires ValidTiming(t)
    ensures |m.holds| == |n.holds|
  {
    var alive := if n.holdMs <= 0.0 then n.rootAlive else n.alive;
    var holds := seq(|n.holds|, (i: int) requires 0 <= i < |n.holds| =>
                       SegmentTick(n.holds[i], n.holding && n.actuallyHit, dt, t));
    n.(alive := alive, holds := holds, frac := if alive then Some(Calc(n.beat, dt, t)) else n.frac)
  }

  /** After a tick of a live note, a note whose root still stands has a
      fraction: the miss test that follows never reads None. */
  lemma TickedNoteHasFraction(n: Note, dt: real, t: Timing)
    requires ValidTiming(t) && n.alive
    ensures NoteTick(n, dt, t).rootAlive ==> NoteTick(n, dt, t).frac == Some(Calc(n.beat, dt, t))
    ensures NoteTick(n, dt, t).rootAlive == n.rootAlive
  {
  }

  /** Note.update: the two loops over hold_notes (update, then run_kill
      while held and hit), then run_calc when alive. */
  method UpdateNote(n: Note, dt: real, t: Timing) returns (m: Note)
    requires ValidTiming(t)
    ensures m == NoteTick(n, dt, t)
  {
    var alive := n.alive;
    if n.holdMs <= 0.0 {
      alive := n.rootAlive;
    }
    var holds := n.holds;
    var i := 0;
    while i < |holds|
      invariant 0 <= i <= |holds| == |n.holds|
      invariant forall j :: 0 <= j < i ==> holds[j] == SegmentTick(n.holds[j], false, dt, t)
      invariant forall j :: i <= j < |holds| ==> holds[j] == n.holds[j]
    {
      if holds[i].alive {
        holds := holds[i := holds[i].(frac := Some(Calc(holds[i].beat, dt, t)))];
      }
      i := i + 1;
    }
    if n.holding && n.actuallyHit {
      i := 0;
      while i < |holds|
        invariant 0 <= i <= |holds| == |n.holds|
        invariant forall j :: 0 <= j < i ==> holds[j] == SegmentTick(n.holds[j], true, dt, t)
        invariant forall j :: i <= j < |holds| ==> holds[j] == SegmentTick(n.holds[j], false, dt, t)
      {
        if holds[i].alive && holds[i].frac.value > 0.87 {
          holds := holds[i := holds[i].(alive := false)];
        }
        i := i + 1;
      }
    }
    var frac := n.frac;
    if alive {
      frac := Some(Calc(n.beat, dt, t));
    }
    m := n.(alive := alive, holds := holds, frac := frac);
  }

  /** Note.run_kill: a standing root whose fraction is past 1 is missed and
      knocked down (True); a standing root not yet past 1 gives None, a
      fallen root False, both read as no miss. A standing root with no
      fraction is a TypeError (None > 1). */
  function NoteRunKill(n: Note): (r: Result<(Note, bool)>)
    ensures r.Err? <==> n.rootAlive && n.frac.None?
    ensures r.Err? ==> r.error == TypeError
  {
    if !n.rootAlive then Ok((n, false))
    else match n.frac
      case None => Err(TypeError)
      case Some(c) => if c > 1.0 then Ok((n.(rootAlive := false), true)) else Ok((n, false))
  }

  /** run_kill fires at most once per note: only on a standing root, only
      past 1, and firing knocks the root down so that it never fires again. */
  lemma RunKillFiresOnce(n: Note)
    requires NoteRunKill(n).Ok? && NoteRunKill(n).value.1
    ensures n.rootAlive && n.frac.Some? && n.frac.value > 1.0
    ensures NoteRunKill(n).value.0 == n.(rootAlive := false)
    ensures NoteRunKill(NoteRunKill(n).value.0) == Ok((NoteRunKill(n).value.0, false))
  {
  }

  /** run_kill leaves everything but the root flag alone. */
  lemma RunKillOnlyDropsRoot(n: Note)
    requires NoteRunKill(n).Ok?
    ensures NoteRunKill(n).value.0 == n.(rootAlive := NoteRunKill(n).value.0.rootAlive)
    ensures NoteRunKill(n).value.0.rootAlive == (n.rootAlive && !NoteRunKill(n).value.1)
  {
  }

  /** In time: a note computed at conductor time dt is missed exactly when
      dt is more than 0.13 screen-times (spb * beats_shown seconds) past the
      note. */
  lemma MissAfterWindow(n: Note, dt: real, t: Timing)
    requires ValidTiming(t) && n.rootAlive && n.beat == Beat(n.ms, t)
    requires n.frac == Some(Calc(n.beat, dt, t))
    ensures NoteRunKill(n).Ok?
    ensures NoteRunKill(n).value.1 <==> dt - n.ms / 1000.0 > 0.13 * (t.secPerBeat * t.beatsShown)
  {
    var d := t.secPerBeat * t.beatsShown;
    var y := dt - n.ms / 1000.0;
    CalcClosedForm(n.ms, dt, t);
    DivBounds(y, d, 0.13, 0.13);
  }

  // ---------------------------------------------------------------------
  // Song
  // ---------------------------------------------------------------------

  /** Song, as its timing state: bpm and whole-second length are given (the
      file's tags are read elsewhere); conductor is the song Timer. */
  class Song {
    const bpm: real
    const length: int
    const secPerBeat: real
    const secPerStep: real
    const beatsShown: real
    const conductor: Timer
    var playing: bool
    var pauseTime: real
    var posInBeats: int
    var posInSteps: int
    var finished: bool
    var introPlaying: bool

    predicate Valid()
      reads this, conductor
    {
      && bpm > 0.0 && secPerBeat == 60.0 / bpm && secPerStep == 60.0 / bpm / 4.0
      && beatsShown > 0.0 && conductor.Valid()
    }

    /** The values a note reads from its song. */
    function Timing(): (t: Approach.Timing)
      reads this, conductor
      requires Valid()
      ensures ValidTiming(t) && t.secPerStep * 4.0 == t.secPerBeat
    {
      Approach.Timing(secPerBeat, secPerStep, beatsShown)
    }

    /** Song.__init__ from the tag's bpm, the file's length in seconds and
        the scroll speed. */
    constructor (bpm: real, timeSecs: real, beatsShown: real)
      requires bpm > 0.0 && beatsShown > 0.0
      ensures this.bpm == bpm && length == Trunc(timeSecs) && this.beatsShown == beatsShown
      ensures !playing && pauseTime == 0.0 && posInBeats == 0 && posInSteps == 0
      ensures !finished && introPlaying
      ensures fresh(conductor) && !conductor.counting && conductor.clock == None && conductor.dt == 0.0
      ensures Valid()
    {
      this.bpm := bpm;
      length := Trunc(timeSecs);
      secPerBeat := 60.0 / bpm;
      secPerStep := 60.0 / bpm / 4.0;
      this.beatsShown := beatsShown;
      conductor := new Timer(0);
      playing := false;
      pauseTime := 0.0;
      posInBeats := 0;
      posInSteps := 0;
      finished := false;
      introPlaying := true;
    }

    /** Song.start(ref): once the song has run past its intro, the conductor
        is only marked not counting (its clock stays); otherwise it is
        started ref seconds in, which fails while it has a clock. A negative
        ref marks the intro as playing. */
    method Start(ref: real, now: real) returns (err: Option<PyError>)
      requires Valid()
      modifies this`playing, this`introPlaying, conductor`clock, conductor`counting
      ensures Valid()
      ensures var resume := old(conductor.dt) > 0.0 && !old(introPlaying);
        && (resume ==>
              (&& err == None && !conductor.counting
               && conductor.clock == (if old(conductor.clock).None? then Some(now) else old(conductor.clock))))
        && (!resume ==>
              (&& err == (if old(conductor.clock).Some? then Some(TimerRunning) else None)
               && conductor.clock == (if old(conductor.clock).Some? then old(conductor.clock) else Some(now - ref))
               && conductor.counting == (old(conductor.clock).None? || old(conductor.counting))))
      ensures err == None ==> playing && introPlaying == (old(introPlaying) || ref < 0.0)
      ensures err != None ==> playing == old(playing) && introPlaying == old(introPlaying)
    {
      if conductor.dt > 0.0 && !introPlaying {
        conductor.Pause(false, now);
      } else {
        err := conductor.Start(ref, now);
        if err.Some? {
          return;
        }
      }
      err := None;
      playing := true;
      if ref < 0.0 {
        introPlaying := true;
      }
    }

    /** Song.update(use_offset, grid): the song is finished once the
        conductor's whole seconds reach its length; a playing song counts
        its conductor (and the grid) and takes its position in beats and
        steps; the intro ends, and the song starts from 0, once the
        position in beats is 0. */
    method Update(useOffset: bool, offset: real, grid: seq<seq<Chart.ChartGrid>>, now: real)
      returns (err: Option<PyError>)
      requires Valid()
      modifies this, conductor, Cells(grid)
      ensures Valid()
      ensures finished == (old(finished) || old(conductor.dt).Floor == length)
      ensures old(playing) && old(conductor.clock).None? ==>
        err == Some(TypeError) && posInBeats == old(posInBeats) && introPlaying == old(introPlaying)
        && playing == old(playing) && conductor.clock == old(conductor.clock)
      ensures old(playing) && old(conductor.clock).Some? ==>
        && conductor.dt == now - old(conductor.clock).value - (if useOffset then offset / 1000.0 else 0.0)
        && posInBeats == (conductor.dt / secPerBeat).Floor
        && posInSteps == (conductor.dt / secPerStep).Floor
        && forall c :: c in Cells(grid) ==> c.curMs == conductor.dt * 1000.0 + c.mult * 1000.0
      ensures !(old(playing) && old(conductor.clock).Some?) ==>
        forall c :: c in Cells(grid) ==> c.curMs == old(c.curMs)
      ensures !old(playing) ==>
        posInBeats == old(posInBeats) && posInSteps == old(posInSteps) && conductor.dt == old(conductor.dt)
      ensures err != Some(TypeError) ==>
        (introPlaying <==> (old(introPlaying) && posInBeats != 0))
      ensures err == None && old(introPlaying) && posInBeats == 0 ==> playing
      ensures err == None && !(old(introPlaying) && posInBeats == 0) ==>
        playing == old(playing) && conductor.clock == old(conductor.clock) && conductor.counting == old(conductor.counting)
    {
      err := None;
      if conductor.dt.Floor == length {
        finished := true;
      }
      if playing {
        err := conductor.Count(now, useOffset, offset, grid);
        if err.Some? {
          return;
        }
        posInBeats := (conductor.dt / secPerBeat).Floor;
        posInSteps := (conductor.dt / secPerStep).Floor;
      }
      if introPlaying && posInBeats == 0 {
        introPlaying := false;
        err := Start(0.0, now);
      }
    }

    /** Song.update_paused: the position of the paused song, truncated. */
    method UpdatePaused()
      requires Valid()
      modifies this`posInBeats, this`posInSteps
      ensures posInBeats == Trunc(pauseTime / secPerBeat)
      ensures posInSteps == Trunc(pauseTime / secPerStep)
      ensures pauseTime >= 0.0 ==> posInSteps / 4 == posInBeats
    {
      posInBeats := Trunc(pauseTime / secPerBeat);
      posInSteps := Trunc(pauseTime / secPerStep);
      if pauseTime >= 0.0 {
        StepIsQuarterBeat(pauseTime, secPerBeat, secPerStep);
        StepsAndBeatsAgree(pauseTime / secPerBeat);
      }
    }

    /** Song.pause(pause): playing takes the argument. Pausing stops the
        conductor and keeps its time as pause_time, and fails when the
        conductor has no clock; resuming starts the conductor pause_time
        seconds in, and fails while it has a clock. */
    method Pause(pause: bool, now: real) returns (err: Option<PyError>)
      requires Valid()
      modifies this`playing, this`pauseTime, conductor
      ensures Valid() && playing == pause
      ensures !pause && old(conductor.clock).None? ==>
        err == Some(TimerNotRunning) && pauseTime == old(pauseTime) && conductor.clock == None
        && conductor.counting == old(conductor.counting) && conductor.dt == old(conductor.dt)
      ensures !pause && old(conductor.clock).Some? ==>
        err == None && pauseTime == now - old(conductor.clock).value && conductor.dt == pauseTime
        && conductor.clock == None && !conductor.counting
      ensures pause ==> pauseTime == old(pauseTime) && conductor.dt == old(conductor.dt)
      ensures pause && old(conductor.clock).Some? ==>
        err == Some(TimerRunning) && conductor.clock == old(conductor.clock) && conductor.counting == old(conductor.counting)
      ensures pause && old(conductor.clock).None? ==>
        err == None && conductor.clock == Some(now - pauseTime) && conductor.counting
    {
      playing := pause;
      if !pause {
        err := conductor.Reset(false, now);
        if err.Some? {
          return;
        }
        pauseTime := conductor.dt;
      } else {
        err := conductor.Start(pauseTime, now);
      }
    }
  }

  lemma StepIsQuarterBeat(p: real, spb: real, sps: real)
    requires spb > 0.0 && sps * 4.0 == spb
    ensures p / sps == 4.0 * (p / spb)
  {
    assert (p / spb) * spb == p;
    assert (4.0 * (p / spb)) * sps == p;
  }

  /** For x >= 0: the whole steps, divided into whole beats, give the whole
      beats. */
  lemma StepsAndBeatsAgree(x: real)
    requires x >= 0.0
    ensures Trunc(4.0 * x) / 4 == Trunc(x)
  {
    var b := x.Floor;
    assert b as real <= x < b as real + 1.0;
    assert 4 * b <= (4.0 * x).Floor < 4 * b + 4;
  }

  /** Pausing a song twice in a row fails the second time: the first pause
      leaves the conductor without a clock, whether it succeeded or not. */
  method PauseTwiceRaises(song: Song, now0: real, now1: real) returns (err: Option<PyError>)
    requires song.Valid()
    modifies song, song.conductor
    ensures err == Some(TimerNotRunning) && !song.playing
  {
    var e := song.Pause(false, now0);
    err := song.Pause(false, now1);
  }

  /** Paused at now0 and resumed at now1, a song reads at now2 the time it
      was paused at plus the time played since the resume. */
  method PauseResumeContinues(song: Song, now0: real, now1: real, now2: real) returns (dt: real)
    requires song.Valid() && song.conductor.clock.Some?
    modifies song, song.conductor
    ensures dt == (now0 - old(song.conductor.clock).value) + (now2 - now1)
  {
    var e := song.Pause(false, now0);
    e := song.Pause(true, now1);
    e := song.conductor.Count(now2, false, 0.0, []);
    dt := song.conductor.dt;
  }
}
