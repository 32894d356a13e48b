/** The note-timing arithmetic that code/util/Game.py (Note, HoldNote) and
    code/util/Chart.py (ChartNote, ChartHoldNote) each repeat word for word:
    init_beat_step, run_calc, and the loop that lays out a long note's hold
    segments one step apart. */
module Approach {
  import opened PyCore

  /** The song values a note reads: seconds per beat (60 / bpm), seconds per
      step (a quarter beat) and beats_shown, the scroll speed. */
  datatype Timing = Timing(secPerBeat: real, secPerStep: real, beatsShown: real)

  /** Every Song has a positive bpm, and the model's notes move under a
      positive scroll speed; a scroll speed of 0 raises in run_calc
      (RunCalc). */
  predicate ValidTiming(t: Timing) {
    t.secPerBeat > 0.0 && t.secPerStep > 0.0 && t.beatsShown > 0.0
  }

  /** Length of one step in milliseconds. */
  function StepMs(t: Timing): real {
    t.secPerStep * 1000.0
  }

  /** init_beat_step: a note's beat, from its time in milliseconds. */
  function Beat(ms: real, t: Timing): real
    requires ValidTiming(t)
  {
    ms / t.secPerBeat / 1000.0
  }

  /** run_calc: the approach fraction of a note at `beat` when the conductor
      reads `dt` seconds. */
  function Calc(beat: real, dt: real, t: Timing): real
    requires ValidTiming(t)
  {
    0.87 - (beat - dt / t.secPerBeat) / t.beatsShown
  }

  /** run_calc for any scroll speed the settings can hold: a Scroll Speed
      of 0, which backspacing its option box to empty stores, makes the
      division by beats_shown raise. For a valid timing it is Calc. */
  function RunCalc(beat: real, dt: real, t: Timing): (r: Result<real>)
    requires t.secPerBeat > 0.0
    ensures r.Err? <==> t.beatsShown == 0.0
    ensures r.Err? ==> r.error == ZeroDivisionError
    ensures ValidTiming(t) ==> r == Ok(Calc(beat, dt, t))
  {
    if t.beatsShown == 0.0 then Err(ZeroDivisionError)
    else Ok(0.87 - (beat - dt / t.secPerBeat) / t.beatsShown)
  }

  /** Seen from the note's time: the fraction is 0.87 plus the time past
      the note, in units of the time the note is on screen (spb * beats_shown). */
  lemma CalcClosedForm(ms: real, dt: real, t: Timing)
    requires ValidTiming(t)
    ensures Calc(Beat(ms, t), dt, t)
         == 0.87 + (dt - ms / 1000.0) / (t.secPerBeat * t.beatsShown)
  {
    LagScaled(ms, dt, t.secPerBeat, t.beatsShown);
  }

  /** The algebra behind CalcClosedForm, over plain positive reals. */
  lemma LagScaled(ms: real, dt: real, spb: real, shown: real)
    requires spb > 0.0 && shown > 0.0
    ensures (dt - ms / 1000.0) / (spb * shown) == -((ms / spb / 1000.0 - dt / spb) / shown)
  {
    var x := ms / 1000.0 - dt;
    var a := ms / spb / 1000.0 - dt / spb;
    var b := a / shown;
    assert a * spb == x by {
      assert (ms / spb) * spb == ms;
      assert (dt / spb) * spb == dt;
      assert (ms / spb / 1000.0) * spb == ((ms / spb) * spb) / 1000.0;
    }
    assert b * shown == a;
    assert (-b) * (spb * shown) == dt - ms / 1000.0 by {
      assert b * (spb * shown) == (b * shown) * spb;
    }
    DivOfProduct(-b, spb * shown);
  }

  lemma DivOfProduct(y: real, d: real)
    requires d > 0.0
    ensures (y * d) / d == y
  {
  }

  /** For d > 0: lo <= y / d <= hi exactly when lo * d <= y <= hi * d. */
  lemma DivBounds(y: real, d: real, lo: real, hi: real)
    requires d > 0.0
    ensures (y / d <= hi) <==> (y <= hi * d)
    ensures (lo <= y / d) <==> (lo * d <= y)
  {
    assert (y / d) * d == y;
    if y / d <= hi { assert (y / d) * d <= hi * d; }
    if y <= hi * d { assert y / d <= (hi * d) / d; }
    if lo <= y / d { assert lo * d <= (y / d) * d; }
    if lo * d <= y { assert (lo * d) / d <= y / d; }
  }

  /** A note sits on the judgement line (fraction 0.87) exactly when the
      conductor time in milliseconds equals the note's time. */
  lemma CalcAtJudgementLine(ms: real, dt: real, t: Timing)
    requires ValidTiming(t)
    ensures Calc(Beat(ms, t), dt, t) == 0.87 <==> dt * 1000.0 == ms
  {
    CalcClosedForm(ms, dt, t);
    var d := t.secPerBeat * t.beatsShown;
    assert d > 0.0;
    if (dt - ms / 1000.0) / d == 0.0 {
      assert dt - ms / 1000.0 == ((dt - ms / 1000.0) / d) * d;
    }
  }

  /** The fraction grows strictly with conductor time. */
  lemma CalcStrictlyIncreasing(beat: real, dt1: real, dt2: real, t: Timing)
    requires ValidTiming(t) && dt1 < dt2
    ensures Calc(beat, dt1, t) < Calc(beat, dt2, t)
  {
    var spb, shown := t.secPerBeat, t.beatsShown;
    assert dt1 / spb < dt2 / spb;
    assert beat - dt2 / spb < beat - dt1 / spb;
    assert (beat - dt2 / spb) / shown < (beat - dt1 / spb) / shown;
  }

  /** Which sprite a hold segment uses: the first (root), the last (end) or
      one in between. */
  datatype SegmentKind = Root | Middle | End

  /** HoldNote / ChartHoldNote, as a value owned by its parent note: its
      position in the hold, sprite kind, time, beat, whether it is still
      drawn, and its approach fraction once computed. */
  datatype HoldSegment = HoldSegment(
    index: nat, kind: SegmentKind, ms: real, beat: real, alive: bool, frac: Option<real>)

  /** The sprite of segment x in `for x in range(0, k + 1)`: the `x == 0`
      test comes first, so a one-segment hold is a lone root. */
  function KindAt(x: nat, k: int): (kind: SegmentKind)
    ensures kind == End ==> x > 0 && x == k
    ensures kind == Root <==> x == 0
  {
    if x == 0 then Root else if x == k then End else Middle
  }

  /** Segment x of a hold whose last index is k. */
  function SegmentAt(ms: real, x: nat, k: int, t: Timing): (seg: HoldSegment)
    requires ValidTiming(t)
  {
    var m := ms + StepMs(t) * x as real;
    HoldSegment(x, KindAt(x, k), m, Beat(m, t), true, None)
  }

  /** The segments the `for x in range(0, k + 1)` loop appends, for any k
      (none when k < 0). */
  function HoldLayout(ms: real, k: int, t: Timing): (segs: seq<HoldSegment>)
    requires ValidTiming(t)
    ensures |segs| == if k < 0 then 0 else k + 1
  {
    if k < 0 then [] else seq(k + 1, (x: int) requires 0 <= x => SegmentAt(ms, x, k, t))
  }

  /** The shape the game relies on: k + 1 segments one step apart, a root at
      the note's own time and (for k > 0) an end k steps later; every
      segment starts alive and not yet computed. */
  lemma HoldLayoutShape(ms: real, k: nat, t: Timing)
    requires ValidTiming(t)
    ensures |HoldLayout(ms, k, t)| == k + 1
    ensures HoldLayout(ms, k, t)[0].kind == Root && HoldLayout(ms, k, t)[0].ms == ms
    ensures k > 0 ==> HoldLayout(ms, k, t)[k].kind == End
    ensures forall x :: 0 < x < k ==> HoldLayout(ms, k, t)[x].kind == Middle
    ensures forall x :: 0 <= x < k ==> HoldLayout(ms, k, t)[x + 1].ms == HoldLayout(ms, k, t)[x].ms + StepMs(t)
    ensures forall x :: 0 <= x <= k ==>
      HoldLayout(ms, k, t)[x].index == x && HoldLayout(ms, k, t)[x].alive && HoldLayout(ms, k, t)[x].frac == None
  {
    var segs := HoldLayout(ms, k, t);
    forall x | 0 <= x < k ensures segs[x + 1].ms == segs[x].ms + StepMs(t) {
      assert segs[x + 1] == SegmentAt(ms, x + 1, k, t);
      assert segs[x] == SegmentAt(ms, x, k, t);
      assert StepMs(t) * (x + 1) as real == StepMs(t) * x as real + StepMs(t);
    }
  }

  /** The append loop that fills hold_notes, run for `range(0, k + 1)`. */
  method BuildHoldSegments(ms: real, k: int, t: Timing) returns (segs: seq<HoldSegment>)
    requires ValidTiming(t)
    ensures segs == HoldLayout(ms, k, t)
  {
    segs := [];
    var x := 0;
    while x < k + 1
      invariant 0 <= x && (k >= 0 ==> x <= k + 1) && (k < 0 ==> x == 0)
      invariant |segs| == x
      invariant forall j :: 0 <= j < x ==> segs[j] == SegmentAt(ms, j, k, t)
    {
      var seg;
      if x == 0 {
        seg := HoldSegment(x, Root, ms, Beat(ms, t), true, None);
      } else if x == k {
        var m := ms + StepMs(t) * x as real;
        seg := HoldSegment(x, End, m, Beat(m, t), true, None);
      } else {
        var m := ms + StepMs(t) * x as real;
        seg := HoldSegment(x, Middle, m, Beat(m, t), true, None);
      }
      segs := segs + [seg];
      x := x + 1;
    }
  }

  /** hold_ms_in_steps = int(hold_ms / (sec_per_step * 1000)). */
  function HoldSteps(holdMs: real, t: Timing): (k: int)
    requires ValidTiming(t)
    ensures holdMs >= 0.0 ==> k >= 0 && k as real * StepMs(t) <= holdMs < (k + 1) as real * StepMs(t)
    ensures holdMs <= 0.0 ==> k <= 0
  {
    var k := Trunc(holdMs / StepMs(t));
    TruncBracket(holdMs, StepMs(t));
    k
  }

  /** int(y / d) for d > 0 counts the whole d's in y, and is not positive
      for y <= 0. */
  lemma TruncBracket(y: real, d: real)
    requires d > 0.0
    ensures y >= 0.0 ==> Trunc(y / d) >= 0 && Trunc(y / d) as real * d <= y < (Trunc(y / d) + 1) as real * d
    ensures y <= 0.0 ==> Trunc(y / d) <= 0
  {
    var q := y / d;
    var k := Trunc(q);
    assert q * d == y;
    QuotientSign(y, d, q);
    if y >= 0.0 {
      var lo := k as real;
      var hi := (k + 1) as real;
      assert lo <= q < hi;
      Bracket(q, d, y, lo, hi);
    }
  }

  lemma Bracket(q: real, d: real, y: real, lo: real, hi: real)
    requires d > 0.0 && q * d == y && lo <= q < hi
    ensures lo * d <= y < hi * d
  {
    MulMono(lo, q, d);
    MulStrict(q, hi, d);
  }

  lemma QuotientSign(y: real, d: real, q: real)
    requires d > 0.0 && q * d == y
    ensures y >= 0.0 ==> q >= 0.0
    ensures y <= 0.0 ==> q <= 0.0
  {
    if q > 0.0 {
      MulStrict(0.0, q, d);
    } else if q < 0.0 {
      MulStrict(q, 0.0, d);
    }
  }

  lemma MulMono(a: real, b: real, c: real)
    requires a <= b && c > 0.0
    ensures a * c <= b * c
  {
  }

  lemma MulStrict(a: real, b: real, c: real)
    requires a < b && c > 0.0
    ensures a * c < b * c
  {
  }

  /** A hold of k > 0 steps ends on the last whole step inside hold_ms: its
      end segment starts no later than ms + hold_ms and less than one step
      before it. */
  lemma HoldEndCoversLength(ms: real, holdMs: real, t: Timing)
    requires ValidTiming(t) && holdMs >= 0.0
    ensures var k := HoldSteps(holdMs, t);
      k > 0 ==> HoldLayout(ms, k, t)[k].ms <= ms + holdMs < HoldLayout(ms, k, t)[k].ms + StepMs(t)
  {
    var k := HoldSteps(holdMs, t);
    if k > 0 {
      assert HoldLayout(ms, k, t)[k] == SegmentAt(ms, k, k, t);
      assert StepMs(t) * k as real == k as real * StepMs(t);
      assert (k + 1) as real * StepMs(t) == k as real * StepMs(t) + StepMs(t);
    }
  }
}
