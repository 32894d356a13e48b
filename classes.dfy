/** code/util/Classes.py: the Timer that every clock in the game is built
    on, the TextInput typing buffer, and the flags of a screen Transition.
    The wall clock (time.perf_counter) is the parameter `now`, in seconds. */
module Classes {
  import opened PyCore
  import opened Chart

  /** Every grid cell of the editor, lane by lane. */
  function Cells(grid: seq<seq<ChartGrid>>): (cells: set<ChartGrid>)
    ensures forall x, y :: 0 <= x < |grid| && 0 <= y < |grid[x]| ==> grid[x][y] in cells
  {
    set x, y | 0 <= x < |grid| && 0 <= y < |grid[x]| :: grid[x][y]
  }

  /** Timer: `clock` is the perf_counter reading the timer counts from
      (None when stopped), `dt` the last measured time in seconds. */
  class Timer {
    const id: int
    var counting: bool
    var clock: Option<real>
    var dt: real

    /** A counting timer always has a clock: start sets both, reset clears
        both, and pause leaves a clock in place whatever it sets counting to. */
    predicate Valid()
      reads this
    {
      counting ==> clock.Some?
    }

    /** A timer driven only by start and reset: counting exactly while it
        has a clock. */
    predicate Running()
      reads this
    {
      counting <==> clock.Some?
    }

    constructor (id: int)
      ensures this.id == id && !counting && clock == None && dt == 0.0
      ensures Valid() && Running()
    {
      this.id := id;
      counting := false;
      clock := None;
      dt := 0.0;
    }

    /** Timer.start(start_ms): refused while a clock exists; otherwise the
        clock is set start_ms seconds in the past and the timer counts. */
    method Start(startMs: real, now: real) returns (err: Option<PyError>)
      modifies this`clock, this`counting
      ensures old(clock).Some? ==> err == Some(TimerRunning) && clock == old(clock) && counting == old(counting)
      ensures old(clock).None? ==> err == None && clock == Some(now - startMs) && counting
      ensures Valid() && (old(clock).None? ==> Running())
      ensures old(Running()) ==> Running()
    {
      if clock.Some? {
        return Some(TimerRunning);
      }
      clock := Some(now - startMs);
      counting := true;
      err := None;
    }

    /** Timer.count(use_offset, grid): dt is the time since the clock, less
        the global offset (given in ms) when use_offset; every grid cell
        then shows dt plus its own distance from the judgement line, in ms.
        Without a clock the subtraction is a TypeError. */
    method Count(now: real, useOffset: bool, offset: real, grid: seq<seq<ChartGrid>>)
      returns (err: Option<PyError>)
      modifies this`dt, Cells(grid)
      ensures old(clock).None? ==>
        (err == Some(TypeError) && dt == old(dt) && forall c :: c in Cells(grid) ==> c.curMs == old(c.curMs))
      ensures old(clock).Some? ==>
        (&& err == None
         && dt == now - clock.value - (if useOffset then offset / 1000.0 else 0.0)
         && forall c :: c in Cells(grid) ==> c.curMs == dt * 1000.0 + c.mult * 1000.0)
    {
      if clock.None? {
        return Some(TypeError);
      }
      var d := if useOffset then now - clock.value - offset / 1000.0 else now - clock.value;
      dt := d;
      err := None;
      var x := 0;
      while x < |grid|
        invariant 0 <= x <= |grid|
        invariant dt == d && clock == old(clock)
        invariant forall i, j :: 0 <= i < x && 0 <= j < |grid[i]| ==>
          grid[i][j].curMs == dt * 1000.0 + grid[i][j].mult * 1000.0
      {
        var y := 0;
        while y < |grid[x]|
          invariant 0 <= y <= |grid[x]|
          invariant dt == d && clock == old(clock)
          invariant forall i, j :: 0 <= i < x && 0 <= j < |grid[i]| ==>
            grid[i][j].curMs == dt * 1000.0 + grid[i][j].mult * 1000.0
          invariant forall j :: 0 <= j < y ==> grid[x][j].curMs == dt * 1000.0 + grid[x][j].mult * 1000.0
        {
          var segment := grid[x][y];
          segment.curMs := dt * 1000.0 + segment.mult * 1000.0;
          y := y + 1;
        }
        x := x + 1;
      }
    }

    /** Timer.reset(set_zero): refused without a clock; otherwise dt is 0
        (set_zero) or the time since the clock, and the timer stops. */
    method Reset(setZero: bool, now: real) returns (err: Option<PyError>)
      requires Valid()
      modifies this`clock, this`counting, this`dt
      ensures old(clock).None? ==> err == Some(TimerNotRunning) && unchanged(this)
      ensures old(clock).Some? ==>
        (err == None && !counting && clock == None && dt == (if setZero then 0.0 else now - old(clock).value))
      ensures Valid() && (old(clock).Some? ==> Running())
      ensures old(Running()) ==> Running()
    {
      if clock.None? {
        return Some(TimerNotRunning);
      }
      if setZero {
        dt := 0.0;
      } else {
        dt := now - clock.value;
      }
      counting := false;
      clock := None;
      err := None;
    }

    /** Timer.pause(pause): counting takes the argument; a clock is set to
        now only when there was none. */
    method Pause(pause: bool, now: real)
      modifies this`clock, this`counting
      ensures counting == pause
      ensures clock == if old(clock).None? then Some(now) else old(clock)
      ensures Valid()
    {
      counting := pause;
      if clock.None? {
        clock := Some(now);
      }
    }
  }

  /** A timer started `startMs` seconds in at `now0` and counted at `now1`
      measures now1 - now0 + startMs, whatever grid it updates. */
  method ElapsedAfterStart(startMs: real, now0: real, now1: real) returns (dt: real)
    ensures dt == now1 - now0 + startMs
  {
    var timer := new Timer(0);
    var e := timer.Start(startMs, now0);
    e := timer.Count(now1, false, 0.0, []);
    dt := timer.dt;
  }

  /** Starting a timer twice without a reset is refused the second time,
      and the first clock stays. */
  method StartTwiceRefused(now0: real, now1: real) returns (err: Option<PyError>, clock: Option<real>)
    ensures err == Some(TimerRunning) && clock == Some(now0)
  {
    var timer := new Timer(0);
    var e := timer.Start(0.0, now0);
    err := timer.Start(0.0, now1);
    clock := timer.clock;
  }

  // ---------------------------------------------------------------------
  // TextInput
  // ---------------------------------------------------------------------

  /** Longest text the keyboard can grow a TextInput to. */
  const MaxTextLength: nat := 24

  /** The events TextInput.update reacts to: a mouse button pressed, a key
      pressed (its pygame name and the text it types), or anything else. */
  datatype InputEvent = MouseDown(button: int) | KeyDown(name: string, unicode: string) | OtherInput

  /** A key acts only while typing, and then only if one more character
      would fit or it is backspace or return. */
  predicate KeyAccepted(text: string, typing: bool, name: string)
  {
    typing && (|text| + 1 <= MaxTextLength || name == "backspace" || name == "return")
  }

  /** One event: a left click starts typing when the pointer is on the box
      and stops it otherwise; an accepted key ends typing (return), drops
      the last character (backspace), leaves the text (either shift) or
      appends what the key types. */
  function TypeStep(text: string, typing: bool, ev: InputEvent, hovering: bool): (string, bool)
  {
    match ev
    case MouseDown(b) => if b == 1 then (text, hovering) else (text, typing)
    case KeyDown(name, unicode) =>
      if !KeyAccepted(text, typing, name) then (text, typing)
      else if name == "return" then (text, false)
      else if name == "backspace" then (DropLast(text), typing)
      else if name == "left shift" || name == "right shift" then (text, typing)
      else (text + unicode, typing)
    case OtherInput => (text, typing)
  }

  /** Return ends typing whatever the length of the text, and leaves the
      text as it is; a key other than backspace or return does nothing once
      the box is full. */
  lemma ReturnEndsTyping(text: string, typing: bool, ev: InputEvent, hovering: bool)
    ensures typing && ev.KeyDown? && ev.name == "return" ==> TypeStep(text, typing, ev, hovering) == (text, false)
    ensures ev.KeyDown? && ev.name != "return" && ev.name != "backspace" && |text| >= MaxTextLength
            ==> TypeStep(text, typing, ev, hovering) == (text, typing)
  {
  }

  /** The event loop of TextInput.update. */
  function TypeEvents(text: string, typing: bool, events: seq<InputEvent>, hovering: bool): (string, bool)
    decreases |events|
  {
    if events == [] then (text, typing)
    else
      var (t1, y1) := TypeStep(text, typing, events[0], hovering);
      TypeEvents(t1, y1, events[1..], hovering)
  }

  /** Keys that type at most one character never take the text past 24
      characters. */
  lemma {:induction false} TypingStaysWithinLimit(text: string, typing: bool, events: seq<InputEvent>, hovering: bool)
    requires |text| <= MaxTextLength
    requires forall i :: 0 <= i < |events| && events[i].KeyDown? ==> |events[i].unicode| <= 1
    ensures |TypeEvents(text, typing, events, hovering).0| <= MaxTextLength
    decreases |events|
  {
    if events != [] {
      var (t1, y1) := TypeStep(text, typing, events[0], hovering);
      assert |t1| <= MaxTextLength;
      TypingStaysWithinLimit(t1, y1, events[1..], hovering);
    }
  }

  /** Without typing and without a left click, no event changes the text. */
  lemma {:induction false} NotTypingKeepsText(text: string, events: seq<InputEvent>, hovering: bool)
    requires forall i :: 0 <= i < |events| ==> events[i] != MouseDown(1)
    ensures TypeEvents(text, false, events, hovering) == (text, false)
    decreases |events|
  {
    if events != [] {
      NotTypingKeepsText(text, events[1..], hovering);
    }
  }

  /** TextInput: the text typed so far (saved_var) and whether the box is
      taking keys. */
  class TextInput {
    var savedVar: string
    var typing: bool
    var hovering: bool

    constructor (initText: string)
      ensures savedVar == initText && !typing && !hovering
    {
      savedVar := initText;
      typing := false;
      hovering := false;
    }

    /** TextInput.update: `hovering` is whether the pointer is on the box
        this frame; the events are handled in order. */
    method Update(events: seq<InputEvent>, hovering: bool)
      modifies this
      ensures this.hovering == hovering
      ensures (savedVar, typing) == TypeEvents(old(savedVar), old(typing), events, hovering)
    {
      this.hovering := hovering;
      var i := 0;
      while i < |events|
        invariant 0 <= i <= |events| && this.hovering == hovering
        invariant TypeEvents(old(savedVar), old(typing), events, hovering)
               == TypeEvents(savedVar, typing, events[i..], hovering)
      {
        assert events[i..][0] == events[i] && events[i..][1..] == events[i + 1..];
        match events[i] {
          case MouseDown(b) =>
            if b == 1 {
              typing := hovering;
            }
          case KeyDown(name, unicode) =>
            if (typing && |savedVar| + 1 <= MaxTextLength) || (typing && name == "backspace") || (typing && name == "return") {
              if name == "return" {
                typing := false;
              } else if name == "backspace" {
                savedVar := DropLast(savedVar);
              } else if name == "left shift" || name == "right shift" {
                savedVar := savedVar;
              } else {
                savedVar := savedVar + unicode;
              }
            }
          case OtherInput =>
        }
        i := i + 1;
      }
      assert events[i..] == [];
    }
  }

  // ---------------------------------------------------------------------
  // Transition
  // ---------------------------------------------------------------------

  /** Transition: a screen wipe of `length` seconds. `halfway` is set when
      the screen is covered (the next scene starts), `finished` at the end. */
  class Transition {
    const length: real
    const timer: Timer
    var started: bool
    var transitioning: bool
    var halfway: bool
    var finished: bool
    var playMenuMusic: bool
    var playTransitionSound: bool

    /** The transition's timer is driven only by start and reset. */
    predicate Valid()
      reads this, timer
    {
      timer.Running()
    }

    /** The flags as the constructor and reset leave them. */
    predicate AtRest()
      reads this
    {
      !started && !transitioning && !halfway && !finished && !playMenuMusic && playTransitionSound
    }

    constructor (length: real)
      ensures this.length == length && AtRest() && Valid() && fresh(timer)
      ensures !timer.counting
    {
      this.length := length;
      timer := new Timer(0);
      started := false;
      transitioning := false;
      halfway := false;
      finished := false;
      playMenuMusic := false;
      playTransitionSound := true;
    }

    /** Transition.start: marks the transition started and running and
        restarts its timer from 0. */
    method Start(now: real)
      requires Valid()
      modifies this`started, this`transitioning, timer`clock, timer`counting, timer`dt
      ensures Valid() && started && transitioning
      ensures timer.counting && timer.clock == Some(now)
      ensures halfway == old(halfway) && finished == old(finished)
    {
      started := true;
      transitioning := true;
      if timer.counting {
        var e := timer.Reset(false, now);
      }
      var e := timer.Start(0.0, now);
    }

    /** Transition.finish: the halfway point. */
    method Finish()
      modifies this`halfway, this`started
      ensures halfway && !started
    {
      halfway := true;
      started := false;
    }

    /** Transition.update: counts the timer (a TypeError when it was never
        started), then at whole second int(length / 2) calls finish, and
        otherwise at whole second `length` ends the transition. */
    method Update(now: real) returns (err: Option<PyError>)
      requires Valid()
      modifies this`halfway, this`started, this`transitioning, this`finished, timer`dt
      ensures Valid()
      ensures old(timer.clock).None? ==> err == Some(TypeError) && unchanged(this) && timer.dt == old(timer.dt)
      ensures old(timer.clock).Some? ==> err == None && timer.dt == now - timer.clock.value
      ensures old(timer.clock).Some? && Trunc(timer.dt) == Trunc(length / 2.0) ==>
        halfway && !started && transitioning == old(transitioning) && finished == old(finished)
      ensures old(timer.clock).Some? && Trunc(timer.dt) != Trunc(length / 2.0) && Trunc(timer.dt) as real == length ==>
        !transitioning && finished && halfway == old(halfway) && started == old(started)
      ensures old(timer.clock).Some? && Trunc(timer.dt) != Trunc(length / 2.0) && Trunc(timer.dt) as real != length ==>
        unchanged(this)
    {
      err := timer.Count(now, false, 0.0, []);
      if err.Some? {
        return;
      }
      if Trunc(timer.dt) == Trunc(length / 2.0) {
        Finish();
      } else if Trunc(timer.dt) as real == length {
        transitioning := false;
        finished := true;
      }
    }

    /** Transition.reset: every flag back to its initial value and the
        timer stopped. */
    method Reset(now: real)
      requires Valid()
      modifies this`started, this`finished, this`transitioning, this`halfway,
               this`playMenuMusic, this`playTransitionSound, timer`clock, timer`counting, timer`dt
      ensures AtRest() && Valid() && !timer.counting
    {
      started := false;
      finished := false;
      transitioning := false;
      halfway := false;
      playMenuMusic := false;
      playTransitionSound := true;
      if timer.counting {
        var e := timer.Reset(false, now);
      }
    }
  }

  /** A transition of 2 seconds started at time 0 reaches its halfway point
      one second in and finishes two seconds in. */
  method TransitionRunsThrough() returns (halfwayAt1: bool, finishedAt2: bool)
    ensures halfwayAt1 && finishedAt2
  {
    var tr := new Transition(2.0);
    tr.Start(0.0);
    var e := tr.Update(1.5);
    halfwayAt1 := tr.halfway;
    e := tr.Update(2.5);
    finishedAt2 := tr.finished;
  }
}
