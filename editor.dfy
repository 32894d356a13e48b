/** code/main.py, chart_main: scrubbing the paused song with the mouse
    wheel. pause_time, the conductor's dt and sec_per_step are seconds, the
    song length is whole seconds, current_ms and every grid cell's cur_ms
    are milliseconds. */
module Editor {
  import opened PyCore
  import opened Chart
  import opened Classes
  import opened Game

  /** What one wheel event does to the paused song: every time moves by
      one step (`step` is +sec_per_step or -sec_per_step), the times clamp to
      the start, or nothing moves. */
  datatype Scrub = Shift(step: real) | Clamp | Stay

  /** The branch a wheel event takes, as written: a positive y scrolls
      forward while pause_time + sec_per_step stays within length * 1000;
      any other y scrolls back while pause_time - sec_per_step stays
      non-negative and clamps to 0 otherwise. */
  function WheelMove(pauseTime: real, secPerStep: real, length: int, up: bool): Scrub {
    if up then
      if pauseTime + secPerStep <= (length * 1000) as real then Shift(secPerStep) else Stay
    else if pauseTime - secPerStep >= 0.0 then Shift(-secPerStep)
    else Clamp
  }

  /** The same branch with the forward bound in seconds, the unit of
      pause_time and of the song length. */
  function WheelMoveFixed(pauseTime: real, secPerStep: real, length: int, up: bool): Scrub {
    if up then
      if pauseTime + secPerStep <= length as real then Shift(secPerStep) else Stay
    else if pauseTime - secPerStep >= 0.0 then Shift(-secPerStep)
    else Clamp
  }

  /** pause_time (and likewise the conductor's dt) after the move. The
      clamp sets pause_time to 0 and leaves the conductor alone. */
  function PauseAfter(pauseTime: real, m: Scrub): real {
    match m
    case Shift(d) => pauseTime + d
    case Clamp => 0.0
    case Stay => pauseTime
  }

  /** current_ms after the move: it is shifted by sec_per_step itself
      (seconds, not milliseconds) and clamped to 0 with pause_time. */
  function MsAfter(currentMs: real, m: Scrub): real {
    match m
    case Shift(d) => currentMs + d
    case Clamp => 0.0
    case Stay => currentMs
  }

  /** The conductor's dt after the move: only a shift changes it. */
  function DtAfter(dt: real, m: Scrub): real {
    match m
    case Shift(d) => dt + d
    case Clamp => dt
    case Stay => dt
  }

  /** A grid cell's cur_ms after the move: a shift moves it by the step in
      milliseconds, the clamp returns it to init_ms. */
  function CellAfter(curMs: real, initMs: real, m: Scrub): real {
    match m
    case Shift(d) => curMs + d * 1000.0
    case Clamp => initMs
    case Stay => curMs
  }

  /** Scrolling back never takes pause_time below 0, and from a
      non-negative pause_time no wheel event does. */
  lemma WheelKeepsPauseNonNegative(pauseTime: real, secPerStep: real, length: int, up: bool)
    requires pauseTime >= 0.0 && secPerStep > 0.0
    ensures PauseAfter(pauseTime, WheelMove(pauseTime, secPerStep, length, up)) >= 0.0
    ensures !up ==> PauseAfter(pauseTime, WheelMove(pauseTime, secPerStep, length, up)) <= pauseTime
    ensures !up && pauseTime > 0.0 ==> PauseAfter(pauseTime, WheelMove(pauseTime, secPerStep, length, up)) < pauseTime
  {
  }

  /** One step forward and one step back return pause_time, current_ms and
      the conductor's dt to where they were, and every cell to its cur_ms. */
  lemma WheelForwardThenBack(pauseTime: real, currentMs: real, dt: real, curMs: real, initMs: real,
                             secPerStep: real, length: int)
    requires pauseTime >= 0.0 && secPerStep > 0.0
    requires WheelMove(pauseTime, secPerStep, length, true).Shift?
    ensures var f := WheelMove(pauseTime, secPerStep, length, true);
      var b := WheelMove(PauseAfter(pauseTime, f), secPerStep, length, false);
      && b == Shift(-secPerStep)
      && PauseAfter(PauseAfter(pauseTime, f), b) == pauseTime
      && MsAfter(MsAfter(currentMs, f), b) == currentMs
      && DtAfter(DtAfter(dt, f), b) == dt
      && CellAfter(CellAfter(curMs, initMs, f), initMs, b) == curMs
  {
  }

  /** As written, pause_time can be scrolled past the end of the song:
      the bound allows a thousand times its length. */
  lemma WheelScrollsPastEnd()
    ensures WheelMove(10.0, 0.25, 10, true) == Shift(0.25)
    ensures PauseAfter(10.0, WheelMove(10.0, 0.25, 10, true)) > 10 as real
  {
  }

  /** With the bound in seconds, pause_time stays within the song: from
      [0, length] every wheel event lands in [0, length]. */
  lemma WheelFixedStaysInSong(pauseTime: real, secPerStep: real, length: int, up: bool)
    requires 0.0 <= pauseTime <= length as real && secPerStep > 0.0
    ensures 0.0 <= PauseAfter(pauseTime, WheelMoveFixed(pauseTime, secPerStep, length, up)) <= length as real
    ensures WheelMoveFixed(pauseTime, secPerStep, length, up) != Stay
      ==> WheelMoveFixed(pauseTime, secPerStep, length, up) == WheelMove(pauseTime, secPerStep, length, up)
  {
  }

  /** No cell of the grid appears twice. */
  ghost predicate DistinctCells(grid: seq<seq<ChartGrid>>) {
    forall x, y, x', y' ::
      0 <= x < |grid| && 0 <= y < |grid[x]| && 0 <= x' < |grid| && 0 <= y' < |grid[x']| && (x, y) != (x', y')
      ==> grid[x][y] != grid[x'][y']
  }

  /** `segment.cur_ms += d` for every cell, lane by lane. */
  method ShiftCells(grid: seq<seq<ChartGrid>>, d: real)
    requires DistinctCells(grid)
    modifies Cells(grid)
    ensures forall x, y :: 0 <= x < |grid| && 0 <= y < |grid[x]| ==> grid[x][y].curMs == old(grid[x][y].curMs) + d
  {
    var x := 0;
    while x < |grid|
      invariant 0 <= x <= |grid|
      invariant forall i, j :: 0 <= i < x && 0 <= j < |grid[i]| ==> grid[i][j].curMs == old(grid[i][j].curMs) + d
      invariant forall i, j :: x <= i < |grid| && 0 <= j < |grid[i]| ==> grid[i][j].curMs == old(grid[i][j].curMs)
    {
      var y := 0;
      while y < |grid[x]|
        invariant 0 <= y <= |grid[x]|
        invariant forall i, j :: 0 <= i < x && 0 <= j < |grid[i]| ==> grid[i][j].curMs == old(grid[i][j].curMs) + d
        invariant forall j :: 0 <= j < y ==> grid[x][j].curMs == old(grid[x][j].curMs) + d
        invariant forall j :: y <= j < |grid[x]| ==> grid[x][j].curMs == old(grid[x][j].curMs)
        invariant forall i, j :: x < i < |grid| && 0 <= j < |grid[i]| ==> grid[i][j].curMs == old(grid[i][j].curMs)
      {
        var segment := grid[x][y];
        segment.curMs := segment.curMs + d;
        y := y + 1;
      }
      x := x + 1;
    }
  }

  /** `segment.cur_ms = segment.init_ms` for every cell. */
  method ResetCells(grid: seq<seq<ChartGrid>>)
    modifies Cells(grid)
    ensures forall x, y :: 0 <= x < |grid| && 0 <= y < |grid[x]| ==> grid[x][y].curMs == grid[x][y].initMs
  {
    var x := 0;
    while x < |grid|
      invariant 0 <= x <= |grid|
      invariant forall i, j :: 0 <= i < x && 0 <= j < |grid[i]| ==> grid[i][j].curMs == grid[i][j].initMs
    {
      var y := 0;
      while y < |grid[x]|
        invariant 0 <= y <= |grid[x]|
        invariant forall i, j :: 0 <= i < x && 0 <= j < |grid[i]| ==> grid[i][j].curMs == grid[i][j].initMs
        invariant forall j :: 0 <= j < y ==> grid[x][j].curMs == grid[x][j].initMs
      {
        var segment := grid[x][y];
        segment.curMs := segment.initMs;
        y := y + 1;
      }
      x := x + 1;
    }
  }

  /** A MOUSEWHEEL event with vertical motion y. Without a song, or while
      it plays, nothing changes. Otherwise WheelMove picks the move, which
      is applied to pause_time, current_ms, the conductor's dt and every
      grid cell, and update_paused recomputes the song's position. The new
      current_ms is returned. */
  method Wheel(song: Song?, currentMs: real, y: int, grid: seq<seq<ChartGrid>>) returns (ms: real)
    requires song != null ==> song.Valid()
    requires DistinctCells(grid)
    modifies if song != null then {song, song.conductor} else {}, Cells(grid)
    ensures song == null || old(song.playing) ==>
      ms == currentMs && forall x, j :: 0 <= x < |grid| && 0 <= j < |grid[x]| ==> grid[x][j].curMs == old(grid[x][j].curMs)
    ensures song != null && old(song.playing) ==> unchanged(song) && unchanged(song.conductor)
    ensures song != null ==>
      && song.playing == old(song.playing) && song.finished == old(song.finished)
      && song.introPlaying == old(song.introPlaying)
      && song.conductor.clock == old(song.conductor.clock) && song.conductor.counting == old(song.conductor.counting)
    ensures song != null && !old(song.playing) ==>
      var m := WheelMove(old(song.pauseTime), song.secPerStep, song.length, y > 0);
      && song.Valid()
      && song.pauseTime == PauseAfter(old(song.pauseTime), m)
      && ms == MsAfter(currentMs, m)
      && song.conductor.dt == DtAfter(old(song.conductor.dt), m)
      && (forall x, j :: 0 <= x < |grid| && 0 <= j < |grid[x]| ==>
            grid[x][j].curMs == CellAfter(old(grid[x][j].curMs), grid[x][j].initMs, m))
      && song.posInBeats == Trunc(song.pauseTime / song.secPerBeat)
      && song.posInSteps == Trunc(song.pauseTime / song.secPerStep)
  {
    ms := currentMs;
    if song == null || song.playing {
      return;
    }
    var sps := song.secPerStep;
    if y > 0 {
      if song.pauseTime + sps <= (song.length * 1000) as real {
        song.pauseTime := song.pauseTime + sps;
        ms := ms + sps;
        song.conductor.dt := song.conductor.dt + sps;
        ShiftCells(grid, sps * 1000.0);
      }
    } else {
      if song.pauseTime - sps >= 0.0 {
        song.pauseTime := song.pauseTime - sps;
        ms := ms - sps;
        song.conductor.dt := song.conductor.dt - sps;
        ShiftCells(grid, -sps * 1000.0);
      } else {
        song.pauseTime := 0.0;
        ms := 0.0;
        ResetCells(grid);
      }
    }
    song.UpdatePaused();
  }
}
