# Py-Mania core in Dafny

Py-Mania is a pygame rhythm game. Notes fall towards receptors, one per key
lane, and the player presses the lane's key as a note crosses the judgement
line. This project models the parts of the game that decide what happens,
with time, input events and file contents passed in as parameters:

- **Judgement and scoring.** `calc_note_data` ranks a hit by its timing
  delta against the bands 50, 100, 116.67 and 133.3 ms. It counts the rank
  in a five-slot counter array and recomputes the osu!mania-style accuracy.
  This is `Game.Rank`, `Game.Accuracy` and `Game.CalcNoteData`.
- **Note timing.** The approach fraction `calc` is shared by the four note
  classes, and each class has its own kill threshold. The hold-segment list
  is root, middles, end, one step apart (`Approach`, `Game`, `Chart`).
- **The song conductor.** `Song.start`, `update`, `update_paused` and `pause`
  run over its `Timer` (`Game.Song`).
- **The gameplay input state machine of `gameplay_main`.** It covers:
  - the hittable set (the current note, a chord partner within 250 ms, and
    the "falling behind" safety net);
  - the asymmetric hit window (-133.33, 250);
  - the tap/hold split, and hold release against `hold_ms - 100`;
  - passive misses, and the `cur_note` advance;
  - the per-lane hold timers and the pause key.

  `Gameplay.Session` is a class over the same fields. Each of its methods is
  proved against a step function on the value `Gameplay.Play`, and the
  lemmas about those functions carry the judgement properties.
- **The chart editor.**
  - The `q`/`e` hold edits, selection and deletion (`Chart.ChartNote`).
  - Adding a note from the grid (`Chart.ChartGrid`).
  - `save_json`, which sorts the notes by time and writes one record per
    note (`Chart.SaveJson`).
  - Mouse-wheel scrubbing of the paused song (`Editor`).
- **The chart load transform** shared by the editor and the game
  (`ChartFile`).
- **Menu widgets.**
  - `Timer`, `TextInput` (the 24-character box) and `Transition`
    (`Classes`).
  - The option rows of the options menu: numeric typing, the bool toggle,
    the colour picker and keybind slots (`Options.MenuOption`).
  - The song-list widget that parses a `.txt` list and toggles open
    (`ListMenu`).
- **Helpers**: `compare_from_range` and `is_dark` (`Util`).

The model uses Python's semantics throughout:
- `PyCore` holds `int()` truncation, `round(x, 2)`, substring `in`,
  `str.split` and `s[:-1]`.
- Python exceptions are values of `PyError` inside a `Result`. A member
  whose source can raise returns the error rather than requiring it away.
- Times are `real`.

The source's quirks are kept as written:
- A delta past 133.3 ms is ranked Bad, never Miss.
- Adding a note from the grid subtracts the global offset twice
  (`Chart.ChartGrid.PlacedMs`).
- A second `Song.pause(False)` raises (`Game.PauseTwiceRaises`).
- A `for` loop over `cur_hit_notes` that removes the note it is visiting
  skips the next one. Every judgement loop is modelled with an index that
  always advances.

## Model

| member | source | states |
|---|---|---|
| Util.CompareFromRange | code/util/Util.py:40-46 | true exactly when value lies in [init - range, init + range], both ends inclusive |
| Util.CompareFromRangeSymmetric | code/util/Util.py:40-46 | swapping init and value never changes the answer |
| Util.CompareFromRangeNegative | code/util/Util.py:40-46 | a negative range matches no value |
| Util.IsDark | code/util/Util.py:22-36 | a colour that is not exactly [r, g, b, a] raises ValueError at the unpacking; every four-component colour gets a verdict |
| Util.IsDarkMatchesSqrt | code/util/Util.py:22-36 | comparing 0.299r²+0.587g²+0.114b² with 127.5² gives exactly the verdict of the square-root HSP test `not hsp > 127.5` |
| Util.BlackIsDarkWhiteIsNot | code/util/Util.py:22-36 | black is dark and full white is not, for any alpha |
| Approach.RunCalc | code/util/Game.py:256-259 | run_calc raises ZeroDivisionError exactly when the scroll speed is 0, and is Calc for a valid timing |
| Approach.CalcClosedForm | code/util/Game.py:256-263 | the approach fraction of a note at ms is 0.87 + (dt - ms/1000) / (sec_per_beat · beats_shown) |
| Approach.CalcAtJudgementLine | code/util/Game.py:256-263 | calc is 0.87 exactly when the song time dt·1000 equals the note's ms |
| Approach.CalcStrictlyIncreasing | code/util/Game.py:256-263 | calc strictly increases with song time |
| Approach.KindAt | code/util/Game.py:203-215 | segment 0 and only segment 0 is the root; an end segment is the last, never the first |
| Approach.HoldLayout | code/util/Game.py:200-215 | a hold of k steps has k+1 segments, none for k < 0 |
| Approach.HoldLayoutShape | code/util/Game.py:200-215 | root at the note's ms, middles, end at index k, each one step (sec_per_step·1000 ms) after the previous, all alive with no fraction yet |
| Approach.BuildHoldSegments | code/util/Game.py:200-215 | the append loop builds exactly the layout of HoldLayout |
| Approach.HoldSteps | code/util/Game.py:201 | int(hold_ms / step_ms) is the whole number of steps that fit in the hold, never negative for a non-negative hold |
| Approach.HoldEndCoversLength | code/util/Game.py:200-215 | the end segment lies within one step before the true end of the hold |
| Game.Rank | code/util/Game.py:528-547 | no delta is Miss (4); a delta gets the first band whose inclusive range holds its absolute value, and anything past 133.3 stays Bad (3) |
| Game.BandFrom | code/util/Game.py:531-544 | the band search stops at the first band holding the value, never past Bad |
| Game.RankIndex | code/util/Game.py:531-547 | the loop with its `break` and capped increment computes Rank |
| Game.RankMonotone | code/util/Game.py:531-544 | a smaller absolute delta never gets a worse rank |
| Game.BandMonotone | code/util/Game.py:531-544 | the band search is monotone in the value searched |
| Game.JudgeCountsOnce | code/util/Game.py:551-554 | a hit adds exactly one to exactly one of counters 0..3 and leaves the miss counter; a miss (None) changes no counter |
| Game.Accuracy | code/util/Game.py:566-568 | the accuracy formula raises ZeroDivisionError exactly when n plus all counters is 0 |
| Game.AccuracyBounds | code/util/Game.py:566-568 | with n > 0 and non-negative counters the accuracy lies in (0, 1], and is 1 exactly when counters 1..4 are all 0 |
| Game.AccuracyExample | code/util/Game.py:566-568 | 10 notes with counters [5, 3, 0, 0, 2] score 0.85 |
| Game.CalcNoteData | code/util/Game.py:510-579 | returns Rank of the delta, increments that counter in the array in place (none for a miss), and returns the accuracy of the new counters |
| Game.NewNote | code/util/Game.py:163-222 | a new note is alive, not hit, not holding, with its beat from ms and its hold segments built only for a hold of more than 0 steps |
| Game.HeldSegmentConsumedOnTime | code/util/Game.py:330-367 | a live segment of a held note is consumed exactly when the song passes its ms |
| Game.ConsumedSegmentStays | code/util/Game.py:330-338 | a consumed segment never comes back |
| Game.NoteTick | code/util/Game.py:236-254 | an update keeps the number of hold segments |
| Game.TickedNoteHasFraction | code/util/Game.py:236-259 | a live note's update sets its fraction from the current song time and never changes root_alive |
| Game.UpdateNote | code/util/Game.py:236-254 | the segment loop of Note.update computes NoteTick |
| Game.NoteRunKill | code/util/Game.py:272-280 | run_kill raises TypeError exactly when a live root has no fraction yet |
| Game.RunKillFiresOnce | code/util/Game.py:272-280 | run_kill fires only on a live root past 1, clears root_alive, and never fires again on the result |
| Game.RunKillOnlyDropsRoot | code/util/Game.py:272-280 | run_kill changes nothing but root_alive, and clears it exactly when it fires |
| Game.MissAfterWindow | code/util/Game.py:256-280 | a note is missed exactly when the song is more than 0.13 · sec_per_beat · beats_shown seconds past its time |
| Game.Song.Timing | code/util/Game.py:390-439 | a step is a quarter of a beat, and the timing is positive |
| Game.Song.constructor | code/util/Game.py:390-439 | a new song is stopped, at 0, with the intro flag set and a fresh stopped conductor |
| Game.Song.Start | code/util/Game.py:441-460 | resuming a paused song restarts the conductor's clock only when absent; a first start sets the clock from the reference time, and a running clock raises |
| Game.Song.Update | code/util/Game.py:462-478 | while playing, dt and the beat and step positions follow the clock and every grid cell shows dt·1000 + mult·1000; a stopped song or one without a clock (TypeError) leaves the cells as they were; the song finishes at its length; the intro ends on beat 0 and then starts the song |
| Game.Song.UpdatePaused | code/util/Game.py:480-483 | the paused beat and step positions follow pause_time, and the step count is four per beat |
| Game.Song.Pause | code/util/Game.py:485-505 | pausing stores pause_time from the conductor and stops it, or raises without a clock and changes neither pause_time nor the conductor; resuming restarts the conductor at pause_time |
| Game.PauseTwiceRaises | code/util/Game.py:485-498 | a second consecutive pause(False) raises, because the conductor has no clock |
| Game.PauseResumeContinues | code/util/Game.py:485-505 | pause then resume continues the song time from where it stopped |
| Game.StepsAndBeatsAgree | code/util/Game.py:480-483 | int(4x) // 4 == int(x) for x ≥ 0, so paused steps and beats agree |
| Chart.ChartNoteVisibleWindow | code/util/Chart.py:316-332 | an editor note is shown exactly when the song time is within [-0.77, 0.01] approach lengths of its time, the fraction band [0.1, 0.88] |
| Chart.ChartHoldRunKill | code/util/Chart.py:379-387 | an editor hold segment is hidden exactly when its fraction passes 0.87; no fraction yet raises |
| Chart.ChartHoldConsumedStays | code/util/Chart.py:379-387 | once past 0.87 a segment stays hidden while the song moves forward |
| Chart.RecalcHold | code/util/Chart.py:293-297 | each frame a segment gets the fraction of the current time and its visibility from it, nothing else |
| Chart.EditStepHold | code/util/Chart.py:243-289 | one event changes the hold by at most one step, in both the step count and the ms, also when the rebuild then raises |
| Chart.EditStepFails | code/util/Chart.py:240-289 | an event raises ValueError exactly on a right release over a note gone from the list, changing nothing, and AttributeError exactly on `q`/`e` of a selected note whose lane has no receptor and whose new count is ≥ 0; nothing else raises |
| Chart.EditStepKeepsRemainder | code/util/Chart.py:243-289 | an edit keeps hold_ms - steps · step_ms |
| Chart.EditsKeepHoldRemainder | code/util/Chart.py:219-289 | any sequence of edits keeps hold_ms - steps · step_ms |
| Chart.EditsKeepStepsNonNegative | code/util/Chart.py:246-251 | `q` never takes the step count below 0 |
| Chart.UnselectedNoteKeepsHold | code/util/Chart.py:221-245 | without a left click an unselected note stays unselected, its hold unchanged, and no AttributeError is raised |
| Chart.ChartNote.constructor | code/util/Chart.py:143-198 | a new editor note has its beat from ms, its step count from hold_ms, and segments only for a positive count |
| Chart.ChartNote.RebuildHolds | code/util/Chart.py:253-267 | hold_notes is rebuilt as the layout for the step count, or AttributeError leaves it empty exactly when the lane has no receptor and the count is ≥ 0 |
| Chart.ChartNote.ShortenHold | code/util/Chart.py:246-267 | `q` removes one step only when the count stays ≥ 0; the layout is rebuilt for the count, or, for a lane without a receptor and a count ≥ 0, AttributeError leaves the new count and no segments |
| Chart.ChartNote.LengthenHold | code/util/Chart.py:269-289 | `e` adds one step to the count and the ms; the layout is rebuilt, or, for a lane without a receptor, AttributeError leaves the new count and no segments |
| Chart.ChartNote.HandleEvent | code/util/Chart.py:219-289 | one event handled in place agrees with the edit step, its error included: select, deselect, delete from the list (ValueError when absent), or an edit; the layout is rebuilt exactly on `q`/`e` of a selected note, and emptied when that raises |
| Chart.ChartNote.Update | code/util/Chart.py:210-305 | root_alive is the negation of run_kill; the events are applied in order until one raises; the segments are rebuilt from the layout or kept, then recalculated, and are left empty by an AttributeError |
| Chart.ChartGrid.constructor | code/util/Chart.py:48-71 | a cell stores its lane and multiplier; its time and its initial time are both round(ms·1000, 2), which lies within 0.005 of ms·1000 |
| Chart.ChartGrid.PlacedMs | code/util/Chart.py:121-132 | the new note's ms is the cell's time less twice the global offset |
| Chart.ChartGrid.Click | code/util/Chart.py:104-132 | a left click on the cell with a song loaded and no note under the pointer appends a fresh note with id len(note_list), the cell's lane and no hold; otherwise the list is unchanged |
| Chart.InsertByMs | code/util/Chart.py:443 | insertion keeps every note and adds one |
| Chart.SortByMs | code/util/Chart.py:443 | sorting by ms is a permutation |
| Chart.InsertByMsSorted | code/util/Chart.py:443 | inserting into a sorted list keeps it sorted by ms |
| Chart.SortByMsSorted | code/util/Chart.py:443 | the sorted list is ascending by ms |
| Chart.InsertByMsWithMs | code/util/Chart.py:443 | an inserted note goes ahead of every note with the same ms and keeps their order |
| Chart.SortByMsStable | code/util/Chart.py:443 | the sort is stable as Python's sorted is: the notes of any one ms come out in the order they went in |
| Chart.RecordOf | code/util/Chart.py:466-476 | a record holds the position x as id, the lane, ms plus the offset, the hold, the texture and the type, in that order |
| Chart.SaveJson | code/util/Chart.py:435-496 | no file is opened for no notes; one note raises UnboundLocalError after the file was emptied and given only its opening brace and offset line; otherwise the offset and one record per sorted note, the last taking the hold of the one before |
| Chart.SaveJsonFixed | code/util/Chart.py:435-496 | corrected writer: every sorted note's record has its own hold |
| Chart.SavedRecordsAscending | code/util/Chart.py:443-476 | the saved keys are exactly 0..n-1, each record's id is its key, and times ascend with the key |
| Chart.LastRecordTakesPreviousHold | code/util/Chart.py:480-489 | two notes, the later one held 500 ms, are written with hold 0 for the later one |
| ChartFile.LoadNote | code/main.py:718-722 | a record loads as a note at its time less the offset with quotes removed from the texture, and fails exactly when the record or the offset is missing, the lane has no spawn position (outside -8..7), or a note with hold segments has no receptor (lane outside 0..7); a missing record is KeyError in the editor and TypeError in the game, a missing offset KeyError, a bad spawn lane IndexError (the editor checks it before the offset, the game after), a missing receptor AttributeError |
| ChartFile.BadLaneFails | code/main.py:718-722 | with the offset present, a lane outside -8..7 fails both loaders with IndexError, and a negative lane with a hold of at least one step with AttributeError |
| ChartFile.LoadPrefix | code/main.py:1504-1506 | a load of k records yields k notes |
| ChartFile.LoadPrefixSpec | code/main.py:1504-1506 | a load succeeds exactly when each of records 0..k-1 loads, and note x is record x |
| ChartFile.LoadChart | code/main.py:718-722 | the load loop over range(len - 1) computes LoadPrefix of the key count less one |
| ChartFile.SaveThenLoad | code/main.py:1504-1506 | loading a chart the corrected writer saved gives back the notes sorted by ms, each with its position as id |
| ChartFile.ErrorPersists | code/main.py:1504-1506 | once a record fails, a longer load fails the same way |
| ChartFile.MissingRecordErrors | code/main.py:718-722 | a missing record before the end makes the editor raise KeyError and the game TypeError |
| ChartFile.PrefixStopsAt | code/main.py:1504-1506 | the load fails with the error of the first record that does not load |
| Classes.Cells | code/util/Classes.py:111-115 | the footprint holds every grid cell |
| Classes.Timer.constructor | code/util/Classes.py:83-91 | a new timer is stopped with no clock and dt 0 |
| Classes.Timer.Start | code/util/Classes.py:93-101 | start raises when a clock exists and changes nothing; otherwise the clock is now - start_ms and the timer counts |
| Classes.Timer.Count | code/util/Classes.py:103-115 | dt is now - clock, less offset/1000 when asked, and every grid cell's time is dt·1000 + mult·1000; no clock raises TypeError and changes nothing |
| Classes.Timer.Reset | code/util/Classes.py:117-130 | reset raises when there is no clock; otherwise it stops, clears the clock and sets dt to 0 or the elapsed time |
| Classes.Timer.Pause | code/util/Classes.py:132-137 | counting becomes the argument, and the clock is set to now only when absent |
| Classes.ElapsedAfterStart | code/util/Classes.py:93-108 | start then count measures now1 - now0 + start_ms |
| Classes.StartTwiceRefused | code/util/Classes.py:93-101 | a second start raises and keeps the first clock |
| Classes.TypingStaysWithinLimit | code/util/Classes.py:288-309 | keys that type at most one character never take the text past 24 characters |
| Classes.NotTypingKeepsText | code/util/Classes.py:276-309 | without a left click, a box that is not typing never changes its text |
| Classes.ReturnEndsTyping | code/util/Classes.py:289-309 | return ends typing and keeps the text whatever its length; once 24 characters are held, only backspace and return act |
| Classes.TextInput.constructor | code/util/Classes.py:228-251 | a new box holds its initial text and is not typing |
| Classes.TextInput.Update | code/util/Classes.py:258-309 | the box's text and typing flag after the event loop are those of the event-by-event rules |
| Classes.Transition.constructor | code/util/Classes.py:329-351 | a new transition is at rest with a stopped timer |
| Classes.Transition.Start | code/util/Classes.py:353-367 | start marks the transition started and running and starts its timer now |
| Classes.Transition.Finish | code/util/Classes.py:369-384 | finish sets halfway and clears started |
| Classes.Transition.Update | code/util/Classes.py:386-398 | at int(dt) = int(length/2) the transition reaches halfway; at int(dt) = length it finishes and stops; otherwise nothing changes; no clock raises |
| Classes.Transition.Reset | code/util/Classes.py:400-413 | reset returns every flag to rest and stops the timer |
| Classes.TransitionRunsThrough | code/util/Classes.py:353-398 | a 2-second transition is halfway after 1 s and finished after 2 s |
| Editor.WheelKeepsPauseNonNegative | code/main.py:933-949 | scrubbing never takes pause_time below 0, and scrolling back always moves it back when above 0 |
| Editor.WheelForwardThenBack | code/main.py:917-951 | a forward step followed by a back step restores pause_time, current_ms, dt and every cell's time |
| Editor.WheelScrollsPastEnd | code/main.py:920 | with the bound written as length·1000, a 10-second song scrolls forward past 10 s |
| Editor.WheelFixedStaysInSong | code/main.py:917-951 | corrected bound: pause_time stays within [0, length]; where it moves it agrees with the original |
| Editor.ShiftCells | code/main.py:926-929 | every grid cell's time moves by the same amount |
| Editor.ResetCells | code/main.py:946-949 | every grid cell returns to its initial time |
| Editor.Wheel | code/main.py:910-954 | a wheel event on a paused song moves pause_time, current_ms, dt and all cells by one step, or clamps to 0, then recomputes the paused positions; playing, finished, the intro flag and the conductor's clock stay; a playing or absent song, its conductor and the cells are untouched |
| Gameplay.RemoveAll | code/main.py:1789-1790 | removing every copy leaves exactly the other notes |
| Gameplay.RemoveEvery | code/main.py:1789-1790 | the `while count > 0: remove` loop computes RemoveAll |
| Gameplay.HittableBound | code/main.py:1610-1618 | a duplicate-free set of note keys is never longer than the chart |
| Gameplay.Score | code/util/Game.py:510-579 | scoring counts the rank of the delta and stores the accuracy of the new counters, and keeps the invariant |
| Gameplay.Miss | code/main.py:1742-1743 | a miss adds one to the miss counter only |
| Gameplay.Advance | code/main.py:1696-1697 | cur_note advances by one but never past the last note |
| Gameplay.KillHolds | code/main.py:1736-1737 | every segment is killed and nothing else changes |
| Gameplay.Refresh | code/main.py:1610-1618 | refreshing the hittable set keeps the invariant; an empty chart raises AttributeError |
| Gameplay.RefreshAdds | code/main.py:1610-1618 | the set keeps its notes; it gains the current note exactly when that is not hit, and the next note exactly when it is within 250 ms of an unhit current note; a hit current note leaves the set as it was |
| Gameplay.TapFields | code/main.py:1655-1697 | a judged tap marks the note hit, leaves the set, advances cur_note, counts the rank and stores the accuracy |
| Gameplay.Tap | code/main.py:1655-1697 | a judged tap keeps the invariant and the chart |
| Gameplay.KeyDownStep | code/main.py:1646-1702 | judging one hittable note keeps the invariant and the chart |
| Gameplay.KeyDownFrom | code/main.py:1646-1702 | the pass over the hittable set keeps the invariant and the chart |
| Gameplay.KeyPressFrom | code/main.py:1628-1702 | the lane loop of a key press keeps the invariant, the chart and the lane count; its only error is IndexError from a keybind list shorter than the lanes |
| Gameplay.KeyUpStep | code/main.py:1729-1790 | releasing one hittable note keeps the invariant; its only error is UnboundLocalError |
| Gameplay.KeyUpFrom | code/main.py:1729-1790 | the pass over the hittable set keeps the invariant; its only error is UnboundLocalError |
| Gameplay.KeyReleaseFrom | code/main.py:1710-1798 | the lane loop of a key release keeps the invariant, the chart and the lane count; its errors are IndexError and UnboundLocalError |
| Gameplay.TickStep | code/main.py:1866-1899 | one note's passive check keeps the invariant and the chart |
| Gameplay.TickFrom | code/main.py:1862-1899 | the passive pass keeps the invariant and the chart |
| Gameplay.SafetyNet | code/main.py:1700-1702 | the safety net adds only the next note, when it exists and is absent |
| Gameplay.KeyDownJudges | code/main.py:1646-1702 | a key-down changes only lane-x notes inside the strict window; a tap leaves the set with cur_note past it, a hold stays and starts the lane timer; the set gains only notes past cur_note; no miss is counted |
| Gameplay.KeyUpReleases | code/main.py:1729-1790 | a key-up fails only when a hold is scored before any key-down set accuracy_ms; a released hold of lane x leaves the set, stops holding and loses its segments; cur_note stays |
| Gameplay.ScoreRelease | code/main.py:1734-1784 | releasing before hold_ms - 100 kills the note's segments and adds exactly one miss; otherwise it raises exactly when no key-down delta was recorded, and else counts the rank of that delta; the accuracy is recomputed from the counters either way |
| Gameplay.TickStepFacts | code/main.py:1862-1899 | one note's passive check counts one miss exactly when its root is knocked down, kills its segments and advances cur_note within bounds |
| Gameplay.TickCountsMisses | code/main.py:1862-1899 | the passive pass adds exactly one miss per note it knocks down, advances cur_note by as many within bounds, and leaves the hittable set |
| Gameplay.KeyName | code/main.py:1633 | the key name has no quote or square bracket left |
| Gameplay.UnboundKeyPressIgnored | code/main.py:1631-1637 | a key bound to no lane, or a press while paused, changes nothing |
| Gameplay.PausedReleaseIgnored | code/main.py:1714-1718 | a release while paused changes nothing |
| Gameplay.ReleaseStopsTimers | code/main.py:1795-1798 | a release stops only the running timer of a lane bound to the key, with dt set to 0 |
| Gameplay.PressStartsTimers | code/main.py:1684-1693 | a press starts only a stopped timer of a lane bound to the key, and only while input is allowed |
| Gameplay.CountLanes | code/main.py:1587-1593 | each counting lane timer measures now - clock, the rest stay |
| Gameplay.HeldLaneMeasures | code/main.py:1721 | a lane timer started at now0 gives hold_time int((now1 - now0)·1000) at now1 |
| Gameplay.Session.constructor | code/main.py:1504-1523 | one note per loaded record, one started-then-reset timer per lane, no hittable notes, counters at 0 |
| Gameplay.Session.RefreshHittable | code/main.py:1610-1618 | the hittable set is refreshed in place as Refresh says |
| Gameplay.Session.AddSafetyNet | code/main.py:1700-1702 | the safety net in place agrees with SafetyNet |
| Gameplay.Session.JudgeTap | code/main.py:1655-1697 | a judged tap in place agrees with Tap, counters in the array |
| Gameplay.Session.PressAt | code/main.py:1646-1702 | judging one hittable note in place agrees with KeyDownStep, and a judged hold starts the lane timer now |
| Gameplay.Session.PressNext | code/main.py:1646-1702 | one turn of the hittable loop in place leaves the rest of the pass unchanged |
| Gameplay.Session.PressLane | code/main.py:1646-1702 | a lane press with its timer counting changes nothing; otherwise the pass in place agrees with KeyDownFrom |
| Gameplay.Session.PressKey | code/main.py:1631-1702 | one turn of the lane loop in place leaves the rest of the key press unchanged |
| Gameplay.Session.ReleaseAt | code/main.py:1729-1790 | releasing one hittable note in place agrees with KeyUpStep, and an error changes nothing |
| Gameplay.Session.ReleaseNext | code/main.py:1729-1790 | one turn of the hittable loop in place leaves the rest of the release unchanged, or raises its error |
| Gameplay.Session.ReleaseLane | code/main.py:1729-1790 | the release pass in place agrees with KeyUpFrom, error included |
| Gameplay.Session.ReleaseKey | code/main.py:1713-1798 | one turn of the lane loop in place leaves the rest of the key release unchanged, or raises its error |
| Gameplay.Session.ScoreHold | code/main.py:1734-1790 | scoring a released hold in place agrees with ScoreRelease, and an error changes nothing |
| Gameplay.Session.MissAt | code/main.py:1866-1899 | one note's passive check in place agrees with TickStep |
| Gameplay.Session.JudgeHold | code/main.py:1655-1697 | a judged hold marks the note hit, restarts the lane timer now and advances cur_note |
| Gameplay.Session.KeyDown | code/main.py:1628-1702 | the key-down lane loop in place agrees with the key-press function, error included |
| Gameplay.Session.KeyUp | code/main.py:1710-1798 | the key-up lane loop in place agrees with the key-release function, error included |
| Gameplay.Session.MissHold | code/main.py:1734-1743 | an early release kills the segments and counts a miss |
| Gameplay.Session.RankLast | code/main.py:1763-1766 | a held-out release is scored with the stored delta |
| Gameplay.Session.DropHold | code/main.py:1786-1790 | the released note stops holding and every copy leaves the set |
| Gameplay.Session.Tick | code/main.py:1862-1899 | the passive miss pass in place agrees with TickFrom while playing, and does nothing otherwise |
| Gameplay.Session.CountMiss | code/main.py:1881-1899 | a passive miss counts one miss and advances cur_note |
| Gameplay.Session.CountLaneTimers | code/main.py:1587-1593 | every lane timer is counted in place as CountLanes says |
| Gameplay.Session.Escape | code/main.py:1705-1707 | escape toggles pause and the song only when input is allowed and the song has started, with Song.pause's pause_time, conductor state and error; otherwise the song and its conductor are untouched |
| Options.GetInt | code/main.py:271 | getint succeeds exactly on a stored integer |
| Options.ShowNatValue | code/util/Option.py:452 | the decimal digits of n read back as n |
| Options.ParseShowInt | code/util/Option.py:452 | int(str(n)) == n |
| Options.AppendDigitValue | code/util/Option.py:440-442 | appending a digit multiplies by ten and adds the digit, away from zero for a negative buffer |
| Options.ToggleMinusTwice | code/util/Option.py:418-426 | '-' twice restores a buffer whose only minus is leading |
| Options.TypeLegal | code/util/Option.py:415-442 | a parse failure is ValueError; a digit or '.' is appended only when the parsed buffer lies in [min, max] |
| Options.TypeDigitInRange | code/util/Option.py:440-442 | an int option appends a digit exactly when the result lies in [min, max], and otherwise keeps the buffer |
| Options.SecondPointFails | code/util/Option.py:435-438 | a second '.' in a float buffer raises ValueError |
| Options.TypeKeepsMinusLeading | code/util/Option.py:415-442 | typing keeps any minus at the front |
| Options.ParsedMinusLeading | code/util/Option.py:437-441 | a buffer that parses has its minus only at the front |
| Options.ClickStep | code/util/Option.py:300-357 | a left press on a hovered, usable bool option flips it and stores the new flag; on a number option it starts typing; a left press away from a typing option ends typing; no click touches the buffer or the keybind slot |
| Options.KeyStep | code/util/Option.py:358-468 | a key keeps the option consistent |
| Options.NumberKey | code/util/Option.py:403-468 | a key on a numeric option keeps it consistent |
| Options.TypeChar | code/util/Option.py:415-454 | a legal character keeps the option consistent and typing |
| Options.Backspace | code/util/Option.py:457-463 | backspace keeps the option consistent and typing |
| Options.BackspaceStep | code/util/Option.py:457-463 | backspace drops the last character and stores it parsed as a float, raising ValueError when that fails |
| Options.BackspaceKey | code/util/Option.py:457-463 | the backspace key while typing is exactly the backspace rule |
| Options.Step | code/util/Option.py:299-468 | any event keeps the option consistent |
| Options.Steps | code/util/Option.py:299-468 | any event sequence keeps the option consistent |
| Options.BoolClickTwice | code/util/Option.py:314-323 | clicking a bool option twice restores it and stores it |
| Options.KeybindSetsOneSlot | code/util/Option.py:377-401 | a key while setting a keybind replaces only that slot with the key name and ends typing |
| Options.TypingEndsOnlyByReturnOrClick | code/util/Option.py:355-468 | without return or a click, a numeric option keeps typing and its minus at the front |
| Options.NumberKeyKeepsTyping | code/util/Option.py:403-468 | a numeric key ends typing exactly when it is return |
| Options.IntBackspaceStoresFloat | code/util/Option.py:457-463 | FPS Limit at "120" and backspace stores 12.0, which getint then refuses |
| Options.FixedBackspaceReadsBack | code/util/Option.py:447-463 | with the corrected store, an int option reads back with getint as its buffer (0 for '', '-' or '.') |
| Options.MenuOption.constructor | code/util/Option.py:78-219 | a new option is active, not typing, with its status and stored value |
| Options.MenuOption.SetKeybind | code/util/Option.py:229-236 | set_keybind starts typing into the given slot |
| Options.MenuOption.Click | code/util/Option.py:300-357 | a click in place agrees with ClickStep |
| Options.MenuOption.Key | code/util/Option.py:358-468 | a key in place agrees with KeyStep |
| Options.MenuOption.TypeNumber | code/util/Option.py:403-468 | a numeric key in place agrees with NumberKey |
| Options.MenuOption.TypeLegalKey | code/util/Option.py:415-454 | a legal character in place agrees with TypeChar |
| Options.MenuOption.DeleteLast | code/util/Option.py:457-463 | backspace in place agrees with Backspace |
| Options.MenuOption.Handle | code/util/Option.py:299-468 | one event in place agrees with Step |
| Options.MenuOption.HandleAll | code/util/Option.py:299-468 | the event loop in place agrees with Steps |
| Options.MenuOption.Update | code/util/Option.py:238-468 | hovering is refreshed (except on a header), and with a keybind menu open it is the last button's; the colour hover only while the picker is open; an open keybind menu first runs its buttons as PressButtons says; then the events are handled as Steps says |
| Options.PressButtons | code/util/Option.py:274-280 | the buttons change only the typing flag and the chosen slot, which is one of the buttons, and keep a keybind option consistent |
| Options.MenuOption.PressMenuButtons | code/util/Option.py:274-280 | the loop over the eight keybind buttons in place agrees with PressButtons |
| Options.LeftPressIn | code/util/Classes.py:186-196 | true exactly when some event of the frame is a left mouse press |
| Options.FirstHovered | code/util/Option.py:274-280 | the first button from x on under the pointer, or none when no button is |
| Options.TypingSkipsButtons | code/util/Option.py:277-278 | once typing has started, the remaining buttons change nothing |
| Options.PressButtonsPicksFirst | code/util/Option.py:274-280 | with a left press in the frame and nothing being typed, the first hovered button starts typing into its own slot; otherwise the buttons change nothing |
| ListMenu.SplitEach | code/util/List.py:61-62 | each piece is split on ',' |
| ListMenu.SongPieces | code/util/List.py:58 | the songs line without newlines split on '.json' has at least one piece |
| ListMenu.SongsToLoad | code/util/List.py:58-65 | one entry per '.json' occurrence, each with at least one field |
| ListMenu.SongsToLoadLosesNothing | code/util/List.py:58-65 | the entries joined back with ',' and '.json', plus the discarded tail, give the line without newlines |
| ListMenu.SongsLineRoundTrip | code/util/List.py:58-65 | a songs line written from entries without ',', '.' or newlines parses back to those entries |
| ListMenu.SplitJoin | code/util/List.py:58-62 | splitting a join whose parts avoid the separator gives the parts back |
| ListMenu.DescRowsRotate | code/util/List.py:77-80 | row x shows line x-1, so the rows are the lines rotated by one, the last first |
| ListMenu.LabelFor | code/util/List.py:88-105 | the button reads No Songs exactly with no entries, Invalid Song(s) exactly when a listed song file is missing, Play otherwise |
| ListMenu.LoadSongs | code/util/List.py:58-65 | the append loop and the final `del` build SongsToLoad |
| ListMenu.BuildDescRows | code/util/List.py:77-80 | the row loop builds DescRows |
| ListMenu.BuildSongRows | code/util/List.py:83-85 | the row loop builds "song - chart.json" rows, raising IndexError at an entry without a chart |
| ListMenu.CheckSongs | code/util/List.py:96-101 | the loop with its `break` is true exactly when every listed song file exists |
| ListMenu.Load | code/util/List.py:38-105 | the constructor's parsing, in place, agrees with ParseList, IndexError for fewer than three lines included |
| ListMenu.BodyClicksToggle | code/util/List.py:160-166 | clicks on the body off the button toggle open once per left press |
| ListMenu.OutsideClickCloses | code/util/List.py:160-180 | a left click outside closes the list; without one it stays as it was |
| ListMenu.ButtonClicksKeepOpen | code/util/List.py:160-177 | clicks on the play button never change open |
| ListMenu.SongList.constructor | code/util/List.py:38-111 | a new list is closed, 100 high, with its parsed data |
| ListMenu.SongList.Update | code/util/List.py:127-183 | the button hover is refreshed only while open; the height follows open as it was before the events; open follows the click rules |

## Left out

- Drawing is not modelled: surfaces, blits, fonts, images, positions, colours chosen for display, tweens and the intro animation. The same goes for `chart_note_data_display`, `song_data_display` and `fps_display`.
- Audio is not modelled: the mixer, hitsounds, the metronome, the menu sounds, and music start and stop in `Song`.
- Song metadata is not modelled: the ID3/mp3 loading in `Song.__init__` and all of Freeplay. The bpm and length are parameters.
- File and OS I/O are not modelled. The chart file is the record map a save would write, not its text. `os.path.exists` is a predicate parameter, and config reads and writes are the stored value.
- The clock (`time.perf_counter`, `pygame.time.get_ticks`) is replaced by an explicit `now` argument. Mouse hit-testing is replaced by boolean arguments.
- Scene switching between the menus, the game and the editor is not modelled. Neither is the pause menu's buttons or the result screen.
- Options.ClickStep: the colour picker sets the status to the picked pixel. The config string it writes (`' '.join` of the pixel) is not modelled, and the stored value is left as it was.
- Options.KeyStep: a keybind key writes the key's name into the status slot. The joined config string is not modelled, and the stored value is left as it was.
- Gameplay: the receptor press textures, rank text and `rank_timer` are display only, and are not modelled.
- Classes.TextInput.Update: the box's own colour is not modelled.
- Game.Song.constructor and Approach.ValidTiming: the model's songs have a positive scroll speed. A Scroll Speed of 0 can be stored by backspacing its option box to empty (code/util/Option.py:463-464), and the game's first run_calc then raises ZeroDivisionError. Approach.RunCalc states that error, but the gameplay model does not run a song with that scroll speed.
- Options.MenuOption.constructor: a keybind option's list must hold at least eight names (StatusFits). The source builds eight buttons from the list and raises IndexError for a shorter one; that error is not modelled.
- Chart.ChartNote.constructor: it builds hold segments for any lane. In the source, a note with a positive step count on a lane without a receptor raises AttributeError while building them (code/util/Chart.py:357-359); ChartFile.LoadNote states that error for loaded notes, and a note placed from the grid has no hold.
- Gameplay.Session.constructor: it takes the notes as ChartFile.LoadNote returns them. The lane errors that Note.__init__ raises in the same load loop are stated by ChartFile.LoadNote, not by the constructor.
- Floating point is modelled as exact reals, and IEEE rounding is not modelled. `round(x, 2)` (PyCore.Round2) rounds an exact half upwards, where Python rounds it to even.
- Chart.SaveJson: the record's text, its whitespace and Python's float formatting are not modelled.

## Findings

| source | as written | input that shows it | evidently intended | confidence | as-written member | corrected member |
|---|---|---|---|---|---|---|
| code/util/Chart.py:480-489 | the last record's hold is `note.hold_ms`, the loop variable left at the second-to-last note; with one note `note` is unbound, after the chart file was already emptied down to its offset line | notes at 100 ms (hold 0) and 200 ms (hold 500): the second is written with hold 0 | the last note's own hold, as for every other record | high, not executed | Chart.LastRecordTakesPreviousHold | ChartFile.SaveThenLoad |
| code/main.py:920 | the forward bound compares pause_time, in seconds, with length · 1000 | a 10 s song paused at 10 s scrolls forward to 10.25 s | pause_time + sec_per_step ≤ length | high, not executed | Editor.WheelScrollsPastEnd | Editor.WheelFixedStaysInSong |
| code/util/Option.py:457-463 | backspace stores `float(new_var)` for int options too | FPS Limit at "120", backspace: 12.0 is stored and `getint('fps limit')` at code/main.py:271 raises ValueError | `int(new_var)` for int options, as the typing branch does | high, not executed | Options.IntBackspaceStoresFloat | Options.FixedBackspaceReadsBack |

The classes model the program as written. Each corrected definition is
proved beside the one it corrects:
- `Chart.SaveJsonFixed` and `ChartFile.SaveThenLoad`;
- `Editor.WheelMoveFixed`;
- `Options.SavedAfterBackspaceFixed`.
