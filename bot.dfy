/** `main`: restore the state, turn the LED off, then run the loop body
    once per tick. The Go loop runs until a panic ends the process; here it
    runs over a finite sequence of ticks, each carrying the clock reading
    and the exit status of every program it may start, and stops at the
    first tick that panics. */
module Bot {
  import opened Clock
  import opened Os
  import opened Timelapse

  /** What the outside world reports on one pass of the loop. */
  datatype TickInput = TickInput(now: Time, exits: Exits)

  /** Fields after every tick of `ticks` succeeded. */
  function RunFields(v: Fields, ticks: seq<TickInput>): Fields
  {
    if ticks == [] then v
    else TickFields(RunFields(v, ticks[..|ticks| - 1]), ticks[|ticks| - 1].now)
  }

  /** The disk after `ticks`; None when one of them panics. */
  function RunDisk(d: Disk, v: Fields, ticks: seq<TickInput>): Option<Disk>
  {
    if ticks == [] then Some(d)
    else
      var init := ticks[..|ticks| - 1];
      var d1 :- RunDisk(d, v, init);
      TickDisk(d1, RunFields(v, init), ticks[|ticks| - 1].now, ticks[|ticks| - 1].exits)
  }

  /** The programs started by `ticks` when all of them succeed. */
  function RunLog(v: Fields, ticks: seq<TickInput>): seq<seq<string>>
  {
    if ticks == [] then []
    else
      var init := ticks[..|ticks| - 1];
      RunLog(v, init) + TickLog(RunFields(v, init), ticks[|ticks| - 1].now)
  }

  /** One more tick: how each fold extends. */
  lemma RunStep(d: Disk, v: Fields, ticks: seq<TickInput>, i: nat)
    requires i < |ticks|
    ensures var w := RunFields(v, ticks[..i]);
      && RunFields(v, ticks[..i + 1]) == TickFields(w, ticks[i].now)
      && RunLog(v, ticks[..i + 1]) == RunLog(v, ticks[..i]) + TickLog(w, ticks[i].now)
      && RunDisk(d, v, ticks[..i + 1]) ==
           (if RunDisk(d, v, ticks[..i]).None? then None
            else TickDisk(RunDisk(d, v, ticks[..i]).value, w, ticks[i].now, ticks[i].exits))
  {
    var next := ticks[..i + 1];
    assert next[..|next| - 1] == ticks[..i];
    assert next[|next| - 1] == ticks[i];
  }

  /** The clock readings never go backwards. */
  predicate Chronological(ticks: seq<TickInput>) {
    forall i, j :: 0 <= i < j < |ticks| ==> AtOrBefore(ticks[i].now, ticks[j].now)
  }

  /** The record `restoreState` builds when the program starts on disk `d`. */
  function Restored(d: Disk, startedAt: Time): Fields {
    RestoredFields(PreparedDisk(d), startedAt)
  }

  /** `main` over `ticks`: `done` ticks succeed, and when `r` is a panic
      the tick numbered `done` is the one that panicked. */
  method RunBot(host: Host, startedAt: Time, ticks: seq<TickInput>)
    returns (state: TimelapseState, done: nat, r: Outcome)
    modifies host
    ensures fresh(state)
    ensures r.Pass? ==> done == |ticks|
    ensures r.Fail? ==> done < |ticks|
    ensures RunDisk(PreparedDisk(old(host.dirs)), Restored(old(host.dirs), startedAt), ticks[..done]).Some?
    ensures AfterRun(r, host.dirs) ==
      RunDisk(PreparedDisk(old(host.dirs)), Restored(old(host.dirs), startedAt), ticks[..if r.Pass? then done else done + 1])
    ensures r.Pass? ==> state.View() == RunFields(Restored(old(host.dirs), startedAt), ticks)
    ensures r.Pass? ==>
      host.invoked ==
        old(host.invoked) + [LedArgv(false)] + RunLog(Restored(old(host.dirs), startedAt), ticks)
    ensures r.Fail? ==>
      var v := Restored(old(host.dirs), startedAt);
      var d := RunDisk(PreparedDisk(old(host.dirs)), v, ticks[..done]).value;
      TickLeftBehind(r.panic, d, RunFields(v, ticks[..done]), ticks[done].now, ticks[done].exits, host.dirs)
  {
    state := RestoreState(host, startedAt);
    state.SetRaspberryPowerLed(host, false);
    done, r := Loop(state, host, ticks);
  }

  /** The `for` loop of `main`, stopped at the first tick that panics. */
  method Loop(state: TimelapseState, host: Host, ticks: seq<TickInput>) returns (done: nat, r: Outcome)
    modifies state, host
    ensures r.Pass? ==> done == |ticks|
    ensures r.Fail? ==> done < |ticks|
    ensures RunDisk(old(host.dirs), old(state.View()), ticks[..done]).Some?
    ensures AfterRun(r, host.dirs) == RunDisk(old(host.dirs), old(state.View()), ticks[..if r.Pass? then done else done + 1])
    ensures r.Pass? ==> state.View() == RunFields(old(state.View()), ticks)
    ensures r.Pass? ==> host.invoked == old(host.invoked) + RunLog(old(state.View()), ticks)
    ensures r.Fail? ==>
      var d := RunDisk(old(host.dirs), old(state.View()), ticks[..done]).value;
      TickLeftBehind(r.panic, d, RunFields(old(state.View()), ticks[..done]), ticks[done].now, ticks[done].exits, host.dirs)
  {
    ghost var d0, v0, log := host.dirs, state.View(), host.invoked;
    done := 0;
    r := Pass;
    while done < |ticks|
      invariant done <= |ticks| && r == Pass
      invariant RunDisk(d0, v0, ticks[..done]) == Some(host.dirs)
      invariant state.View() == RunFields(v0, ticks[..done])
      invariant host.invoked == log + RunLog(v0, ticks[..done])
    {
      RunStep(d0, v0, ticks, done);
      r := state.Tick(host, ticks[done].now, ticks[done].exits);
      if r.Fail? {
        return;
      }
      AppendAssociative(log, RunLog(v0, ticks[..done]), TickLog(RunFields(v0, ticks[..done]), ticks[done].now));
      done := done + 1;
    }
    assert ticks[..done] == ticks;
  }

  // ---------------------------------------------------------------------
  // What a run promises

  /** Exactly one still is captured per tick over a whole run. */
  lemma {:induction false} RunCapturesOncePerTick(v: Fields, ticks: seq<TickInput>)
    ensures Runs(RunLog(v, ticks), "raspistill") == |ticks|
  {
    if ticks != [] {
      var init := ticks[..|ticks| - 1];
      RunCapturesOncePerTick(v, init);
      RunsAppend(RunLog(v, init), TickLog(RunFields(v, init), ticks[|ticks| - 1].now), "raspistill");
      TickCapturesOnce(RunFields(v, init), ticks[|ticks| - 1].now);
    }
  }

  /** After a run the head is the label of the last tick. */
  lemma RunHead(v: Fields, ticks: seq<TickInput>)
    requires ticks != []
    ensures RunFields(v, ticks).headFromState == Floor5(ticks[|ticks| - 1].now)
  {
    TickFieldsSpec(RunFields(v, ticks[..|ticks| - 1]), ticks[|ticks| - 1].now);
  }

  /** With a clock that never goes backwards the head never moves back:
      the head after any non-empty prefix is at or before the head after
      the whole run. */
  lemma RunHeadMonotone(v: Fields, ticks: seq<TickInput>, k: nat)
    requires Chronological(ticks)
    requires 0 < k <= |ticks|
    ensures AtOrBefore(RunFields(v, ticks[..k]).headFromState, RunFields(v, ticks).headFromState)
  {
    var prefix := ticks[..k];
    RunHead(v, prefix);
    RunHead(v, ticks);
    assert prefix[k - 1] == ticks[k - 1];
    if k < |ticks| {
      Floor5Monotone(ticks[k - 1].now, ticks[|ticks| - 1].now);
    } else {
      assert prefix == ticks;
    }
  }

  /** A run keeps the record well formed: directories distinct, head a
      bucket label. */
  lemma {:induction false} RunKeepsLabels(v: Fields, ticks: seq<TickInput>)
    requires DistinctDirs(v)
    ensures DistinctDirs(RunFields(v, ticks))
    ensures ticks != [] ==> Floored(RunFields(v, ticks).headFromState)
  {
    if ticks != [] {
      RunKeepsLabels(v, ticks[..|ticks| - 1]);
      TickKeepsLabels(RunFields(v, ticks[..|ticks| - 1]), ticks[|ticks| - 1].now);
    }
  }

  /** Over a whole run every pending clip stays in its stage's directory,
      so stage B never deletes the hourly clip it writes. */
  lemma {:induction false} RunKeepsPendingInDirs(v: Fields, ticks: seq<TickInput>)
    requires PendingInDirs(v)
    ensures PendingInDirs(RunFields(v, ticks))
  {
    if ticks != [] {
      RunKeepsPendingInDirs(v, ticks[..|ticks| - 1]);
      TickKeepsPendingInDirs(RunFields(v, ticks[..|ticks| - 1]), ticks[|ticks| - 1].now);
    }
  }

  /** A run that succeeds keeps the live directory in step with the still
      counter, so no capture ever overwrites an earlier still. */
  lemma {:induction false} RunKeepsStillsConsistent(d: Disk, v: Fields, ticks: seq<TickInput>)
    requires DistinctDirs(v) && StillsConsistent(d, v)
    requires RunDisk(d, v, ticks).Some?
    ensures StillsConsistent(RunDisk(d, v, ticks).value, RunFields(v, ticks))
  {
    if ticks != [] {
      var init := ticks[..|ticks| - 1];
      var last := ticks[|ticks| - 1];
      RunKeepsStillsConsistent(d, v, init);
      RunKeepsLabels(v, init);
      TickKeepsStillsConsistent(RunDisk(d, v, init).value, RunFields(v, init), last.now, last.exits);
    }
  }

  /** Started on a disk without stills, every run that succeeds leaves the
      live directory holding exactly the stills numbered below the counter. */
  lemma FreshStartStillsConsistent(d: Disk, startedAt: Time, ticks: seq<TickInput>)
    requires StillsDir !in d || d[StillsDir] == []
    requires RunDisk(PreparedDisk(d), RestoredFields(PreparedDisk(d), startedAt), ticks).Some?
    ensures var p := PreparedDisk(d);
      var v := RestoredFields(p, startedAt);
      StillsConsistent(RunDisk(p, v, ticks).value, RunFields(v, ticks))
  {
    var p := PreparedDisk(d);
    RestoredStillsConsistent(d, startedAt);
    RestoredFieldsSpec(d, startedAt);
    RunKeepsStillsConsistent(p, RestoredFields(p, startedAt), ticks);
  }
}
