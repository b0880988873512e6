/**
  What the connect machine can still do: a stop that waits for its loop returns, and who
  can start a loop once the stored selection is forgotten.
 */
module ConnectProgress {
  import opened Wrappers
  import opened ConnectMachine

  // ---------------------------------------------------------------------
  // A loop that was told to end ends

  /** The steps a loop that was told to end may still take, at most. */
  function Rank(l: Loop): (n: nat)
    ensures n <= 17
    ensures n == 0 <==> l.pc.Done?
  {
    match l.pc
    case Done => 0
    case Closing => 1
    case Leaving => 2
    case Choosing => 3
    case FailStop => 4
    case FailClear => 5
    case Forgetting => 4
    case ClearingRules => 5
    case ClosingEngine => 6
    case ClosingFront => 7
    case Live => if l.watching then 8 else 9
    case Confirmed => 10
    case FrontUp => 11
    case Ready => 12
    case Wanting => 13
    case Proven => 14
    case Preflight => 15
    case EngineUp => 16
    case Chosen => 17
  }

  lemma ActLowersRank(s: State, l: Loop, act: Act)
    requires CanAct(s, l, act) && l.cancelled
    ensures Rank(Moved(s, l, act)) < Rank(l) && Moved(s, l, act).cancelled
  {
  }

  /** A step a loop can take towards its end, wherever it is. */
  function WayOut(l: Loop): (act: Act)
    requires !l.pc.Done?
  {
    match l.pc
    case Choosing => GiveUp
    case Chosen => Unstarted
    case EngineUp => Confirm(false)
    case Preflight => EndPreflight(false)
    case Proven => Decide
    case Wanting => Sync(Good)
    case Ready => StartFront(false)
    case FrontUp => Confirm(false)
    case Confirmed => MarkUp
    case Live => EndLine
    case ClosingFront => CloseFront
    case ClosingEngine => StopEngine
    case ClearingRules => ClearRules
    case Forgetting => Forget
    case FailClear => ClearFailed
    case FailStop => StopFailed
    case Leaving => EndLoop
    case Closing => CloseDone
  }

  lemma WayOutIsOpen(s: State, l: Loop)
    requires !l.pc.Done?
    ensures CanAct(s, l, WayOut(l)) && Rank(Moved(s, l, WayOut(l))) < Rank(l)
  {
  }

  /** How many steps of a run are the i-th loop's. */
  function ActsOf(steps: seq<Step>, i: nat): (n: nat) {
    if steps == [] then 0
    else ActsOf(steps[1..], i) + if steps[0].ByLoop? && steps[0].i == i then 1 else 0
  }

  lemma OthersLeaveALoop(s: State, step: Step, i: nat)
    requires Enabled(s, step) && i < |s.loops| && !(step.ByLoop? && step.i == i)
    ensures var loops := LoopsAfter(s, step);
            i < |loops| && Rank(loops[i]) == Rank(s.loops[i]) && (s.loops[i].cancelled ==> loops[i].cancelled)
  {
  }

  lemma StepLowersRank(s: State, step: Step, i: nat)
    requires Enabled(s, step) && i < |s.loops| && s.loops[i].cancelled
    ensures var loops := Do(s, step).loops;
            && i < |loops| && loops[i].cancelled
            && Rank(loops[i]) + (if step.ByLoop? && step.i == i then 1 else 0) <= Rank(s.loops[i])
  {
    LoopsAre(s, step);
    if step.ByLoop? && step.i == i {
      ActLowersRank(s, s.loops[i], step.act);
    } else {
      OthersLeaveALoop(s, step, i);
    }
  }

  /** Whatever else goes on, a loop that was told to end takes only so many more steps. */
  lemma {:induction false} CancelledLoopEnds(s: State, steps: seq<Step>, i: nat)
    requires IsRun(s, steps) && i < |s.loops| && s.loops[i].cancelled
    ensures var t := After(s, steps);
            i < |t.loops| && t.loops[i].cancelled && ActsOf(steps, i) + Rank(t.loops[i]) <= Rank(s.loops[i])
    decreases |steps|
  {
    if steps != [] {
      StepLowersRank(s, steps[0], i);
      CancelledLoopEnds(Do(s, steps[0]), steps[1..], i);
    }
  }

  /** The loop a stop waits for was told to end. */
  ghost predicate WaitsForCancelled(s: State) {
    s.holder.Waiting? ==> s.holder.id < |s.loops| && s.loops[s.holder.id].cancelled
  }

  lemma QuietNeverWaits(s: State, step: Step)
    requires Enabled(s, step) && HolderAfter(s, step).Waiting?
    ensures HolderAfter(s, step) == s.holder
  {
  }

  lemma StepWaitsForCancelled(s: State, step: Step)
    requires Inv(s) && Enabled(s, step) && WaitsForCancelled(s)
    ensures WaitsForCancelled(Do(s, step))
  {
    var t := Do(s, step);
    if t.holder.Waiting? && !step.TakeHandle? {
      if Quiet(step) {
        QuietNeverWaits(s, step);
      }
      assert t.holder == s.holder;
      StepLowersRank(s, step, s.holder.id);
    }
  }

  lemma {:induction false} RunWaitsForCancelled(s: State, steps: seq<Step>)
    requires Inv(s) && IsRun(s, steps) && WaitsForCancelled(s)
    ensures WaitsForCancelled(After(s, steps))
    decreases |steps|
  {
    if steps != [] {
      StepKeepsInv(s, steps[0]);
      StepWaitsForCancelled(s, steps[0]);
      RunWaitsForCancelled(Do(s, steps[0]), steps[1..]);
    }
  }

  /** A stop that waits returns: its loop takes at most 17 more steps of its own, whatever
      goes on beside it; until it has ended it can always take one; and then the wait is
      over. */
  lemma StopComesToAnEnd(stored: Option<Selection>, steps: seq<Step>, more: seq<Step>)
    requires IsRun(Fresh(stored), steps) && After(Fresh(stored), steps).holder.Waiting?
    requires IsRun(After(Fresh(stored), steps), more)
    ensures var s := After(Fresh(stored), steps);
            var t, id := After(s, more), s.holder.id;
            && ActsOf(more, id) <= 17
            && id < |t.loops|
            && (!t.loops[id].pc.Done? ==> Enabled(t, ByLoop(id, WayOut(t.loops[id]))))
            && (t.loops[id].pc.Done? && t.holder == s.holder ==> Enabled(t, Awaited))
  {
    FreshInv(stored);
    RunWaitsForCancelled(Fresh(stored), steps);
    var s := After(Fresh(stored), steps);
    CancelledLoopEnds(s, more, s.holder.id);
    var t := After(s, more);
    if !t.loops[s.holder.id].pc.Done? {
      WayOutIsOpen(t, t.loops[s.holder.id]);
    }
  }

  ghost predicate ByOne(steps: seq<Step>, i: nat) {
    forall k :: 0 <= k < |steps| ==> steps[k].ByLoop? && steps[k].i == i
  }

  ghost predicate ReturnsBy(s: State, i: nat, steps: seq<Step>) {
    IsRun(s, steps) && ByOne(steps, i) && Enabled(After(s, steps), Awaited)
  }

  lemma WayOutStep(s: State, i: nat)
    requires i < |s.loops| && !s.loops[i].pc.Done?
    ensures var step := ByLoop(i, WayOut(s.loops[i]));
            && Enabled(s, step)
            && var t := Do(s, step);
            && t.holder == s.holder && |t.loops| == |s.loops| && Rank(t.loops[i]) < Rank(s.loops[i])
  {
    WayOutIsOpen(s, s.loops[i]);
  }

  /** And the loop's own steps alone suffice, from every state a stop can wait in. */
  lemma {:induction false} StopCanReturn(s: State)
    requires Inv(s) && s.holder.Waiting?
    ensures exists steps :: ReturnsBy(s, s.holder.id, steps)
    decreases Rank(s.loops[s.holder.id])
  {
    var id := s.holder.id;
    if s.loops[id].pc.Done? {
      assert ReturnsBy(s, id, []);
    } else {
      var step := ByLoop(id, WayOut(s.loops[id]));
      WayOutStep(s, id);
      StepKeepsInv(s, step);
      StopCanReturn(Do(s, step));
      var rest :| ReturnsBy(Do(s, step), id, rest);
      OneStepFirst(s, step, Do(s, step), rest);
      assert ReturnsBy(s, id, [step] + rest);
    }
  }

  // ---------------------------------------------------------------------
  // Who can start once the selection is forgotten

  ghost predicate StartedSince(t: State, n: nat, sel: Selection) {
    exists i :: n <= i < |t.loops| && t.loops[i].sel == sel
  }

  ghost predicate StartsBy(s: State, n: nat, sel: Selection, steps: seq<Step>) {
    IsRun(s, steps) && StoredIn(steps) == {} && StartedSince(After(s, steps), n, sel)
  }

  /** A loop for a selection, none of the first n, can come of a run that stores nothing. */
  ghost predicate CanStart(s: State, n: nat, sel: Selection) {
    exists steps :: StartsBy(s, n, sel, steps)
  }

  lemma CanStartVia(s: State, step: Step, t: State, n: nat, sel: Selection)
    requires Enabled(s, step) && t == Do(s, step) && !step.Store? && CanStart(t, n, sel)
    ensures CanStart(s, n, sel)
  {
    var rest :| StartsBy(t, n, sel, rest);
    OneStepFirst(s, step, t, rest);
    StoredCons([step] + rest);
    assert ([step] + rest)[1..] == rest;
    assert StartsBy(s, n, sel, [step] + rest);
  }

  lemma FromSettled(s: State, n: nat, sel: Selection)
    requires s.holder == Settled(Start(sel)) && n <= |s.loops|
    ensures CanStart(s, n, sel)
  {
    var t := Spawned(s);
    assert t.loops[|s.loops|].sel == sel;
    assert StartsBy(t, n, sel, []);
    CanStartVia(s, Spawn, t, n, sel);
  }

  lemma FromInstalled(s: State, n: nat, sel: Selection)
    requires s.holder == SwitchIn(Start(sel)) && n <= |s.loops|
    ensures CanStart(s, n, sel)
  {
    var t := Do(s, SyncSwitch(Good));
    var u := Do(t, CallOn(false));
    FromSettled(u, n, sel);
    CanStartVia(t, CallOn(false), u, n, sel);
    CanStartVia(s, SyncSwitch(Good), t, n, sel);
  }

  lemma FromCalledOff(s: State, n: nat, sel: Selection)
    requires s.holder == Unwatching(Start(sel)) && n <= |s.loops|
    ensures CanStart(s, n, sel)
  {
    var t := Do(s, StopWatch);
    var u := Do(t, ClearOwn);
    var v := Do(u, RemoveSwitch);
    FromSettled(v, n, sel);
    CanStartVia(u, RemoveSwitch, v, n, sel);
    CanStartVia(t, ClearOwn, u, n, sel);
    CanStartVia(s, StopWatch, t, n, sel);
  }

  /** Nothing of the old connection runs: the switch is brought to what the selection asks
      for, whichever way it stood, and the loop started. */
  lemma FromStopped(s: State, n: nat, sel: Selection)
    requires s.holder == Stopped(Start(sel)) && n <= |s.loops|
    ensures CanStart(s, n, sel)
  {
    var step :=
      if Guarded(sel) then if s.ksOn then KeepSwitch else InstallSwitch(true)
      else if s.ksOn then CallOff else LeaveOff;
    var t := Do(s, step);
    if step == InstallSwitch(true) {
      FromInstalled(t, n, sel);
    } else if step == CallOff {
      FromCalledOff(t, n, sel);
    } else {
      FromSettled(t, n, sel);
    }
    CanStartVia(s, step, t, n, sel);
  }

  /** The old loop runs to its end first. */
  lemma {:induction false} FromWaiting(s: State, n: nat, sel: Selection)
    requires Inv(s) && s.holder.Waiting? && s.holder.op == Start(sel) && n <= |s.loops|
    ensures CanStart(s, n, sel)
    decreases Rank(s.loops[s.holder.id])
  {
    var id := s.holder.id;
    if s.loops[id].pc.Done? {
      FromStopped(Do(s, Awaited), n, sel);
      CanStartVia(s, Awaited, Do(s, Awaited), n, sel);
    } else {
      var step := ByLoop(id, WayOut(s.loops[id]));
      WayOutStep(s, id);
      StepKeepsInv(s, step);
      FromWaiting(Do(s, step), n, sel);
      CanStartVia(s, step, Do(s, step), n, sel);
    }
  }

  lemma FromTaken(s: State, n: nat, sel: Selection)
    requires Inv(s) && s.holder == Taken(Start(sel)) && n <= |s.loops|
    ensures CanStart(s, n, sel)
  {
    var t := Do(s, TakeHandle);
    TakeHandleKeepsInv(s);
    if s.handle.Some? {
      FromWaiting(t, n, sel);
    } else {
      FromStopped(t, n, sel);
    }
    CanStartVia(s, TakeHandle, t, n, sel);
  }

  lemma WaitingCanStart(s: State, sel: Selection)
    requires Inv(s) && s.holder.Free? && sel in s.waiting
    ensures CanStart(s, |s.loops|, sel)
  {
    var step := Acquire(Start(sel));
    StepKeepsInv(s, step);
    FromTaken(Do(s, step), |s.loops|, sel);
    CanStartVia(s, step, Do(s, step), |s.loops|, sel);
  }

  /** Once the selection is forgotten, and until another is stored, a loop for a selection
      can still be started exactly when a connect that stored it before waits for the lock:
      in every reachable state, whatever runs and however the switch stands. */
  lemma ForgottenStartsExactly(s: State, sel: Selection)
    requires Inv(s) && s.stored.None? && s.holder.Free?
    ensures CanStart(s, |s.loops|, sel) <==> sel in s.waiting
  {
    if sel in s.waiting {
      WaitingCanStart(s, sel);
    }
    if steps :| StartsBy(s, |s.loops|, sel, steps) {
      ForgottenStaysForgotten(s, steps);
    }
  }

  ghost predicate GrowsBy(s: State, steps: seq<Step>) {
    IsRun(s, steps) && StoredIn(steps) == {} && |After(s, steps).loops| > |s.loops|
  }

  /** So any loop can be started exactly when any connect waits. */
  lemma ForgottenStartsNone(s: State)
    requires Inv(s) && s.stored.None? && s.holder.Free?
    ensures (exists steps :: GrowsBy(s, steps)) <==> s.waiting != multiset{}
  {
    if s.waiting != multiset{} {
      var sel :| sel in s.waiting;
      WaitingCanStart(s, sel);
      var steps :| StartsBy(s, |s.loops|, sel, steps);
      assert GrowsBy(s, steps);
    }
    if steps :| GrowsBy(s, steps) {
      ForgottenStaysForgotten(s, steps);
    }
  }

  // ---------------------------------------------------------------------
  // A look at the stored selection

  /** A look goes on to start a selection exactly when that is the stored one and no loop is
      live, or a line is up that is another text by now; else it lets go of the lock; and it
      changes nothing more either way. */
  lemma LookExactly(s: State, changed: bool, sel: Selection)
    requires Enabled(s, Read(changed))
    ensures var t := Do(s, Read(changed));
            && (t.holder == Taken(Start(sel)) <==>
                  s.stored == Some(sel) && (!s.loopLive || (s.cur.Some? && changed)))
            && (t.holder != Taken(Start(sel)) && s.stored == Some(sel) ==> t.holder == Free)
            && (s.stored.None? ==> t.holder == Free)
            && t == s.(holder := t.holder)
  {
  }

  /** The daemon's start and a refresh bring a stored selection back: wherever no loop is
      live, or a line is up, a look at it can come to a loop for it. */
  lemma StoredCanStart(s: State, sel: Selection)
    requires Inv(s) && s.holder.Free? && s.stored == Some(sel) && (!s.loopLive || s.cur.Some?)
    ensures CanStart(s, |s.loops|, sel)
  {
    var t := Do(s, Acquire(Refresh));
    StepKeepsInv(s, Acquire(Refresh));
    assert t == s.(holder := Reading(Refresh));
    LookExactly(t, true, sel);
    var u := Do(t, Read(true));
    StepKeepsInv(t, Read(true));
    FromTaken(u, |s.loops|, sel);
    CanStartVia(t, Read(true), u, |s.loops|, sel);
    CanStartVia(s, Acquire(Refresh), t, |s.loops|, sel);
  }

  // ---------------------------------------------------------------------
  // How requests end

  /** A stop lets go of the lock with nothing running, the switch out, and the selection
      forgotten where that was asked. */
  lemma StopEnds(s: State)
    requires Inv(s) && Enabled(s, Release)
    ensures var t := Do(s, Release);
            && t.holder.Free? && t.handle.None? && !t.loopLive && t.cur.None? && !t.ksOn && !t.ksIn
            && (forall i :: 0 <= i < |t.loops| ==> t.loops[i].pc.Done? && Empty(t.loops[i]))
            && t.stored == if s.holder.op == StopAll(true) then None else s.stored
  {
    assert Current(s).None?;
  }

  /** A start lets go of it with one new loop for its selection, every other at its end, and
      the switch in exactly where the selection asks for it. */
  lemma StartEnds(s: State, sel: Selection)
    requires Inv(s) && Enabled(s, Spawn) && s.holder.op == Start(sel)
    ensures var t, n := Do(s, Spawn), |s.loops|;
            && t.holder.Free? && t.handle == Some(n) && t.loopLive && |t.loops| == n + 1
            && t.loops[n] == Loop(Choosing, sel, false, None, None, false, false)
            && (forall i :: 0 <= i < n ==> t.loops[i].pc.Done?)
            && (t.ksOn <==> sel.tun && sel.killSwitch) && (t.ksIn <==> t.ksOn)
  {
    assert Current(s).None?;
  }

  /** A start that cannot put the switch in starts nothing and leaves no switch. */
  lemma FailedStartEnds(s: State, step: Step)
    requires Inv(s) && Enabled(s, step) && (step == InstallSwitch(false) || step == UndoSwitch)
    ensures var t := Do(s, step);
            && t.holder.Free? && !t.loopLive && t.cur.None? && !t.ksOn && !t.ksIn
            && t.loops == s.loops && (forall i :: 0 <= i < |t.loops| ==> t.loops[i].pc.Done?)
  {
    assert Current(s).None?;
  }

  ghost predicate FreesBy(s: State, steps: seq<Step>) {
    IsRun(s, steps) && StoredIn(steps) == {} && After(s, steps).holder.Free?
  }

  ghost predicate CanFree(s: State) {
    exists steps :: FreesBy(s, steps)
  }

  lemma CanFreeVia(s: State, step: Step, t: State)
    requires Enabled(s, step) && t == Do(s, step) && !step.Store? && CanFree(t)
    ensures CanFree(s)
  {
    var rest :| FreesBy(t, rest);
    OneStepFirst(s, step, t, rest);
    StoredCons([step] + rest);
    assert ([step] + rest)[1..] == rest;
    assert FreesBy(s, [step] + rest);
  }

  lemma FreeAtOnce(s: State)
    requires s.holder.Free?
    ensures CanFree(s)
  {
    assert FreesBy(s, []);
  }

  lemma SettledCanEnd(s: State)
    requires s.holder.Settled? && !s.holder.op.Refresh?
    ensures CanFree(s)
  {
    var step := if s.holder.op.Start? then Spawn else Release;
    FreeAtOnce(Do(s, step));
    CanFreeVia(s, step, Do(s, step));
  }

  lemma InstallingCanEnd(s: State)
    requires Installing(s.holder) && !s.holder.op.Refresh?
    ensures CanFree(s)
    decreases if s.holder.SwitchIn? then 1 else 0
  {
    var step :=
      if s.holder.SwitchIn? then SyncSwitch(Good) else if s.holder.Rollback? then UndoSwitch else CallOn(true);
    var t := Do(s, step);
    if t.holder.Free? {
      FreeAtOnce(t);
    } else if t.holder.Settled? {
      SettledCanEnd(t);
    } else {
      InstallingCanEnd(t);
    }
    CanFreeVia(s, step, t);
  }

  lemma RemovingCanEnd(s: State)
    requires RemovingSwitch(s.holder) && !s.holder.op.Refresh?
    ensures CanFree(s)
    decreases if s.holder.Unwatching? then 2 else if s.holder.Clearing? then 1 else 0
  {
    var step := if s.holder.Unwatching? then StopWatch else if s.holder.Clearing? then ClearOwn else RemoveSwitch;
    var t := Do(s, step);
    if t.holder.Settled? {
      SettledCanEnd(t);
    } else {
      RemovingCanEnd(t);
    }
    CanFreeVia(s, step, t);
  }

  lemma StoppedCanEnd(s: State)
    requires s.holder.Stopped? && !s.holder.op.Refresh?
    ensures CanFree(s)
  {
    var guarded := s.holder.op.Start? && Guarded(s.holder.op.sel);
    var step :=
      if guarded then if s.ksOn then KeepSwitch else InstallSwitch(true)
      else if s.ksOn then CallOff else LeaveOff;
    var t := Do(s, step);
    if step == InstallSwitch(true) {
      InstallingCanEnd(t);
    } else if step == CallOff {
      RemovingCanEnd(t);
    } else {
      SettledCanEnd(t);
    }
    CanFreeVia(s, step, t);
  }

  lemma {:induction false} WaitingCanEnd(s: State)
    requires Inv(s) && s.holder.Waiting? && !s.holder.op.Refresh?
    ensures CanFree(s)
    decreases Rank(s.loops[s.holder.id])
  {
    var id := s.holder.id;
    if s.loops[id].pc.Done? {
      StoppedCanEnd(Do(s, Awaited));
      CanFreeVia(s, Awaited, Do(s, Awaited));
    } else {
      var step := ByLoop(id, WayOut(s.loops[id]));
      WayOutStep(s, id);
      StepKeepsInv(s, step);
      WaitingCanEnd(Do(s, step));
      CanFreeVia(s, step, Do(s, step));
    }
  }

  lemma TakenCanEnd(s: State)
    requires Inv(s) && s.holder.Taken? && !s.holder.op.Refresh?
    ensures CanFree(s)
  {
    var t := Do(s, TakeHandle);
    TakeHandleKeepsInv(s);
    if s.handle.Some? {
      WaitingCanEnd(t);
    } else {
      StoppedCanEnd(t);
    }
    CanFreeVia(s, TakeHandle, t);
  }

  /** A look is the only request that has nothing to stop. */
  ghost predicate OnlyLooksRead(s: State) {
    !s.holder.Free? && !s.holder.Reading? ==> !s.holder.op.Refresh?
  }

  lemma QuietOnlyLooksRead(s: State, step: Step)
    requires Enabled(s, step) && OnlyLooksRead(s)
    ensures var h := HolderAfter(s, step); !h.Free? && !h.Reading? ==> !h.op.Refresh?
  {
  }

  lemma {:induction false} RunOnlyLooksRead(s: State, steps: seq<Step>)
    requires IsRun(s, steps) && OnlyLooksRead(s)
    ensures OnlyLooksRead(After(s, steps))
    decreases |steps|
  {
    if steps != [] {
      if Quiet(steps[0]) {
        QuietOnlyLooksRead(s, steps[0]);
      }
      RunOnlyLooksRead(Do(s, steps[0]), steps[1..]);
    }
  }

  /** No request is ever stuck with the lock: in every state the daemon can reach, whoever
      holds it can come to let go of it. */
  lemma EveryRequestCanEnd(stored: Option<Selection>, steps: seq<Step>)
    requires IsRun(Fresh(stored), steps)
    ensures CanFree(After(Fresh(stored), steps))
  {
    FreshInv(stored);
    RunKeepsInv(Fresh(stored), steps);
    RunOnlyLooksRead(Fresh(stored), steps);
    var s := After(Fresh(stored), steps);
    if s.holder.Free? {
      FreeAtOnce(s);
    } else if s.holder.Reading? {
      var t := Do(s, Read(false));
      StepKeepsInv(s, Read(false));
      if t.holder.Free? {
        FreeAtOnce(t);
      } else {
        TakenCanEnd(t);
      }
      CanFreeVia(s, Read(false), t);
    } else if s.holder.Taken? {
      TakenCanEnd(s);
    } else if s.holder.Waiting? {
      WaitingCanEnd(s);
    } else if s.holder.Stopped? {
      StoppedCanEnd(s);
    } else if s.holder.Settled? {
      SettledCanEnd(s);
    } else if Installing(s.holder) {
      InstallingCanEnd(s);
    } else {
      RemovingCanEnd(s);
    }
  }

  // ---------------------------------------------------------------------
  // A line comes up

  /** The loop's line is up: it has its front, its engine where the line runs one, and the
      own-address rules where it owns them. */
  ghost predicate Up(t: State, i: nat, engine: bool, own: bool) {
    && i < |t.loops| && t.cur == Some(i)
    && var l := t.loops[i];
    && l.pc.Live? && l.front.Some? && (l.engine.Some? <==> engine) && (l.own <==> own) && (own ==> t.ownIn)
  }

  ghost predicate UpBy(s: State, i: nat, engine: bool, own: bool, steps: seq<Step>) {
    IsRun(s, steps) && ByOne(steps, i) && Up(After(s, steps), i, engine, own)
  }

  ghost predicate CanComeUp(s: State, i: nat, engine: bool, own: bool) {
    exists steps :: UpBy(s, i, engine, own, steps)
  }

  lemma ComesUpVia(s: State, i: nat, act: Act, engine: bool, own: bool)
    requires i < |s.loops| && CanAct(s, s.loops[i], act) && CanComeUp(ActDone(s, i, act), i, engine, own)
    ensures CanComeUp(s, i, engine, own)
  {
    var t := ActDone(s, i, act);
    var rest :| UpBy(t, i, engine, own, rest);
    OneStepFirst(s, ByLoop(i, act), t, rest);
    assert UpBy(s, i, engine, own, [ByLoop(i, act)] + rest);
  }

  /** A loop at a place, with what it holds there. */
  predicate Holding(s: State, i: nat, pc: Pc, engine: bool, front: bool, own: bool) {
    && i < |s.loops| && s.loops[i].pc == pc
    && (s.loops[i].engine.Some? <==> engine) && (s.loops[i].front.Some? <==> front)
    && (s.loops[i].own <==> own)
  }

  lemma FromFrontUp(s: State, i: nat, engine: bool, own: bool)
    requires Holding(s, i, FrontUp, engine, true, own) && (own ==> s.ownIn)
    ensures CanComeUp(s, i, engine, own)
  {
    var t := ActDone(s, i, Confirm(true));
    var u := ActDone(t, i, MarkUp);
    assert Up(u, i, engine, own);
    assert UpBy(u, i, engine, own, []);
    ComesUpVia(t, i, MarkUp, engine, own);
    ComesUpVia(s, i, Confirm(true), engine, own);
  }

  lemma FromReady(s: State, i: nat, engine: bool, own: bool)
    requires Holding(s, i, Ready, engine, false, own) && (own ==> s.ownIn)
    ensures CanComeUp(s, i, engine, own)
  {
    FromFrontUp(ActDone(s, i, StartFront(true)), i, engine, own);
    ComesUpVia(s, i, StartFront(true), engine, own);
  }

  lemma FromWanting(s: State, i: nat, engine: bool, own: bool)
    requires Holding(s, i, Wanting, engine, false, own)
    ensures CanComeUp(s, i, engine, own)
  {
    FromReady(ActDone(s, i, Sync(Good)), i, engine, own);
    ComesUpVia(s, i, Sync(Good), engine, own);
  }

  lemma FromProven(s: State, i: nat, engine: bool, own: bool)
    requires Holding(s, i, Proven, engine, false, false) && own == (s.loops[i].sel.tun && !s.ksOn)
    ensures CanComeUp(s, i, engine, own)
  {
    FromWanting(ActDone(s, i, Decide), i, engine, own);
    ComesUpVia(s, i, Decide, engine, own);
  }

  lemma FromEngineUp(s: State, i: nat, own: bool)
    requires Holding(s, i, EngineUp, true, false, false) && own == (s.loops[i].sel.tun && !s.ksOn)
    ensures CanComeUp(s, i, true, own)
  {
    FromProven(ActDone(s, i, Confirm(true)), i, true, own);
    ComesUpVia(s, i, Confirm(true), true, own);
  }

  lemma FromPreflight(s: State, i: nat, own: bool)
    requires Holding(s, i, Preflight, false, true, false) && own == (s.loops[i].sel.tun && !s.ksOn)
    ensures CanComeUp(s, i, false, own)
  {
    FromProven(ActDone(s, i, EndPreflight(true)), i, false, own);
    ComesUpVia(s, i, EndPreflight(true), false, own);
  }

  lemma FromChosen(s: State, i: nat, engine: bool, own: bool)
    requires Holding(s, i, Chosen, false, false, false) && own == (s.loops[i].sel.tun && !s.ksOn)
    ensures CanComeUp(s, i, engine, own)
  {
    if engine {
      FromEngineUp(ActDone(s, i, StartEngine), i, own);
      ComesUpVia(s, i, StartEngine, true, own);
    } else if s.loops[i].sel.tun {
      FromPreflight(ActDone(s, i, StartPreflight), i, own);
      ComesUpVia(s, i, StartPreflight, false, own);
    } else {
      FromProven(ActDone(s, i, Unproven), i, false, own);
      ComesUpVia(s, i, Unproven, false, own);
    }
  }

  /** A loop that chooses and was not told to end can bring a line up by its own steps, with
      an engine of its own or without; and the line owns the own-address rules exactly where
      the selection is a tun's and the switch does not hold them. */
  lemma LineCanComeUp(s: State, i: nat, engine: bool)
    requires Inv(s) && i < |s.loops| && s.loops[i].pc.Choosing? && !s.loops[i].cancelled
    ensures CanComeUp(s, i, engine, s.loops[i].sel.tun && !s.ksOn)
  {
    assert LoopOk(s.loops[i]);
    var t := ActDone(s, i, Look);
    assert Holding(t, i, Chosen, false, false, false);
    FromChosen(t, i, engine, s.loops[i].sel.tun && !s.ksOn);
    ComesUpVia(s, i, Look, engine, s.loops[i].sel.tun && !s.ksOn);
  }
}
