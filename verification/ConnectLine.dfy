/**
  The line of the connect machine: which loop's it is while it is up, what a failed try
  leads to, and how connect requests that wait are accounted for.
 */
module ConnectLine {
  import opened Wrappers
  import opened ConnectMachine

  // ---------------------------------------------------------------------
  // The line that is up

  /** Two loops at the same place, for the same selection. */
  predicate SamePlace(s: State, t: State, i: nat) {
    i < |s.loops| && i < |t.loops| && t.loops[i].pc == s.loops[i].pc && t.loops[i].sel == s.loops[i].sel
  }

  lemma ActLeavesOthers(s: State, j: nat, act: Act, i: nat)
    requires j < |s.loops| && CanAct(s, s.loops[j], act) && i < |s.loops| && i != j
    ensures SamePlace(s, ActDone(s, j, act), i)
  {
  }

  lemma TakingLeavesAll(s: State, i: nat)
    requires s.holder.Taken? && i < |s.loops|
    ensures SamePlace(s, HandleTaken(s), i)
  {
  }

  /** Where a loop is, no step but its own changes. */
  lemma OthersStay(s: State, step: Step, i: nat)
    requires Enabled(s, step) && i < |s.loops| && !(step.ByLoop? && step.i == i)
    ensures SamePlace(s, Do(s, step), i)
  {
    if step.ByLoop? {
      ActLeavesOthers(s, step.i, step.act, i);
    } else if Quiet(step) {
      QuietKeepsLoops(s, step);
    } else if step.TakeHandle? {
      TakingLeavesAll(s, i);
    } else if step.ContextEnds? {
      assert SamePlace(s, Cancel(s, step.i), i);
    }
  }

  ghost predicate LiveIsCur(s: State) {
    forall i :: 0 <= i < |s.loops| && s.loops[i].pc.Live? ==> s.cur == Some(i)
  }

  lemma ActKeepsLiveIsCur(s: State, i: nat, act: Act)
    requires Inv(s) && LiveIsCur(s) && i < |s.loops| && CanAct(s, s.loops[i], act)
    ensures LiveIsCur(ActDone(s, i, act))
  {
    var t := ActDone(s, i, act);
    forall j | 0 <= j < |t.loops| && t.loops[j].pc.Live? ensures t.cur == Some(j) {
      if j != i {
        assert t.loops[j] == s.loops[j] && Current(s) == Some(j) && s.loops[i].pc.Done?;
      }
    }
  }

  lemma StepKeepsLiveIsCur(s: State, step: Step)
    requires Inv(s) && LiveIsCur(s) && Enabled(s, step)
    ensures LiveIsCur(Do(s, step))
  {
    if step.ByLoop? {
      ActKeepsLiveIsCur(s, step.i, step.act);
    } else if Quiet(step) {
      QuietKeepsLoops(s, step);
    } else {
      var t := Do(s, step);
      forall j | 0 <= j < |s.loops| ensures t.loops[j].pc == s.loops[j].pc {
        OthersStay(s, step, j);
      }
      assert forall j :: |s.loops| <= j < |t.loops| ==> t.loops[j].pc.Choosing?;
    }
  }

  lemma {:induction false} RunKeepsLiveIsCur(s: State, steps: seq<Step>)
    requires Inv(s) && LiveIsCur(s) && IsRun(s, steps)
    ensures LiveIsCur(After(s, steps))
    decreases |steps|
  {
    if steps != [] {
      StepKeepsInv(s, steps[0]);
      StepKeepsLiveIsCur(s, steps[0]);
      RunKeepsLiveIsCur(Do(s, steps[0]), steps[1..]);
    }
  }

  /** In every state the daemon can reach: the line of a loop that supervises one is the
      line that is up; and the line that is up is of a loop that supervises it or is taking
      it down. */
  lemma LineUpIsTheLoops(stored: Option<Selection>, steps: seq<Step>, i: nat)
    requires IsRun(Fresh(stored), steps) && i < |After(Fresh(stored), steps).loops|
    ensures var s := After(Fresh(stored), steps);
            && (s.loops[i].pc.Live? ==> s.cur == Some(i))
            && (s.cur == Some(i) ==>
                  || s.loops[i].pc.Live? || s.loops[i].pc.ClosingFront? || s.loops[i].pc.ClosingEngine?
                  || s.loops[i].pc.ClearingRules? || s.loops[i].pc.Forgetting?)
  {
    FreshInv(stored);
    RunKeepsInv(Fresh(stored), steps);
    RunKeepsLiveIsCur(Fresh(stored), steps);
  }

  /** The switch is called on with a watcher exactly where the addresses can be watched; and
      a watcher that fires has the own-address rules in, however they were lost. */
  lemma SwitchIsWatched(s: State, watched: bool)
    requires Enabled(s, CallOn(watched))
    ensures var t := Do(s, CallOn(watched));
            && t.ksOn && (t.ksWatch <==> watched)
            && (watched ==> Enabled(t, SwitchWatcher) && Do(t.(ownIn := false), SwitchWatcher).ownIn)
  {
  }

  // ---------------------------------------------------------------------
  // A try that fails

  /** A step that ends a try: nothing started, no traffic through the engine, the pre-flight
      or the line, rules that could not be put in, or no front. */
  predicate Fails(act: Act) {
    match act
    case Unstarted => true
    case Confirm(ok) => !ok
    case EndPreflight(ok) => !ok
    case Sync(outcome) => outcome.Failed?
    case StartFront(ok) => !ok
    case _ => false
  }

  /** The loop has no line under way that it could call up. */
  predicate Down(pc: Pc) {
    || pc.Choosing? || pc.FailClear? || pc.FailStop? || pc.ClosingFront? || pc.ClosingEngine? || pc.ClearingRules?
    || pc.Forgetting? || pc.Leaving? || pc.Closing? || pc.Done?
  }

  lemma ActStaysDown(s: State, l: Loop, act: Act)
    requires CanAct(s, l, act) && !act.Look? && Down(l.pc)
    ensures Down(PcAfter(l, act))
  {
  }

  lemma StepStaysDown(s: State, step: Step, i: nat)
    requires Enabled(s, step) && step != ByLoop(i, Look) && i < |s.loops| && Down(s.loops[i].pc)
    ensures i < |Do(s, step).loops| && Down(Do(s, step).loops[i].pc)
  {
    if step.ByLoop? && step.i == i {
      ActStaysDown(s, s.loops[i], step.act);
      assert Do(s, step) == ActDone(s, i, step.act);
    } else {
      OthersStay(s, step, i);
    }
  }

  lemma {:induction false} RunStaysDown(s: State, steps: seq<Step>, i: nat)
    requires IsRun(s, steps) && i < |s.loops| && Down(s.loops[i].pc) && ByLoop(i, Look) !in steps
    ensures i < |After(s, steps).loops| && Down(After(s, steps).loops[i].pc)
    decreases |steps|
  {
    if steps != [] {
      StepStaysDown(s, steps[0], i);
      RunStaysDown(Do(s, steps[0]), steps[1..], i);
    }
  }

  /** A try that fails is over: however the run goes on, the loop calls no line up before it
      has looked at its context and chosen again. */
  lemma FailedTryIsOver(s: State, i: nat, act: Act, steps: seq<Step>)
    requires Enabled(s, ByLoop(i, act)) && Fails(act)
    requires IsRun(Do(s, ByLoop(i, act)), steps) && ByLoop(i, Look) !in steps
    ensures var t := After(Do(s, ByLoop(i, act)), steps);
            i < |t.loops| && !t.loops[i].pc.Live? && !Enabled(t, ByLoop(i, MarkUp))
  {
    RunStaysDown(Do(s, ByLoop(i, act)), steps, i);
  }

  // ---------------------------------------------------------------------
  // A line that comes up carried traffic

  /** The steps that saw traffic: through an engine or a front, or through the pre-flight. */
  predicate Proves(step: Step, i: nat) {
    step == ByLoop(i, Confirm(true)) || step == ByLoop(i, EndPreflight(true))
  }

  /** The loop has seen no traffic through what it is trying. */
  predicate Unseen(pc: Pc) {
    Down(pc) || pc.Chosen? || pc.EngineUp? || pc.Preflight?
  }

  predicate Unconfirmed(pc: Pc) {
    !pc.Confirmed? && !pc.Live?
  }

  lemma ActStaysUnseen(s: State, l: Loop, act: Act)
    requires CanAct(s, l, act) && act != Confirm(true)
    ensures Unconfirmed(l.pc) ==> Unconfirmed(PcAfter(l, act))
    ensures l.sel.tun && Unseen(l.pc) && act != EndPreflight(true) ==> Unseen(PcAfter(l, act))
  {
  }

  lemma StepStaysUnseen(s: State, step: Step, i: nat)
    requires Enabled(s, step) && i < |s.loops| && step != ByLoop(i, Confirm(true))
    ensures var t := Do(s, step);
            && i < |t.loops| && t.loops[i].sel == s.loops[i].sel
            && (Unconfirmed(s.loops[i].pc) ==> Unconfirmed(t.loops[i].pc))
            && (s.loops[i].sel.tun && Unseen(s.loops[i].pc) && !Proves(step, i) ==> Unseen(t.loops[i].pc))
  {
    if step.ByLoop? && step.i == i {
      ActStaysUnseen(s, s.loops[i], step.act);
      assert Do(s, step) == ActDone(s, i, step.act);
    } else {
      OthersStay(s, step, i);
    }
  }

  /** No line is called up that has not carried traffic: from wherever a loop has none that
      was confirmed, a run without a probe of its own that was answered comes to none. */
  lemma {:induction false} LineIsConfirmed(s: State, steps: seq<Step>, i: nat)
    requires IsRun(s, steps) && i < |s.loops| && Unconfirmed(s.loops[i].pc)
    requires ByLoop(i, Confirm(true)) !in steps
    ensures var t := After(s, steps);
            i < |t.loops| && Unconfirmed(t.loops[i].pc) && !Enabled(t, ByLoop(i, MarkUp))
    decreases |steps|
  {
    if steps != [] {
      StepStaysUnseen(s, steps[0], i);
      LineIsConfirmed(Do(s, steps[0]), steps[1..], i);
    }
  }

  /** And in tun mode not even a front is started before an engine or a pre-flight did: a
      line that does not work never takes the machine's routes. */
  lemma {:induction false} TunFrontIsProven(s: State, steps: seq<Step>, i: nat, ok: bool)
    requires IsRun(s, steps) && i < |s.loops| && s.loops[i].sel.tun && Unseen(s.loops[i].pc)
    requires forall step :: step in steps ==> !Proves(step, i)
    ensures var t := After(s, steps);
            i < |t.loops| && Unseen(t.loops[i].pc) && !Enabled(t, ByLoop(i, StartFront(ok)))
    decreases |steps|
  {
    if steps != [] {
      assert !Proves(steps[0], i);
      StepStaysUnseen(s, steps[0], i);
      TunFrontIsProven(Do(s, steps[0]), steps[1..], i, ok);
    }
  }

  // ---------------------------------------------------------------------
  // Connect requests that wait

  /** What a step adds to the requests that wait for the lock with a selection, and what it
      takes from them. */
  function Comes(step: Step, sel: Selection): (n: nat) {
    if step == Store(sel) then 1 else 0
  }

  function Goes(step: Step, sel: Selection): (n: nat) {
    if step == Acquire(Start(sel)) || step == Abandon(sel) then 1 else 0
  }

  function Came(steps: seq<Step>, sel: Selection): (n: nat) {
    if steps == [] then 0 else Comes(steps[0], sel) + Came(steps[1..], sel)
  }

  function Went(steps: seq<Step>, sel: Selection): (n: nat) {
    if steps == [] then 0 else Goes(steps[0], sel) + Went(steps[1..], sel)
  }

  lemma StepCounts(s: State, step: Step, sel: Selection)
    requires Enabled(s, step)
    ensures Do(s, step).waiting[sel] + Goes(step, sel) == s.waiting[sel] + Comes(step, sel)
  {
    WaitingIs(s, step);
    if Quiet(step) {
      WaitsOneMore(s, step, sel);
    }
  }

  lemma WaitsOneMore(s: State, step: Step, sel: Selection)
    requires Enabled(s, step)
    ensures WaitingAfter(s, step)[sel] + Goes(step, sel) == s.waiting[sel] + Comes(step, sel)
  {
  }

  lemma {:induction false} RunCounts(s: State, steps: seq<Step>, sel: Selection)
    requires IsRun(s, steps)
    ensures After(s, steps).waiting[sel] + Went(steps, sel) == s.waiting[sel] + Came(steps, sel)
    decreases |steps|
  {
    if steps != [] {
      StepCounts(s, steps[0], sel);
      RunCounts(Do(s, steps[0]), steps[1..], sel);
    }
  }

  /** Every connect request that stored its selection is waiting, has started it, or could
      not be saved and gave up: none is lost and none starts twice. */
  lemma RequestsAddUp(stored: Option<Selection>, steps: seq<Step>, sel: Selection)
    requires IsRun(Fresh(stored), steps)
    ensures After(Fresh(stored), steps).waiting[sel] == Came(steps, sel) - Went(steps, sel)
  {
    RunCounts(Fresh(stored), steps, sel);
  }
}
