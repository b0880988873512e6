/**
  The CLI daemon's connection as a machine of interleaved steps.  One control request
  or refresh at a time holds `connectMu`; the loops it started, the address watchers
  and the end of the daemon's context go on beside it.  Every state such steps can
  reach is shown to have at most one loop, the kill switch its selection asks for,
  at most one owner of the own-address rules, and every engine and front stopped once.
 */
module ConnectMachine {
  import opened Wrappers

  datatype Selection = Selection(selector: string, tun: bool, killSwitch: bool)

  predicate Guarded(sel: Selection) {
    sel.tun && sel.killSwitch
  }

  /** What a holder of `connectMu` is there for: a connect request's start, the look a
      refresh or the daemon's own start takes at the stored selection, or the end of it
      all, with the stored selection forgotten or not. */
  datatype Op = Start(sel: Selection) | Refresh | StopAll(forget: bool)

  /** How a sync of the own-address rules went; one that failed may have put rules in all
      the same. */
  datatype Outcome = Good | Failed(left: bool)

  /** Where the holder of `connectMu` is. */
  datatype Holder =
    | Free
    | Reading(op: Op)               // about to look at the stored selection
    | Taken(op: Op)                 // about to take the running loop's handle
    | Waiting(op: Op, id: nat)      // the loop is cancelled, its end is awaited
    | Stopped(op: Op)               // nothing of the old connection runs
    | SwitchIn(op: Op)              // the switch's rules are in, the own-address rules not yet
    | Rollback(op: Op)              // the own-address rules failed: the switch comes out again
    | OwnRulesIn(op: Op)            // about to watch the addresses and call the switch on
    | Unwatching(op: Op)            // the switch is called off, its watcher is being stopped
    | Clearing(op: Op)              // the own-address rules come out
    | SwitchOut(op: Op)             // the switch's rules come out
    | Settled(op: Op)               // the switch is as the operation wants it

  /** Where a connect loop is: choosing a line, past the look at its context that it takes
      before each, bringing one up, or on its way out of one. */
  datatype Pc =
    | Choosing | Chosen | EngineUp | Preflight | Proven | Wanting | Ready | FrontUp | Confirmed | Live
    | ClosingFront | ClosingEngine | ClearingRules | Forgetting
    | FailClear | FailStop
    | Leaving | Closing | Done

  /** A connect loop with what it holds: an engine, a front (the pre-flight's or the
      line's own), the own-address rules and their watcher. */
  datatype Loop = Loop(pc: Pc, sel: Selection, cancelled: bool,
                       engine: Option<nat>, front: Option<nat>, own: bool, watching: bool)

  datatype State = State(
    holder: Holder,
    handle: Option<nat>,      // cancel and loopDone
    loops: seq<Loop>,         // every loop ever started, by number
    loopLive: bool,
    cur: Option<nat>,         // the loop whose line is up
    ksOn: bool, ksWatch: bool,
    ksIn: bool, ownIn: bool,  // the kernel's rules: the switch's, the own addresses'
    next: nat,                // engines and fronts started so far
    stops: multiset<nat>,     // those stopped, as often as they were
    stored: Option<Selection>,    // the configuration's selection
    waiting: multiset<Selection>) // connect requests that stored theirs and have not started it

  datatype Act =
    | GiveUp | Look | StartEngine | StartPreflight | Unproven | Unstarted
    | Confirm(ok: bool) | EndPreflight(ok: bool)
    | Decide | Sync(outcome: Outcome) | StartFront(ok: bool) | ClearFailed | StopFailed
    | MarkUp | Watch | EndLine | CloseFront | StopEngine | ClearRules | Forget
    | EndLoop | CloseDone

  datatype Step =
    // the holder of connectMu
    | Acquire(op: Op) | Read(changed: bool) | TakeHandle | Awaited | InstallSwitch(ok: bool) | KeepSwitch
    | SyncSwitch(outcome: Outcome) | UndoSwitch | CallOn(watched: bool)
    | CallOff | LeaveOff | StopWatch | ClearOwn | RemoveSwitch | Spawn | Release
    // the i-th loop
    | ByLoop(i: nat, act: Act)
    // a connect request before it takes connectMu
    | Store(sel: Selection) | Abandon(sel: Selection)
    // everything else
    | SwitchWatcher | LineWatcher(i: nat) | ContextEnds(i: nat) | SwitchContextEnds

  /** A daemon that has just come up over a configuration. */
  function Fresh(stored: Option<Selection>): (s: State) {
    State(Free, None, [], false, None, false, false, false, false, 0, multiset{}, stored, multiset{})
  }

  // ---------------------------------------------------------------------
  // Steps

  predicate CanAct(s: State, l: Loop, act: Act) {
    match act
    case GiveUp => l.pc == Choosing
    case Look => l.pc == Choosing
    case StartEngine => l.pc == Chosen
    case StartPreflight => l.pc == Chosen && l.sel.tun
    case Unproven => l.pc == Chosen && !l.sel.tun
    case Unstarted => l.pc == Chosen
    case Confirm(_) => l.pc == EngineUp || l.pc == FrontUp
    case EndPreflight(_) => l.pc == Preflight
    case Decide => l.pc == Proven
    case Sync(outcome) => l.pc == Wanting && (l.own || outcome.Good?)
    case StartFront(_) => l.pc == Ready
    case ClearFailed => l.pc == FailClear
    case StopFailed => l.pc == FailStop
    case MarkUp => l.pc == Confirmed
    case Watch => l.pc == Live && l.own && !l.watching
    case EndLine => l.pc == Live
    case CloseFront => l.pc == ClosingFront
    case StopEngine => l.pc == ClosingEngine
    case ClearRules => l.pc == ClearingRules
    case Forget => l.pc == Forgetting
    case EndLoop => l.pc == Leaving
    case CloseDone => l.pc == Closing
  }

  predicate Enabled(s: State, step: Step) {
    match step
    case Acquire(op) => s.holder.Free? && (op.Start? ==> op.sel in s.waiting)
    case Read(_) => s.holder.Reading?
    case TakeHandle => s.holder.Taken?
    case Awaited => s.holder.Waiting? && s.holder.id < |s.loops| && s.loops[s.holder.id].pc == Done
    case InstallSwitch(_) => s.holder.Stopped? && s.holder.op.Start? && Guarded(s.holder.op.sel) && !s.ksOn
    case KeepSwitch => s.holder.Stopped? && s.holder.op.Start? && Guarded(s.holder.op.sel) && s.ksOn
    case SyncSwitch(_) => s.holder.SwitchIn?
    case UndoSwitch => s.holder.Rollback?
    case CallOn(_) => s.holder.OwnRulesIn?
    case CallOff => s.holder.Stopped? && (s.holder.op.Start? ==> !Guarded(s.holder.op.sel)) && s.ksOn
    case LeaveOff => s.holder.Stopped? && (s.holder.op.Start? ==> !Guarded(s.holder.op.sel)) && !s.ksOn
    case StopWatch => s.holder.Unwatching?
    case ClearOwn => s.holder.Clearing?
    case RemoveSwitch => s.holder.SwitchOut?
    case Spawn => s.holder.Settled? && s.holder.op.Start?
    case Release => s.holder.Settled? && s.holder.op.StopAll?
    case ByLoop(i, act) => i < |s.loops| && CanAct(s, s.loops[i], act)
    case Store(_) => true
    case Abandon(sel) => sel in s.waiting
    case SwitchWatcher => s.ksWatch
    case LineWatcher(i) => i < |s.loops| && s.loops[i].watching
    case ContextEnds(i) => i < |s.loops|
    case SwitchContextEnds => true
  }

  /** Where a loop is after its step. */
  function PcAfter(l: Loop, act: Act): (pc: Pc) {
    match act
    case GiveUp => Leaving
    case Look => if l.cancelled then Leaving else Chosen
    case StartEngine => EngineUp
    case StartPreflight => Preflight
    case Unproven => Proven
    case Unstarted => Choosing
    case Confirm(ok) =>
      if l.pc == EngineUp then if ok then Proven else FailStop
      else if ok then Confirmed else ClosingFront
    case EndPreflight(ok) => if ok then Proven else Choosing
    case Decide => Wanting
    case Sync(outcome) => if outcome.Good? then Ready else FailStop
    case StartFront(ok) => if ok then FrontUp else FailClear
    case ClearFailed => FailStop
    case StopFailed => Choosing
    case MarkUp => Live
    case Watch => Live
    case EndLine => ClosingFront
    case CloseFront => ClosingEngine
    case StopEngine => ClearingRules
    case ClearRules => Forgetting
    case Forget => Choosing
    case EndLoop => Closing
    case CloseDone => Done
  }

  /** What one step of a loop does to the loop. */
  function Moved(s: State, l: Loop, act: Act): (r: Loop) {
    Loop(
      PcAfter(l, act), l.sel, l.cancelled,
      if act.StartEngine? then Some(s.next)
      else if act.StopFailed? || act.StopEngine? then None
      else l.engine,
      if act.StartPreflight? || (act.StartFront? && act.ok) then Some(s.next)
      else if act.EndPreflight? || act.CloseFront? then None
      else l.front,
      if act.Decide? then l.sel.tun && !s.ksOn
      else l.own && !(act.Sync? && act.outcome.Failed?) && !act.ClearFailed? && !act.ClearRules?,
      act.Watch? || (l.watching && !act.EndLine?))
  }

  /** Whether the step starts an engine or a front. */
  predicate Starts(act: Act) {
    act.StartEngine? || act.StartPreflight? || (act.StartFront? && act.ok)
  }

  /** What the step stops. */
  function Stops(l: Loop, act: Act): (r: Option<nat>) {
    if act.EndPreflight? || act.CloseFront? then l.front
    else if act.StopFailed? || act.StopEngine? then l.engine
    else None
  }

  function AddStop(stops: multiset<nat>, r: Option<nat>): (m: multiset<nat>) {
    if r.Some? then stops + multiset{r.value} else stops
  }

  /** The own-address rules after the step of a loop that may own them. */
  function OwnAfter(ownIn: bool, l: Loop, act: Act): (r: bool) {
    if act.Sync? then ownIn || (l.own && (act.outcome.Good? || act.outcome.left))
    else if act.ClearFailed? || act.ClearRules? then ownIn && !l.own
    else ownIn
  }

  function CurAfter(cur: Option<nat>, i: nat, act: Act): (r: Option<nat>) {
    if act.MarkUp? then Some(i)
    else if act.Forget? && cur == Some(i) then None
    else cur
  }

  function ActDone(s: State, i: nat, act: Act): (r: State)
    requires i < |s.loops| && CanAct(s, s.loops[i], act)
  {
    var l := s.loops[i];
    s.(loops := s.loops[i := Moved(s, l, act)],
       loopLive := s.loopLive && !act.EndLoop?,
       cur := CurAfter(s.cur, i, act),
       ownIn := OwnAfter(s.ownIn, l, act),
       next := if Starts(act) then s.next + 1 else s.next,
       stops := AddStop(s.stops, Stops(l, act)))
  }

  /** Whether a look at the stored selection starts it: no loop runs, or the line that is
      up is another text in its list by now. */
  predicate Revives(s: State, changed: bool) {
    s.stored.Some? && (!s.loopLive || (s.cur.Some? && changed))
  }

  function StoredAfter(s: State, step: Step): (stored: Option<Selection>) {
    if step.Store? then Some(step.sel)
    else if step.Release? && s.holder.Settled? && s.holder.op == StopAll(true) then None
    else s.stored
  }

  function WaitingAfter(s: State, step: Step): (waiting: multiset<Selection>) {
    if step.Store? then s.waiting + multiset{step.sel}
    else if step.Abandon? then s.waiting - multiset{step.sel}
    else if step.Acquire? && step.op.Start? then s.waiting - multiset{step.op.sel}
    else s.waiting
  }

  predicate PutsIn(o: Outcome) {
    o.Good? || o.left
  }

  /** Where the holder goes with a step that leaves the loops alone. */
  function HolderAfter(s: State, step: Step): (h: Holder)
    requires Enabled(s, step)
  {
    match step
    case Acquire(op) => if op.Refresh? then Reading(op) else Taken(op)
    case Read(changed) => if Revives(s, changed) then Taken(Start(s.stored.value)) else Free
    case InstallSwitch(ok) => if ok then SwitchIn(s.holder.op) else Free
    case KeepSwitch => Settled(s.holder.op)
    case SyncSwitch(outcome) => if outcome.Good? then OwnRulesIn(s.holder.op) else Rollback(s.holder.op)
    case UndoSwitch => Free
    case CallOn(_) => Settled(s.holder.op)
    case CallOff => Unwatching(s.holder.op)
    case LeaveOff => Settled(s.holder.op)
    case StopWatch => Clearing(s.holder.op)
    case ClearOwn => SwitchOut(s.holder.op)
    case RemoveSwitch => Settled(s.holder.op)
    case Release => Free
    case _ => s.holder
  }

  /** The steps that leave the loops and who the current one is alone. */
  predicate Quiet(step: Step) {
    !step.ByLoop? && !step.TakeHandle? && !step.Awaited? && !step.Spawn? && !step.ContextEnds?
  }

  function QuietDone(s: State, step: Step): (r: State)
    requires Enabled(s, step)
  {
    s.(holder := HolderAfter(s, step),
       ksOn := (s.ksOn || step.CallOn?) && !step.CallOff?,
       ksWatch := step == CallOn(true) || (s.ksWatch && !step.CallOn? && !step.StopWatch? && !step.SwitchContextEnds?),
       ksIn := (s.ksIn || step == InstallSwitch(true)) && !step.UndoSwitch? && !step.RemoveSwitch?,
       ownIn := (s.ownIn || (step.SyncSwitch? && PutsIn(step.outcome)) || step.SwitchWatcher? || step.LineWatcher?)
                && !step.ClearOwn?,
       stored := StoredAfter(s, step),
       waiting := WaitingAfter(s, step))
  }

  /** A loop is told to end, which changes nothing of what it holds. */
  function Cancel(s: State, i: nat): (t: State)
    requires i < |s.loops|
  {
    s.(loops := s.loops[i := s.loops[i].(cancelled := true)])
  }

  function HandleTaken(s: State): (r: State)
    requires s.holder.Taken?
  {
    if s.handle.None? then s.(holder := Stopped(s.holder.op))
    else
      var id := s.handle.value;
      (if id < |s.loops| then Cancel(s, id) else s).(holder := Waiting(s.holder.op, id), handle := None)
  }

  function Spawned(s: State): (r: State)
    requires s.holder.Settled? && s.holder.op.Start?
  {
    s.(holder := Free, handle := Some(|s.loops|), loopLive := true,
       loops := s.loops + [Loop(Choosing, s.holder.op.sel, false, None, None, false, false)])
  }

  function Do(s: State, step: Step): (r: State)
    requires Enabled(s, step)
  {
    if step.ByLoop? then ActDone(s, step.i, step.act)
    else if step.TakeHandle? then HandleTaken(s)
    else if step.Awaited? then s.(holder := Stopped(s.holder.op))
    else if step.Spawn? then Spawned(s)
    else if step.ContextEnds? then Cancel(s, step.i)
    else QuietDone(s, step)
  }

  ghost predicate IsRun(s: State, steps: seq<Step>)
    decreases |steps|
  {
    steps == [] || (Enabled(s, steps[0]) && IsRun(Do(s, steps[0]), steps[1..]))
  }

  ghost function After(s: State, steps: seq<Step>): (r: State)
    requires IsRun(s, steps)
    decreases |steps|
  {
    if steps == [] then s else After(Do(s, steps[0]), steps[1..])
  }

  // ---------------------------------------------------------------------
  // The invariant

  /** The loop that may still run: the one whose end the holder awaits, or the one
      the daemon has the handle of. */
  function Current(s: State): (i: Option<nat>) {
    if s.holder.Waiting? then Some(s.holder.id) else s.handle
  }

  predicate Holds(l: Loop, r: nat) {
    l.engine == Some(r) || l.front == Some(r)
  }

  predicate Empty(l: Loop) {
    l.engine.None? && l.front.None? && !l.own && !l.watching
  }

  predicate MayHaveEngine(pc: Pc) {
    !(pc.Choosing? || pc.Chosen? || pc.Preflight? || pc.ClearingRules? || pc.Forgetting? || pc.Leaving? ||
        pc.Closing? || pc.Done?)
  }

  predicate HasFront(pc: Pc) {
    pc.Preflight? || pc.FrontUp? || pc.Confirmed? || pc.Live? || pc.ClosingFront?
  }

  predicate MayOwn(pc: Pc) {
    || pc.Wanting? || pc.Ready? || pc.FailClear? || pc.FrontUp? || pc.Confirmed? || pc.Live?
    || pc.ClosingFront? || pc.ClosingEngine? || pc.ClearingRules?
  }

  predicate MayBeCur(pc: Pc) {
    pc.Live? || pc.ClosingFront? || pc.ClosingEngine? || pc.ClearingRules? || pc.Forgetting?
  }

  /** What a loop holds where it is. */
  predicate LoopOk(l: Loop) {
    && (l.engine.Some? ==> MayHaveEngine(l.pc))
    && (l.front.Some? <==> HasFront(l.pc))
    && (l.engine.Some? && l.front.Some? ==> l.engine != l.front)
    && (l.own ==> l.sel.tun && MayOwn(l.pc))
    && (l.watching ==> l.own && l.pc.Live?)
  }

  predicate Installing(h: Holder) {
    h.SwitchIn? || h.Rollback? || h.OwnRulesIn?
  }

  predicate RemovingSwitch(h: Holder) {
    h.Unwatching? || h.Clearing? || h.SwitchOut?
  }

  /** The holder is past the end of the old loop and has not started a new one. */
  predicate Between(h: Holder) {
    h.Stopped? || h.Settled? || Installing(h) || RemovingSwitch(h)
  }

  /** One loop at most has not ended, and it is the current one. */
  ghost predicate OneLoop(s: State) {
    && (Between(s.holder) || s.holder.Waiting? ==> s.handle.None?)
    && (Current(s).Some? ==> Current(s).value < |s.loops|)
    && (forall i :: 0 <= i < |s.loops| && Current(s) != Some(i) ==> s.loops[i].pc == Done && Empty(s.loops[i]))
    && (forall i :: 0 <= i < |s.loops| ==> LoopOk(s.loops[i]))
    && (s.loopLive ==>
          && Current(s).Some?
          && !s.loops[Current(s).value].pc.Closing? && !s.loops[Current(s).value].pc.Done?)
  }

  predicate HeldNow(s: State, r: nat) {
    Current(s).Some? && Current(s).value < |s.loops| && Holds(s.loops[Current(s).value], r)
  }

  /** Every engine and front started is held by the current loop or was stopped,
      exactly once. */
  ghost predicate StoppedOnce(s: State) {
    && (forall r: nat :: HeldNow(s, r) ==> r < s.next)
    && (forall r: nat :: s.stops[r] == if r < s.next && !HeldNow(s, r) then 1 else 0)
  }

  /** The kernel has the switch's rules exactly when the switch is called on, but for
      the holder's own steps between the two; and the current loop's selection is
      what the switch is for. */
  ghost predicate SwitchOk(s: State)
    requires OneLoop(s)
  {
    && (s.ksOn ==> s.ksIn)
    && (Installing(s.holder) ==> !s.ksOn && s.ksIn && s.holder.op.Start? && Guarded(s.holder.op.sel))
    && (RemovingSwitch(s.holder) ==> !s.ksOn && s.ksIn && (s.holder.op.Start? ==> !Guarded(s.holder.op.sel)))
    && (s.holder.Settled? ==> (s.ksOn <==> s.holder.op.Start? && Guarded(s.holder.op.sel)))
    && (!Installing(s.holder) && !RemovingSwitch(s.holder) ==> s.ksIn == s.ksOn)
    && (Current(s).Some? && s.loops[Current(s).value].pc != Done ==>
          (s.ksOn <==> Guarded(s.loops[Current(s).value].sel)))
    && (s.ksWatch ==> s.ksOn || s.holder.Unwatching?)
  }

  predicate SwitchOwns(s: State) {
    s.ksOn || s.holder.OwnRulesIn? || s.holder.Unwatching? || s.holder.Clearing?
  }

  /** The line owns the rules, or is about to put them in. */
  predicate LineMeansTo(s: State) {
    Current(s).Some? && Current(s).value < |s.loops| && s.loops[Current(s).value].own
  }

  predicate LineOwns(s: State) {
    LineMeansTo(s) && s.loops[Current(s).value].pc != Wanting
  }

  ghost predicate OneOwner(s: State) {
    !(SwitchOwns(s) && LineMeansTo(s))
  }

  ghost predicate CurOk(s: State) {
    s.cur.Some? ==>
      && Current(s) == s.cur && s.cur.value < |s.loops|
      && MayBeCur(s.loops[s.cur.value].pc)
  }

  ghost predicate Inv(s: State) {
    OneLoop(s) && StoppedOnce(s) && SwitchOk(s) && OneOwner(s) && CurOk(s)
  }

  lemma FreshInv(stored: Option<Selection>)
    ensures Inv(Fresh(stored))
  {
  }

  // Steps of the holder and of the world around it

  lemma QuietKeepsLoops(s: State, step: Step)
    requires Enabled(s, step) && Quiet(step)
    ensures var t := Do(s, step);
            t == s.(holder := t.holder, ksOn := t.ksOn, ksWatch := t.ksWatch, ksIn := t.ksIn, ownIn := t.ownIn,
                    stored := t.stored, waiting := t.waiting)
  {
  }

  lemma QuietKeepsHolder(s: State, step: Step)
    requires Enabled(s, step) && Quiet(step)
    ensures var h := Do(s, step).holder;
            (h.Waiting? || s.holder.Waiting? ==> h == s.holder) && (Between(h) ==> Between(s.holder))
  {
  }

  lemma QuietKeepsInv(s: State, step: Step)
    requires Inv(s) && Enabled(s, step) && Quiet(step)
    ensures Inv(Do(s, step))
  {
    QuietKeepsLoops(s, step);
    QuietKeepsHolder(s, step);
    var t := Do(s, step);
    assert OneLoop(t);
    assert StoppedOnce(t) by {
      assert forall r: nat :: HeldNow(t, r) <==> HeldNow(s, r);
    }
    QuietKeepsSwitch(s, step);
  }

  lemma QuietKeepsSwitch(s: State, step: Step)
    requires Inv(s) && Enabled(s, step) && Quiet(step)
    requires OneLoop(Do(s, step))
    ensures SwitchOk(Do(s, step)) && OneOwner(Do(s, step))
  {
    QuietKeepsLoops(s, step);
    QuietKeepsHolder(s, step);
    assert LineMeansTo(Do(s, step)) == LineMeansTo(s);
  }

  lemma CancelKeepsOneLoop(s: State, i: nat)
    requires OneLoop(s) && i < |s.loops|
    ensures OneLoop(Cancel(s, i))
  {
    var t := Cancel(s, i);
    assert LoopOk(s.loops[i]) && LoopOk(t.loops[i]);
    assert forall j :: 0 <= j < |s.loops| && j != i ==> t.loops[j] == s.loops[j];
  }

  lemma CancelKeepsStoppedOnce(s: State, i: nat)
    requires StoppedOnce(s) && i < |s.loops|
    ensures StoppedOnce(Cancel(s, i))
  {
    var t := Cancel(s, i);
    assert forall j :: 0 <= j < |s.loops| && j != i ==> t.loops[j] == s.loops[j];
    assert forall r: nat :: HeldNow(t, r) <==> HeldNow(s, r);
  }

  lemma CancelKeepsInv(s: State, i: nat)
    requires Inv(s) && i < |s.loops|
    ensures Inv(Cancel(s, i))
  {
    CancelKeepsOneLoop(s, i);
    CancelKeepsStoppedOnce(s, i);
    var t := Cancel(s, i);
    assert forall j :: 0 <= j < |s.loops| ==> t.loops[j] == s.loops[j].(cancelled := t.loops[j].cancelled);
  }

  /** The loop whose handle is taken is the current one still. */
  lemma HandOverKeepsInv(s: State)
    requires Inv(s) && s.holder.Taken?
    ensures Inv(s.(holder := if s.handle.Some? then Waiting(s.holder.op, s.handle.value)
        else Stopped(s.holder.op), handle := None))
  {
    var t := s.(holder := if s.handle.Some? then Waiting(s.holder.op, s.handle.value)
        else Stopped(s.holder.op), handle := None);
    assert Current(t) == Current(s);
    assert forall r: nat :: HeldNow(t, r) <==> HeldNow(s, r);
  }

  lemma TakeHandleKeepsInv(s: State)
    requires Inv(s) && Enabled(s, TakeHandle)
    ensures Inv(Do(s, TakeHandle))
  {
    if s.handle.Some? {
      CancelKeepsInv(s, s.handle.value);
      HandOverKeepsInv(Cancel(s, s.handle.value));
    } else {
      HandOverKeepsInv(s);
    }
  }

  lemma AwaitedKeepsInv(s: State)
    requires Inv(s) && Enabled(s, Awaited)
    ensures Inv(Do(s, Awaited))
  {
    assert LoopOk(s.loops[s.holder.id]);
    var t := Do(s, Awaited);
    assert forall r: nat :: HeldNow(t, r) <==> HeldNow(s, r);
  }

  lemma SpawnKeepsOneLoop(s: State)
    requires OneLoop(s) && Enabled(s, Spawn)
    ensures OneLoop(Spawned(s))
  {
    var t := Spawned(s);
    assert forall i :: 0 <= i < |s.loops| ==> t.loops[i] == s.loops[i];
  }

  lemma SpawnKeepsStoppedOnce(s: State)
    requires OneLoop(s) && StoppedOnce(s) && Enabled(s, Spawn)
    ensures StoppedOnce(Spawned(s))
  {
    var t := Spawned(s);
    assert Current(t) == Some(|s.loops|) && Current(s).None?;
    assert forall r: nat :: HeldNow(t, r) <==> HeldNow(s, r);
  }

  lemma SpawnKeepsInv(s: State)
    requires Inv(s) && Enabled(s, Spawn)
    ensures Inv(Do(s, Spawn))
  {
    SpawnKeepsOneLoop(s);
    SpawnKeepsStoppedOnce(s);
  }

  // Steps of a loop

  /** Only the current loop can act. */
  lemma ActorIsCurrent(s: State, i: nat, act: Act)
    requires OneLoop(s) && Enabled(s, ByLoop(i, act))
    ensures Current(s) == Some(i) && LoopOk(s.loops[i])
  {
  }

  lemma MovedOk(s: State, l: Loop, act: Act)
    requires LoopOk(l) && CanAct(s, l, act)
    requires (l.engine.Some? ==> l.engine.value < s.next) && (l.front.Some? ==> l.front.value < s.next)
    ensures LoopOk(Moved(s, l, act))
  {
  }

  lemma MovedGoesOn(s: State, l: Loop, act: Act)
    requires CanAct(s, l, act) && !act.EndLoop? && !l.pc.Closing?
    ensures !Moved(s, l, act).pc.Closing? && !Moved(s, l, act).pc.Done?
  {
  }

  lemma HeldIsStarted(s: State, i: nat)
    requires OneLoop(s) && StoppedOnce(s) && Current(s) == Some(i)
    ensures var l := s.loops[i];
            (l.engine.Some? ==> l.engine.value < s.next) && (l.front.Some? ==> l.front.value < s.next)
  {
    var l := s.loops[i];
    assert l.engine.Some? ==> HeldNow(s, l.engine.value);
    assert l.front.Some? ==> HeldNow(s, l.front.value);
  }

  lemma LoopKeepsOneLoop(s: State, i: nat, act: Act)
    requires OneLoop(s) && StoppedOnce(s) && Enabled(s, ByLoop(i, act))
    ensures OneLoop(ActDone(s, i, act))
  {
    ActorIsCurrent(s, i, act);
    HeldIsStarted(s, i);
    MovedOk(s, s.loops[i], act);
    if !act.EndLoop? && !s.loops[i].pc.Closing? {
      MovedGoesOn(s, s.loops[i], act);
    }
    var t := ActDone(s, i, act);
    assert Current(t) == Some(i) && t.holder == s.holder && t.handle == s.handle;
    assert t.loops == s.loops[i := Moved(s, s.loops[i], act)];
  }

  lemma LoopKeepsStoppedOnce(s: State, i: nat, act: Act)
    requires OneLoop(s) && StoppedOnce(s) && Enabled(s, ByLoop(i, act))
    ensures StoppedOnce(ActDone(s, i, act))
  {
    ActorIsCurrent(s, i, act);
    HeldIsStarted(s, i);
    var l := s.loops[i];
    var t := ActDone(s, i, act);
    assert Current(t) == Some(i) && t.loops[i] == Moved(s, l, act);
    forall r: nat
      ensures HeldNow(t, r) ==> r < t.next
      ensures t.stops[r] == if r < t.next && !HeldNow(t, r) then 1 else 0
    {
      assert HeldNow(s, r) <==> Holds(l, r);
      assert HeldNow(t, r) <==> Holds(t.loops[i], r);
      HoldsAfter(s, l, act, r);
    }
  }

  /** A loop holds after a step what it held, plus what it started, less what it stopped. */
  lemma HoldsAfter(s: State, l: Loop, act: Act, r: nat)
    requires LoopOk(l) && CanAct(s, l, act)
    requires (l.engine.Some? ==> l.engine.value < s.next) && (l.front.Some? ==> l.front.value < s.next)
    ensures Holds(Moved(s, l, act), r) <==>
            (Holds(l, r) && Stops(l, act) != Some(r)) || (Starts(act) && r == s.next)
    ensures Stops(l, act).Some? ==> Holds(l, Stops(l, act).value)
  {
  }

  lemma LoopKeepsSwitch(s: State, i: nat, act: Act)
    requires Inv(s) && Enabled(s, ByLoop(i, act))
    requires OneLoop(ActDone(s, i, act))
    ensures SwitchOk(ActDone(s, i, act))
  {
    ActorIsCurrent(s, i, act);
    var t := ActDone(s, i, act);
    assert Current(t) == Some(i) && t.loops[i] == Moved(s, s.loops[i], act);
    assert t.loops[i].sel == s.loops[i].sel && !s.loops[i].pc.Done?;
  }

  lemma LoopKeepsOneOwner(s: State, i: nat, act: Act)
    requires Inv(s) && Enabled(s, ByLoop(i, act))
    ensures OneOwner(ActDone(s, i, act))
  {
    ActorIsCurrent(s, i, act);
    var t := ActDone(s, i, act);
    assert Current(t) == Some(i) && t.loops[i] == Moved(s, s.loops[i], act);
    assert LineMeansTo(s) == s.loops[i].own && LineMeansTo(t) == t.loops[i].own && SwitchOwns(t) == SwitchOwns(s);
    ActOwns(s, s.loops[i], act);
  }

  /** How a step of a loop changes whether it owns the rules. */
  lemma ActOwns(s: State, l: Loop, act: Act)
    requires LoopOk(l) && CanAct(s, l, act)
    ensures var m := Moved(s, l, act);
            && (m.own ==> l.own || (act.Decide? && !s.ksOn && l.sel.tun))
            && (m.own && m.pc == Wanting ==> act.Decide?)
            && (l.own && !m.own ==> (act.Sync? && act.outcome.Failed?) || act.ClearFailed? || act.ClearRules?)
            && (act.Sync? || act.Decide? ==> l.pc == (if act.Sync? then Wanting else Proven))
            && (act.Sync? && act.outcome.Good? ==> m.own == l.own && m.pc != Wanting)
            && (act.ClearFailed? || act.ClearRules? ==> !m.own && l.pc != Wanting)
            && (act.Decide? ==> !l.own)
  {
  }

  lemma LoopKeepsCur(s: State, i: nat, act: Act)
    requires Inv(s) && Enabled(s, ByLoop(i, act))
    ensures CurOk(ActDone(s, i, act))
  {
    ActorIsCurrent(s, i, act);
    var t := ActDone(s, i, act);
    assert Current(t) == Some(i) && t.loops[i] == Moved(s, s.loops[i], act);
  }

  lemma StepKeepsInv(s: State, step: Step)
    requires Inv(s) && Enabled(s, step)
    ensures Inv(Do(s, step))
  {
    if step.ByLoop? {
      LoopKeepsOneLoop(s, step.i, step.act);
      LoopKeepsStoppedOnce(s, step.i, step.act);
      LoopKeepsSwitch(s, step.i, step.act);
      LoopKeepsOneOwner(s, step.i, step.act);
      LoopKeepsCur(s, step.i, step.act);
    } else if step.TakeHandle? {
      TakeHandleKeepsInv(s);
    } else if step.Awaited? {
      AwaitedKeepsInv(s);
    } else if step.Spawn? {
      SpawnKeepsInv(s);
    } else if step.ContextEnds? {
      CancelKeepsInv(s, step.i);
    } else {
      QuietKeepsInv(s, step);
    }
  }

  lemma {:induction false} RunKeepsInv(s: State, steps: seq<Step>)
    requires Inv(s) && IsRun(s, steps)
    ensures Inv(After(s, steps))
    decreases |steps|
  {
    if steps != [] {
      StepKeepsInv(s, steps[0]);
      RunKeepsInv(Do(s, steps[0]), steps[1..]);
    }
  }

  // ---------------------------------------------------------------------
  // What holds in every state the daemon can reach

  /** At most one loop has not ended, at most one line is up, and the switch is in
      whenever it is called on; the running loop's selection is tun with the kill
      switch exactly when the switch is on. */
  lemma OneLoopAndItsSwitch(stored: Option<Selection>, steps: seq<Step>)
    requires IsRun(Fresh(stored), steps)
    ensures var s := After(Fresh(stored), steps);
            && (s.ksOn ==> s.ksIn)
            && (forall i, j | 0 <= i < |s.loops| && 0 <= j < |s.loops| ::
                  !s.loops[i].pc.Done? && !s.loops[j].pc.Done? ==> i == j)
            && (forall i :: 0 <= i < |s.loops| && !s.loops[i].pc.Done? ==> (s.ksOn <==> Guarded(s.loops[i].sel)))
            && (s.cur.Some? ==> s.cur.value < |s.loops| && !s.loops[s.cur.value].pc.Done?)
  {
    FreshInv(stored);
    RunKeepsInv(Fresh(stored), steps);
  }

  // Who owns the own-address rules

  /** Whether rules without an owner are in after a step: a sync that failed left some,
      and none has been good and none cleared since. */
  function LeftAfter(s: State, left: bool, step: Step): (r: bool)
    requires Enabled(s, step)
  {
    if step.SyncSwitch? then !step.outcome.Good? && (left || step.outcome.left)
    else if step.ClearOwn? then false
    else if step.ByLoop? && s.loops[step.i].own then
      if step.act.Sync? then !step.act.outcome.Good? && (left || step.act.outcome.left)
      else left && !step.act.ClearFailed? && !step.act.ClearRules?
    else left
  }

  /** The same over a run. */
  ghost function LeftBehind(s: State, left: bool, steps: seq<Step>): (r: bool)
    requires IsRun(s, steps)
    decreases |steps|
  {
    if steps == [] then left else LeftBehind(Do(s, steps[0]), LeftAfter(s, left, steps[0]), steps[1..])
  }

  ghost predicate Accounted(s: State, left: bool) {
    && (left ==> !SwitchOwns(s) && !LineOwns(s))
    && (s.ownIn <==> SwitchOwns(s) || LineOwns(s) || left)
  }

  lemma LoopAccounts(s: State, left: bool, i: nat, act: Act)
    requires Inv(s) && Accounted(s, left) && Enabled(s, ByLoop(i, act))
    ensures Accounted(ActDone(s, i, act), LeftAfter(s, left, ByLoop(i, act)))
  {
    ActorIsCurrent(s, i, act);
    var t := ActDone(s, i, act);
    assert Current(t) == Some(i) && t.loops[i] == Moved(s, s.loops[i], act);
    assert LineMeansTo(s) == s.loops[i].own && LineMeansTo(t) == t.loops[i].own && SwitchOwns(t) == SwitchOwns(s);
    ActOwns(s, s.loops[i], act);
  }

  lemma QuietAccounts(s: State, left: bool, step: Step)
    requires Inv(s) && Accounted(s, left) && Enabled(s, step) && Quiet(step)
    ensures Accounted(Do(s, step), LeftAfter(s, left, step))
  {
    QuietKeepsLoops(s, step);
    QuietKeepsHolder(s, step);
    assert LineOwns(Do(s, step)) == LineOwns(s);
    if step.LineWatcher? {
      assert LoopOk(s.loops[step.i]);
    }
  }

  lemma CancelAccounts(s: State, left: bool, i: nat)
    requires Accounted(s, left) && i < |s.loops|
    ensures Accounted(Cancel(s, i), left)
  {
    var t := Cancel(s, i);
    assert forall j :: 0 <= j < |s.loops| ==> t.loops[j] == s.loops[j].(cancelled := t.loops[j].cancelled);
  }

  lemma StepAccounts(s: State, left: bool, step: Step)
    requires Inv(s) && Accounted(s, left) && Enabled(s, step)
    ensures Accounted(Do(s, step), LeftAfter(s, left, step))
  {
    if step.ByLoop? {
      LoopAccounts(s, left, step.i, step.act);
    } else if Quiet(step) {
      QuietAccounts(s, left, step);
    } else if step.ContextEnds? {
      CancelAccounts(s, left, step.i);
    } else if step.TakeHandle? && s.handle.Some? {
      CancelAccounts(s, left, s.handle.value);
    } else if step.Awaited? {
      assert LoopOk(s.loops[s.holder.id]);
    }
  }

  lemma {:induction false} RunAccounts(s: State, left: bool, steps: seq<Step>)
    requires Inv(s) && Accounted(s, left) && IsRun(s, steps)
    ensures Accounted(After(s, steps), LeftBehind(s, left, steps))
    decreases |steps|
  {
    if steps != [] {
      StepKeepsInv(s, steps[0]);
      StepAccounts(s, left, steps[0]);
      RunAccounts(Do(s, steps[0]), LeftAfter(s, left, steps[0]), steps[1..]);
    }
  }

  /** The own-address rules never have two owners, the switch and the one line that put
      them in; the owner there is has them in; and they are in without an owner exactly
      when a sync that failed left some behind, with none good and none cleared since. */
  lemma OwnRulesHaveOneOwner(stored: Option<Selection>, steps: seq<Step>)
    requires IsRun(Fresh(stored), steps)
    ensures var s := After(Fresh(stored), steps);
            && !(SwitchOwns(s) && LineOwns(s))
            && (SwitchOwns(s) || LineOwns(s) ==> s.ownIn)
            && (s.ownIn && !SwitchOwns(s) && !LineOwns(s) <==> LeftBehind(Fresh(stored), false, steps))
            && (forall i :: 0 <= i < |s.loops| && s.loops[i].own ==> !SwitchOwns(s) && Current(s) == Some(i))
  {
    FreshInv(stored);
    RunKeepsInv(Fresh(stored), steps);
    RunAccounts(Fresh(stored), false, steps);
  }

  /** A run of one step more at its front. */
  lemma OneStepFirst(s: State, step: Step, t: State, rest: seq<Step>)
    requires Enabled(s, step) && t == Do(s, step) && IsRun(t, rest)
    ensures IsRun(s, [step] + rest) && After(s, [step] + rest) == After(t, rest)
  {
    assert ([step] + rest)[1..] == rest;
  }

  function Standing(h: Holder, ksIn: bool, ownIn: bool, sel: Selection, waits: bool): (s: State) {
    State(h, None, [], false, None, false, false, ksIn, ownIn, 0, multiset{}, Some(sel),
          if waits then multiset{sel} else multiset{})
  }

  /** From the end of the old loop on: the switch goes in, the sync fails, the switch
      comes out. */
  lemma FailedInstall(sel: Selection, steps: seq<Step>)
    requires Guarded(sel)
    requires steps == [InstallSwitch(true)] + ([SyncSwitch(Failed(true))] + ([UndoSwitch] + []))
    ensures IsRun(Standing(Stopped(Start(sel)), false, false, sel, false), steps)
    ensures After(Standing(Stopped(Start(sel)), false, false, sel, false), steps) ==
            Standing(Free, false, true, sel, false)
  {
    var op := Start(sel);
    var s3, s4 := Standing(Stopped(op), false, false, sel, false), Standing(SwitchIn(op), true, false, sel, false);
    var s5, s6 := Standing(Rollback(op), true, true, sel, false), Standing(Free, false, true, sel, false);
    OneStepFirst(s5, UndoSwitch, s6, []);
    OneStepFirst(s4, SyncSwitch(Failed(true)), s5, [UndoSwitch] + []);
    OneStepFirst(s3, InstallSwitch(true), s4, [SyncSwitch(Failed(true))] + ([UndoSwitch] + []));
  }

  /** A guarded start whose sync reports an error over rules it put in: the switch comes
      out again and the rules stay, nobody's. */
  lemma RulesWithoutAnOwner(sel: Selection, steps: seq<Step>)
    requires Guarded(sel)
    requires steps == [Store(sel)] + ([Acquire(Start(sel))] + ([TakeHandle] + ([InstallSwitch(true)] +
                      ([SyncSwitch(Failed(true))] + ([UndoSwitch] + [])))))
    ensures IsRun(Fresh(None), steps)
    ensures var s := After(Fresh(None), steps);
            s.ownIn && !s.ksIn && !SwitchOwns(s) && !LineOwns(s) && s.holder.Free? && s.loops == []
  {
    var op := Start(sel);
    var s1, s2 := Standing(Free, false, false, sel, true), Standing(Taken(op), false, false, sel, false);
    var s3 := Standing(Stopped(op), false, false, sel, false);
    var rest := [InstallSwitch(true)] + ([SyncSwitch(Failed(true))] + ([UndoSwitch] + []));
    FailedInstall(sel, rest);
    OneStepFirst(s2, TakeHandle, s3, rest);
    assert multiset{sel} - multiset{sel} == multiset{};
    OneStepFirst(s1, Acquire(op), s2, [TakeHandle] + rest);
    OneStepFirst(Fresh(None), Store(sel), s1, [Acquire(op)] + ([TakeHandle] + rest));
  }

  /** An engine or a front is never stopped twice, and one that was not stopped is
      held by the one loop that still runs. */
  lemma NothingLeaks(stored: Option<Selection>, steps: seq<Step>, r: nat)
    requires IsRun(Fresh(stored), steps)
    ensures var s := After(Fresh(stored), steps);
            && s.stops[r] <= 1 && (r >= s.next ==> s.stops[r] == 0)
            && (r < s.next && s.stops[r] == 0 ==>
                  exists i :: 0 <= i < |s.loops| && Holds(s.loops[i], r) && !s.loops[i].pc.Done?)
  {
    FreshInv(stored);
    RunKeepsInv(Fresh(stored), steps);
    var s := After(Fresh(stored), steps);
    if r < s.next && s.stops[r] == 0 {
      var i := Current(s).value;
      assert HeldNow(s, r) && Holds(s.loops[i], r);
      assert LoopOk(s.loops[i]);
    }
  }

  /** Once the holder is past the end of the old loop nothing of the old connection
      runs: no loop, no line, no watcher of a line, and every engine and front that
      was ever started has been stopped exactly once. */
  lemma StopLeavesNothing(stored: Option<Selection>, steps: seq<Step>)
    requires IsRun(Fresh(stored), steps)
    requires Between(After(Fresh(stored), steps).holder)
    ensures var s := After(Fresh(stored), steps);
            && !s.loopLive && s.cur.None?
            && (forall i :: 0 <= i < |s.loops| ==> s.loops[i].pc.Done? && Empty(s.loops[i]))
            && (forall r: nat :: s.stops[r] == if r < s.next then 1 else 0)
  {
    FreshInv(stored);
    RunKeepsInv(Fresh(stored), steps);
    var s := After(Fresh(stored), steps);
    assert Current(s).None?;
    assert forall r: nat :: !HeldNow(s, r);
  }

  // ---------------------------------------------------------------------
  // When the switch opens

  /** Every connect in the run asks for the switch, and nothing is stopped for good. */
  ghost predicate OnlyGuardedConnects(steps: seq<Step>) {
    forall i :: 0 <= i < |steps| ==>
      (steps[i].Store? ==> Guarded(steps[i].sel)) && (steps[i].Acquire? ==> !steps[i].op.StopAll?)
  }

  predicate GuardedHolder(h: Holder) {
    h.Free? || h.Reading? || (h.op.Start? && Guarded(h.op.sel))
  }

  /** Whoever may start next starts with the switch: the holder, a connect that waits, and
      a refresh, which starts what is stored. */
  ghost predicate AllGuarded(s: State) {
    && GuardedHolder(s.holder)
    && (s.stored.Some? ==> Guarded(s.stored.value))
    && (forall sel :: sel in s.waiting ==> Guarded(sel))
  }

  // Where what may be started comes from

  lemma WaitingIs(s: State, step: Step)
    requires Enabled(s, step)
    ensures Do(s, step).waiting == if Quiet(step) then WaitingAfter(s, step) else s.waiting
  {
    if step.ByLoop? {
      assert Do(s, step) == ActDone(s, step.i, step.act);
    } else if Quiet(step) {
      assert Do(s, step) == QuietDone(s, step);
    }
  }

  lemma WaitingComesFrom(s: State, step: Step, sel: Selection)
    requires Enabled(s, step) && sel in Do(s, step).waiting
    ensures sel in s.waiting || step == Store(sel)
  {
    WaitingIs(s, step);
  }

  lemma StoredComesFrom(s: State, step: Step)
    requires Enabled(s, step)
    ensures var t := Do(s, step); t.stored == s.stored || t.stored.None? || (step.Store? && t.stored == Some(step.sel))
  {
    assert Do(s, step).stored == if Quiet(step) then StoredAfter(s, step) else s.stored;
  }

  predicate Begins(h: Holder, sel: Selection) {
    !h.Free? && h.op == Start(sel)
  }

  lemma QuietHolderComesFrom(s: State, step: Step, sel: Selection)
    requires Enabled(s, step) && Begins(HolderAfter(s, step), sel)
    ensures Begins(s.holder, sel) || sel in s.waiting || s.stored == Some(sel)
  {
  }

  lemma HolderComesFrom(s: State, step: Step, sel: Selection)
    requires Enabled(s, step) && Begins(Do(s, step).holder, sel)
    ensures Begins(s.holder, sel) || sel in s.waiting || s.stored == Some(sel)
  {
    if Quiet(step) {
      QuietHolderComesFrom(s, step, sel);
    }
  }

  function LoopsAfter(s: State, step: Step): (loops: seq<Loop>)
    requires Enabled(s, step)
  {
    if step.ByLoop? then s.loops[step.i := Moved(s, s.loops[step.i], step.act)]
    else if step.Spawn? then s.loops + [Loop(Choosing, s.holder.op.sel, false, None, None, false, false)]
    else if step.ContextEnds? then Cancel(s, step.i).loops
    else if step.TakeHandle? && s.handle.Some? && s.handle.value < |s.loops| then Cancel(s, s.handle.value).loops
    else s.loops
  }

  lemma LoopsAre(s: State, step: Step)
    requires Enabled(s, step)
    ensures Do(s, step).loops == LoopsAfter(s, step)
  {
  }

  lemma LoopComesFrom(s: State, step: Step, i: nat)
    requires Enabled(s, step) && i < |LoopsAfter(s, step)|
    ensures var sel := LoopsAfter(s, step)[i].sel;
            if i < |s.loops| then sel == s.loops[i].sel else Begins(s.holder, sel)
  {
  }

  lemma LoopsGrow(s: State, step: Step)
    requires Enabled(s, step)
    ensures |s.loops| <= |Do(s, step).loops|
  {
    LoopsAre(s, step);
  }

  lemma StepStaysGuarded(s: State, step: Step)
    requires Enabled(s, step) && AllGuarded(s)
    requires step.Store? ==> Guarded(step.sel)
    requires step.Acquire? ==> !step.op.StopAll?
    ensures AllGuarded(Do(s, step))
  {
    var t := Do(s, step);
    HolderStaysGuarded(s, step);
    StoredComesFrom(s, step);
    forall sel | sel in t.waiting ensures Guarded(sel) {
      WaitingComesFrom(s, step, sel);
    }
  }

  lemma HolderStaysGuarded(s: State, step: Step)
    requires Enabled(s, step) && AllGuarded(s)
    requires step.Acquire? ==> !step.op.StopAll?
    ensures GuardedHolder(Do(s, step).holder)
  {
    if Quiet(step) {
      QuietHolderStaysGuarded(s, step);
    }
  }

  lemma QuietHolderStaysGuarded(s: State, step: Step)
    requires Enabled(s, step) && AllGuarded(s)
    requires step.Acquire? ==> !step.op.StopAll?
    ensures GuardedHolder(HolderAfter(s, step))
  {
  }

  /** Only an operation that is not a start with the switch calls it off. */
  lemma OnlyOthersOpen(s: State, step: Step)
    requires Inv(s) && Enabled(s, step) && s.ksOn && GuardedHolder(s.holder)
    ensures Do(s, step).ksOn && Do(s, step).ksIn
  {
    StepKeepsInv(s, step);
  }

  /** Failover, a failed resolution, a refresh whatever it finds, or a connect that moves
      from one selection with the switch to another never opens it, at any step between. */
  lemma {:induction false} SwitchStaysShut(s: State, steps: seq<Step>)
    requires Inv(s) && IsRun(s, steps)
    requires s.ksOn && AllGuarded(s) && OnlyGuardedConnects(steps)
    ensures After(s, steps).ksOn && After(s, steps).ksIn
    decreases |steps|
  {
    if steps != [] {
      StepKeepsInv(s, steps[0]);
      OnlyOthersOpen(s, steps[0]);
      StepStaysGuarded(s, steps[0]);
      assert OnlyGuardedConnects(steps[1..]) by {
        assert forall i :: 0 <= i < |steps[1..]| ==> steps[1..][i] == steps[i + 1];
      }
      SwitchStaysShut(Do(s, steps[0]), steps[1..]);
    }
  }

  // ---------------------------------------------------------------------
  // What is started

  /** Loops from `base` on, and whoever may start one, are for these selections. */
  ghost predicate OnlyThese(s: State, base: nat, these: set<Selection>) {
    && (s.stored.Some? ==> s.stored.value in these)
    && (forall sel :: sel in s.waiting ==> sel in these)
    && (!s.holder.Free? && s.holder.op.Start? ==> s.holder.op.sel in these)
    && (forall i :: base <= i < |s.loops| ==> s.loops[i].sel in these)
  }

  ghost function StoredIn(steps: seq<Step>): (r: set<Selection>)
    ensures forall sel :: sel in r <==> exists i :: 0 <= i < |steps| && steps[i] == Store(sel)
  {
    set i | 0 <= i < |steps| && steps[i].Store? :: steps[i].sel
  }

  lemma StepStartsThese(s: State, base: nat, these: set<Selection>, step: Step)
    requires Enabled(s, step) && OnlyThese(s, base, these) && base <= |s.loops|
    ensures var more := if step.Store? then {step.sel} else {};
            OnlyThese(Do(s, step), base, these + more)
  {
    var t := Do(s, step);
    StoredComesFrom(s, step);
    forall sel | sel in t.waiting ensures sel in these || step == Store(sel) {
      WaitingComesFrom(s, step, sel);
    }
    if !t.holder.Free? && t.holder.op.Start? {
      HolderComesFrom(s, step, t.holder.op.sel);
    }
    LoopsAre(s, step);
    forall i | base <= i < |t.loops| ensures t.loops[i].sel in these {
      LoopComesFrom(s, step, i);
    }
  }

  lemma {:induction false} RunStartsThese(s: State, base: nat, these: set<Selection>, steps: seq<Step>)
    requires IsRun(s, steps) && OnlyThese(s, base, these) && base <= |s.loops|
    ensures OnlyThese(After(s, steps), base, these + StoredIn(steps))
    decreases |steps|
  {
    if steps == [] {
      assert StoredIn(steps) == {};
      assert these + {} == these;
    } else {
      var more := if steps[0].Store? then {steps[0].sel} else {};
      StepStartsThese(s, base, these, steps[0]);
      LoopsGrow(s, steps[0]);
      RunStartsThese(Do(s, steps[0]), base, these + more, steps[1..]);
      StoredCons(steps);
      assert these + more + StoredIn(steps[1..]) == these + StoredIn(steps);
    }
  }

  lemma StoredCons(steps: seq<Step>)
    requires steps != []
    ensures StoredIn(steps) == (if steps[0].Store? then {steps[0].sel} else {}) + StoredIn(steps[1..])
  {
    var tail := steps[1..];
    assert forall i :: 1 <= i < |steps| ==> steps[i] == tail[i - 1];
    forall sel | sel in StoredIn(tail) ensures sel in StoredIn(steps) {
      var i :| 0 <= i < |tail| && tail[i] == Store(sel);
      assert steps[i + 1] == Store(sel);
    }
  }

  /** A refresh and the daemon's own start begin only what is stored when they look, and
      so every loop is for the selection the daemon came up with or one a connect stored. */
  lemma EveryLoopWasStored(stored: Option<Selection>, steps: seq<Step>, i: nat)
    requires IsRun(Fresh(stored), steps) && i < |After(Fresh(stored), steps).loops|
    ensures var sel := After(Fresh(stored), steps).loops[i].sel; stored == Some(sel) || sel in StoredIn(steps)
  {
    RunStartsThese(Fresh(stored), 0, if stored.Some? then {stored.value} else {}, steps);
  }

  /** Once the selection is forgotten no refresh revives it: of the loops started after,
      until a connect stores another, each is of a connect that had stored its own before
      and was waiting. */
  lemma ForgottenStaysForgotten(s: State, steps: seq<Step>)
    requires IsRun(s, steps) && StoredIn(steps) == {}
    requires s.stored.None? && s.holder.Free?
    ensures var t := After(s, steps);
            && t.stored.None?
            && (forall i :: |s.loops| <= i < |t.loops| ==> t.loops[i].sel in s.waiting)
            && (s.waiting == multiset{} ==> |t.loops| == |s.loops|)
  {
    var these := set sel | sel in s.waiting;
    RunStartsThese(s, |s.loops|, these, steps);
    StaysNone(s, steps);
    var t := After(s, steps);
    LoopsOnlyGrow(s, steps);
    assert these + {} == these;
    if |t.loops| > |s.loops| {
      assert t.loops[|s.loops|].sel in these;
    }
  }

  lemma {:induction false} StaysNone(s: State, steps: seq<Step>)
    requires IsRun(s, steps) && StoredIn(steps) == {} && s.stored.None?
    ensures After(s, steps).stored.None?
    decreases |steps|
  {
    if steps != [] {
      StoredCons(steps);
      StaysNone(Do(s, steps[0]), steps[1..]);
    }
  }

  lemma {:induction false} LoopsOnlyGrow(s: State, steps: seq<Step>)
    requires IsRun(s, steps)
    ensures |After(s, steps).loops| >= |s.loops|
    decreases |steps|
  {
    if steps != [] {
      LoopsGrow(s, steps[0]);
      LoopsOnlyGrow(Do(s, steps[0]), steps[1..]);
    }
  }

  function Plain(h: Holder, sel: Selection, kept: bool, waits: bool): (s: State) {
    State(h, None, [], false, None, false, false, false, false, 0, multiset{}, if kept then Some(sel) else None,
          if waits then multiset{sel} else multiset{})
  }

  /** The end of a stop that forgets, over a connect that waits. */
  lemma EndOfForgettingStop(sel: Selection, rest: seq<Step>)
    requires IsRun(Plain(Free, sel, false, true), rest)
    ensures var s, steps := Plain(Stopped(StopAll(true)), sel, true, true), [LeaveOff] + ([Release] + rest);
            IsRun(s, steps) && After(s, steps) == After(Plain(Free, sel, false, true), rest)
  {
    var stop := StopAll(true);
    var s3, s4 := Plain(Stopped(stop), sel, true, true), Plain(Settled(stop), sel, true, true);
    OneStepFirst(s4, Release, Plain(Free, sel, false, true), rest);
    OneStepFirst(s3, LeaveOff, s4, [Release] + rest);
  }

  /** A stop that forgets, over a connect that waits. */
  lemma ForgettingStop(sel: Selection, rest: seq<Step>)
    requires IsRun(Plain(Free, sel, false, true), rest)
    ensures var s := Plain(Free, sel, true, true);
            var steps := [Acquire(StopAll(true))] + ([TakeHandle] + ([LeaveOff] + ([Release] + rest)));
            IsRun(s, steps) && After(s, steps) == After(Plain(Free, sel, false, true), rest)
  {
    var stop, end := StopAll(true), [LeaveOff] + ([Release] + rest);
    var s1, s2 := Plain(Free, sel, true, true), Plain(Taken(stop), sel, true, true);
    EndOfForgettingStop(sel, rest);
    OneStepFirst(s2, TakeHandle, Plain(Stopped(stop), sel, true, true), end);
    OneStepFirst(s1, Acquire(stop), s2, [TakeHandle] + end);
  }

  /** A connect that waited takes its turn. */
  lemma StartOfTheWaiting(sel: Selection)
    requires !Guarded(sel)
    ensures var s := Plain(Free, sel, false, true);
            var steps := [Acquire(Start(sel))] + ([TakeHandle] + ([LeaveOff] + ([Spawn] + [])));
            && IsRun(s, steps)
            && var t := After(s, steps);
            t.loopLive && |t.loops| == 1 && t.loops[0].sel == sel && t.stored.None? && t.waiting == multiset{}
  {
    var start := Start(sel);
    var s5, s6 := Plain(Free, sel, false, true), Plain(Taken(start), sel, false, false);
    var s7, s8 := Plain(Stopped(start), sel, false, false), Plain(Settled(start), sel, false, false);
    OneStepFirst(s8, Spawn, Do(s8, Spawn), []);
    OneStepFirst(s7, LeaveOff, s8, [Spawn] + []);
    OneStepFirst(s6, TakeHandle, s7, [LeaveOff] + ([Spawn] + []));
    assert multiset{sel} - multiset{sel} == multiset{};
    OneStepFirst(s5, Acquire(start), s6, [TakeHandle] + ([LeaveOff] + ([Spawn] + [])));
  }

  /** And such a connect there can be: it stores its selection before it takes the lock, a
      stop that holds the lock forgets it, and the loop runs for a selection that is stored
      nowhere. */
  lemma StartedAndForgotten(sel: Selection, steps: seq<Step>)
    requires !Guarded(sel)
    requires steps == [Store(sel)] + ([Acquire(StopAll(true))] + ([TakeHandle] + ([LeaveOff] + ([Release] +
                      ([Acquire(Start(sel))] + ([TakeHandle] + ([LeaveOff] + ([Spawn] + []))))))))
    ensures IsRun(Fresh(None), steps)
    ensures var s := After(Fresh(None), steps);
            s.loopLive && |s.loops| == 1 && s.loops[0].sel == sel && s.stored.None? && s.waiting == multiset{}
  {
    var rest := [Acquire(Start(sel))] + ([TakeHandle] + ([LeaveOff] + ([Spawn] + [])));
    StartOfTheWaiting(sel);
    ForgettingStop(sel, rest);
    var s1 := Plain(Free, sel, true, true);
    var stopped := [Acquire(StopAll(true))] + ([TakeHandle] + ([LeaveOff] + ([Release] + rest)));
    OneStepFirst(Fresh(None), Store(sel), s1, stopped);
  }
}
