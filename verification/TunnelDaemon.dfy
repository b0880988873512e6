/**
  The macOS root daemon as a machine (desktopApp/tunneldaemon): requests served one at a
  time under the daemon's lock, interleaved at every point with the tunnel child's death
  and the handler that tells of it.  Beside the child stand the system's resolver key and
  the kill switch's block, which are the kernel's.
 */
module TunnelDaemon {
  import opened Wrappers

  /** A child's termination handler: not called yet, called and silent because nobody
      was to be told, waiting for the daemon's lock with the news, or done. */
  datatype Handler = Waiting | Silent | Queued | Handled

  datatype Task = Task(alive: bool, handler: Handler, behind: bool)

  /** A request as handled; `Refused` stands for every request that changes nothing, and
      `Replaced` for one that found a newer daemon on disk. */
  datatype Request =
    | Start(hold: bool, names: bool)
    | Stop(keep: bool)
    | Release
    | Refused
    | Replaced(release: bool)
    | ShutDown

  /** What the holder of the daemon's lock does next. */
  datatype Pc =
    | Idle
    | StopTake | StopKill | StopRestore
    | Holding | InnerTake | InnerKill | Preparing | Running | Assigning | Checking | Asking | FailTake | FailKill
    | Dropping | Replying
    | Gone

  datatype State = State(
    pc: Pc,
    request: Request,
    tasks: seq<Task>,
    process: Option<nat>, // the child's reference to its process
    mine: nat,            // the task the request at work has run
    taken: Option<nat>,   // the task a stop took and is ending
    key: Option<nat>,     // the resolver key, and the task it was set for
    block: bool,          // the rules, as pf has them
    stands: bool)         // the rules, as the daemon remembers them

  /** One step of the daemon, or of the world: `Act` does what the counter says, well or
      not; a child dies; its handler runs; the news of it gets the lock; the daemon is
      started anew, after it left or was killed. */
  datatype Step = Asked(r: Request) | Act(ok: bool) | Dies(t: nat) | Ended(t: nat) | Notice(t: nat) | Restarted

  predicate IsRunning(s: State) {
    s.process.Some? && s.process.value < |s.tasks| && s.tasks[s.process.value].alive
  }

  predicate Enabled(s: State, step: Step) {
    match step
    case Asked(_) => s.pc.Idle?
    case Act(_) => !s.pc.Idle? && !s.pc.Gone?
    case Dies(t) => !s.pc.Gone? && t < |s.tasks| && s.tasks[t].alive
    case Ended(t) => !s.pc.Gone? && t < |s.tasks| && !s.tasks[t].alive && s.tasks[t].handler.Waiting?
    case Notice(t) => s.pc.Idle? && t < |s.tasks| && s.tasks[t].handler.Queued?
    case Restarted => true
  }

  // ---------------------------------------------------------------------
  // Requests

  function FirstPc(r: Request): (pc: Pc) {
    match r
    case Release => Dropping
    case Refused => Replying
    case _ => StopTake
  }

  function AfterStop(r: Request): (pc: Pc) {
    if r.Start? then Holding
    else if r.ShutDown? || r == Stop(false) || r == Replaced(true) then Dropping
    else Replying
  }

  predicate WantsHold(r: Request) {
    r.Start? && r.hold
  }

  predicate WantsNames(r: Request) {
    r.Start? && r.names
  }

  function NextPc(s: State, ok: bool): (pc: Pc) {
    match s.pc
    case Idle => Idle
    case StopTake => StopKill
    case StopKill => StopRestore
    case StopRestore => AfterStop(s.request)
    case Holding => if ok || !WantsHold(s.request) then InnerTake else Replying
    case InnerTake => InnerKill
    case InnerKill => Preparing
    case Preparing => if ok then Running else Replying
    case Running => if ok then Assigning else Replying
    case Assigning => Checking
    case Checking => if IsRunning(s) && WantsNames(s.request) then Asking else Replying
    case Asking => if ok then Replying else FailTake
    case FailTake => FailKill
    case FailKill => Replying
    case Dropping => if s.request.ShutDown? then Gone else Replying
    case Replying => if s.request.Replaced? then Gone else Idle
    case Gone => Gone
  }

  /** The rules after the counter's step: a hold is loaded over the one that stands; one
      that cannot be is taken away; a start without a hold takes away one it knows of. */
  function NextBlock(s: State, ok: bool): (block: bool) {
    if s.pc.Holding? then
      if WantsHold(s.request) then ok else s.block && !s.stands
    else s.block && !s.pc.Dropping?
  }

  function NextStands(s: State, ok: bool): (stands: bool) {
    if s.pc.Holding? then WantsHold(s.request) && ok
    else if s.pc.Dropping? then false
    else if s.pc.Replying? && !IsRunning(s) then s.block
    else s.stands
  }

  predicate Takes(pc: Pc) {
    pc.StopTake? || pc.InnerTake? || pc.FailTake?
  }

  predicate Kills(pc: Pc) {
    pc.StopKill? || pc.InnerKill? || pc.FailKill?
  }

  /** The child a stop ends: the one referred to, where it runs. */
  function NextTaken(s: State): (taken: Option<nat>) {
    if Takes(s.pc) then if IsRunning(s) then s.process else None
    else if Kills(s.pc) then None
    else s.taken
  }

  /** A stop asks the task it took to end, waits, and kills it if it must: either way it
      is dead when the stop goes on. */
  function NextTasks(s: State, ok: bool): (tasks: seq<Task>) {
    if s.pc.Running? && ok then s.tasks + [Task(true, Waiting, WantsHold(s.request))]
    else if Kills(s.pc) && s.taken.Some? && s.taken.value < |s.tasks| then
      s.tasks[s.taken.value := s.tasks[s.taken.value].(alive := false)]
    else s.tasks
  }

  function NextProcess(s: State): (process: Option<nat>) {
    if Takes(s.pc) then None
    else if s.pc.Assigning? then Some(s.mine)
    else s.process
  }

  function NextKey(s: State, ok: bool): (key: Option<nat>) {
    if s.pc.StopRestore? then None
    else if s.pc.Asking? && ok then Some(s.mine)
    else s.key
  }

  function DoAct(s: State, ok: bool): (t: State) {
    var runs := s.pc.Running? && ok;
    State(
      NextPc(s, ok),
      s.request,
      NextTasks(s, ok),
      NextProcess(s),
      if runs then |s.tasks| else s.mine,
      NextTaken(s),
      NextKey(s, ok),
      NextBlock(s, ok),
      NextStands(s, ok))
  }

  // ---------------------------------------------------------------------
  // The child's death

  function DoDies(s: State, t: nat): (r: State)
    requires t < |s.tasks|
  {
    s.(tasks := s.tasks[t := s.tasks[t].(alive := false)])
  }

  /** Unless a stop took the child first, nobody asked it to go. */
  function DoEnded(s: State, t: nat): (r: State)
    requires t < |s.tasks|
  {
    var unasked := s.process == Some(t);
    s.(tasks := s.tasks[t := s.tasks[t].(handler := if unasked then Queued else Silent)],
       process := if unasked then None else s.process)
  }

  function DoNotice(s: State, t: nat): (r: State)
    requires t < |s.tasks|
  {
    s.(tasks := s.tasks[t := s.tasks[t].(handler := Handled)],
       key := if IsRunning(s) then s.key else None)
  }

  /** A daemon that starts takes a key away that was left, and asks pf for the block. */
  function DoRestarted(s: State): (r: State) {
    State(Idle, Refused, [], None, 0, None, None, s.block, s.block)
  }

  function Next(s: State, step: Step): (t: State)
    requires Enabled(s, step)
  {
    match step
    case Asked(r) => s.(pc := FirstPc(r), request := r)
    case Act(ok) => DoAct(s, ok)
    case Dies(t) => DoDies(s, t)
    case Ended(t) => DoEnded(s, t)
    case Notice(t) => DoNotice(s, t)
    case Restarted => DoRestarted(s)
  }

  /** The states a run goes through. */
  ghost predicate IsRun(states: seq<State>, steps: seq<Step>) {
    && |states| == |steps| + 1
    && forall i :: 0 <= i < |steps| ==> Enabled(states[i], steps[i]) && states[i + 1] == Next(states[i], steps[i])
  }

  predicate Initial(s: State) {
    s == State(Idle, Refused, [], None, 0, None, None, s.block, s.block)
  }

  // ---------------------------------------------------------------------
  // The invariant

  /** The child runs, or died and its death will be heard of, or is waiting to be. */
  predicate Backed(s: State, t: nat) {
    && t < |s.tasks|
    && ((s.process == Some(t) && s.tasks[t].handler.Waiting?) || (s.process == None && s.tasks[t].handler.Queued?))
  }

  /** A start at work, past the stop it begins with. */
  predicate Starting(pc: Pc) {
    pc.Holding? || PastHolding(pc)
  }

  predicate PastHolding(pc: Pc) {
    || pc.InnerTake? || pc.InnerKill? || pc.Preparing? || pc.Running? || pc.Assigning? || pc.Checking? || pc.Asking?
    || pc.FailTake? || pc.FailKill?
  }

  ghost predicate TasksOk(s: State) {
    forall t :: 0 <= t < |s.tasks| && s.tasks[t].alive ==> s.tasks[t].handler.Waiting?
  }

  predicate KeyOk(s: State) {
    && (s.key.Some? && !s.pc.StopKill? && !s.pc.StopRestore? ==> Backed(s, s.key.value))
    && (Starting(s.pc) ==> s.request.Start? && s.key.None?)
    && (s.pc.Gone? ==> s.key.None? && s.process.None?)
  }

  predicate ProcessOk(s: State) {
    && (s.process.Some? ==> s.process.value < |s.tasks|)
    && (Kills(s.pc) || s.pc.StopRestore? || s.pc.Holding? ==> s.process.None?)
    && (s.pc.Preparing? || s.pc.Running? || s.pc.Assigning? ==> s.process.None?)
    && (s.pc.Assigning? || s.pc.Checking? || s.pc.Asking? ==> s.mine < |s.tasks|)
    && (s.pc.Checking? ==> s.process.None? || s.process == Some(s.mine))
    && (s.pc.Asking? ==> Backed(s, s.mine))
  }

  /** The one task that may be alive: the child referred to, the one a request has run and
      not noted yet, or the one a stop is ending. */
  predicate MayLive(s: State, t: nat) {
    s.process == Some(t) || (s.pc.Assigning? && s.mine == t) || (Kills(s.pc) && s.taken == Some(t))
  }

  ghost predicate AliveOk(s: State) {
    forall t :: 0 <= t < |s.tasks| && s.tasks[t].alive ==> MayLive(s, t)
  }

  predicate BlockOk(s: State) {
    && s.stands == s.block
    && (PastHolding(s.pc) ==> s.block == WantsHold(s.request))
    && (s.pc.Gone? && s.request.ShutDown? ==> !s.block)
  }

  /** A request that is told off and on its way out has nothing left of the tunnel. */
  predicate LeavingOk(s: State) {
    (s.pc.Dropping? || s.pc.Replying?) && (s.request.ShutDown? || s.request.Replaced?) ==>
      s.key.None? && s.process.None?
  }

  ghost predicate Inv(s: State) {
    TasksOk(s) && KeyOk(s) && ProcessOk(s) && AliveOk(s) && BlockOk(s) && LeavingOk(s)
  }

  lemma ActKeepsInv(s: State, ok: bool)
    requires Inv(s) && Enabled(s, Act(ok))
    ensures Inv(DoAct(s, ok))
  {
  }

  lemma DiesKeepsInv(s: State, t: nat)
    requires Inv(s) && Enabled(s, Dies(t))
    ensures Inv(DoDies(s, t))
  {
  }

  lemma EndedKeepsInv(s: State, t: nat)
    requires Inv(s) && Enabled(s, Ended(t))
    ensures Inv(DoEnded(s, t))
  {
  }

  lemma NoticeKeepsInv(s: State, t: nat)
    requires Inv(s) && Enabled(s, Notice(t))
    ensures Inv(DoNotice(s, t))
  {
  }

  lemma StepKeepsInv(s: State, step: Step)
    requires Inv(s) && Enabled(s, step)
    ensures Inv(Next(s, step))
  {
    match step
    case Asked(_) =>
    case Act(ok) => ActKeepsInv(s, ok);
    case Dies(t) => DiesKeepsInv(s, t);
    case Ended(t) => EndedKeepsInv(s, t);
    case Notice(t) => NoticeKeepsInv(s, t);
    case Restarted =>
  }

  lemma {:induction false} RunKeepsInv(states: seq<State>, steps: seq<Step>, i: nat)
    requires IsRun(states, steps) && Initial(states[0]) && i < |states|
    ensures Inv(states[i])
  {
    if i > 0 {
      RunKeepsInv(states, steps, i - 1);
      StepKeepsInv(states[i - 1], steps[i - 1]);
    }
  }

  // ---------------------------------------------------------------------
  // The resolver key

  /** A death that the daemon has still to hear of: its handler has not run and will find
      the child's reference to it, or has and waits for the lock. */
  predicate Unheard(s: State, t: nat)
    requires t < |s.tasks|
  {
    !s.tasks[t].alive && ((s.tasks[t].handler.Waiting? && s.process == Some(t)) || s.tasks[t].handler.Queued?)
  }

  /** Between requests the key is set only while its tunnel runs, or died unheard of. */
  lemma KeyMeansATunnel(states: seq<State>, steps: seq<Step>, i: nat)
    requires IsRun(states, steps) && Initial(states[0]) && i < |states|
    requires states[i].pc.Idle? && states[i].key.Some?
    ensures var s, t := states[i], states[i].key.value;
            t < |s.tasks| && ((IsRunning(s) && s.process == Some(t)) || Unheard(s, t))
  {
    RunKeepsInv(states, steps, i);
  }

  /** And when a dead tunnel is heard of, its key goes. */
  lemma KeyGoesWithItsTunnel(states: seq<State>, steps: seq<Step>, i: nat)
    requires IsRun(states, steps) && Initial(states[0]) && i < |states|
    requires states[i].pc.Idle? && states[i].key.Some? && !IsRunning(states[i])
    ensures var s, t := states[i], states[i].key.value;
            && t < |s.tasks|
            && var heard := if s.tasks[t].handler.Waiting? then DoEnded(s, t) else s;
            && (heard != s ==> Enabled(s, Ended(t)))
            && Enabled(heard, Notice(t)) && Next(heard, Notice(t)).key == None
  {
    RunKeepsInv(states, steps, i);
    var s, t := states[i], states[i].key.value;
    assert Backed(s, t);
  }

  /** A running tunnel may die at any moment between requests; its handler and its news can
      then follow, and take the reference and the key with them and nothing else. */
  lemma DeathIsHeard(s: State, t: nat)
    requires Inv(s) && s.pc.Idle? && IsRunning(s) && s.process == Some(t)
    ensures Enabled(s, Dies(t))
    ensures var dead := Next(s, Dies(t));
            && !IsRunning(dead) && dead.key == s.key && Enabled(dead, Ended(t))
            && var told := Next(dead, Ended(t));
            && told.process.None? && Enabled(told, Notice(t))
            && var after := Next(told, Notice(t));
            && after.key.None? && after.process.None? && after.block == s.block && after.pc.Idle?
            && |after.tasks| == |s.tasks| && !after.tasks[t].alive
  {
  }

  /** A daemon can be started anew at any time: it finds the block as pf has it and nothing
      else, as the first one did. */
  lemma NewDaemonFinds(s: State)
    ensures Enabled(s, Restarted)
    ensures Initial(Next(s, Restarted)) && Next(s, Restarted).block == s.block
  {
  }

  /** The tunnel runs, the key is its own, and no request at work takes it. */
  predicate Holds(s: State, t: nat) {
    && s.key == Some(t) && s.process == Some(t) && t < |s.tasks| && s.tasks[t].alive
    && (s.pc.Idle? || ((s.pc.Dropping? || s.pc.Replying?) && !s.request.ShutDown? && !s.request.Replaced?))
  }

  /** Neither its own death, nor a new daemon, nor a request to start, stop or leave. */
  predicate Spares(step: Step, t: nat) {
    match step
    case Asked(r) => r.Release? || r.Refused?
    case Dies(u) => u != t
    case Restarted => false
    case _ => true
  }

  /** No news of an older tunnel's death, however late, takes a running tunnel's key. */
  lemma {:induction false} LateNewsIsHarmless(states: seq<State>, steps: seq<Step>, t: nat, i: nat, j: nat)
    requires IsRun(states, steps) && Initial(states[0])
    requires i <= j < |states| && Holds(states[i], t)
    requires forall k :: i <= k < j ==> Spares(steps[k], t)
    ensures Holds(states[j], t)
  {
    if i < j {
      LateNewsIsHarmless(states, steps, t, i, j - 1);
      assert Spares(steps[j - 1], t);
      RunKeepsInv(states, steps, j - 1);
      StepSpares(states[j - 1], steps[j - 1], t);
    }
  }

  lemma StepSpares(s: State, step: Step, t: nat)
    requires Inv(s) && Enabled(s, step) && Holds(s, t) && Spares(step, t)
    ensures Holds(Next(s, step), t)
  {
  }

  // ---------------------------------------------------------------------
  // The block

  /** Every tunnel that is run is run behind a standing block exactly when a hold was
      asked for. */
  lemma RunsBehindTheBlock(states: seq<State>, steps: seq<Step>, i: nat)
    requires IsRun(states, steps) && Initial(states[0]) && i < |steps|
    requires states[i].pc.Running? && steps[i] == Act(true)
    ensures var n := |states[i].tasks|;
            && states[i + 1].tasks == states[i].tasks + [Task(true, Waiting, states[i].block)]
            && (states[i].block <==> WantsHold(states[i].request))
            && states[i + 1].mine == n
  {
    RunKeepsInv(states, steps, i);
  }

  /** A request that asks for the block to go. */
  predicate AsksToDrop(r: Request) {
    r.Release? || r.ShutDown? || r == Stop(false) || r == Replaced(true)
  }

  /** The steps by which the block may go: a request's that asks for it to go or asks for
      none, or a start's whose rules pf would not take. */
  predicate TakesTheBlock(s: State, step: Step) {
    && step.Act?
    && (|| (s.pc.Dropping? && AsksToDrop(s.request))
        || (s.pc.Holding? && (!WantsHold(s.request) || step == Act(false))))
  }

  /** Dropping is only ever done for those who ask. */
  predicate DropsForCause(s: State) {
    s.pc.Dropping? ==> AsksToDrop(s.request)
  }

  lemma {:induction false} RunDropsForCause(states: seq<State>, steps: seq<Step>, i: nat)
    requires IsRun(states, steps) && Initial(states[0]) && i < |states|
    ensures DropsForCause(states[i])
  {
    if i > 0 {
      RunDropsForCause(states, steps, i - 1);
      assert Enabled(states[i - 1], steps[i - 1]) && states[i] == Next(states[i - 1], steps[i - 1]);
    }
  }

  /** A step takes the block exactly when it is one of those; a death, its handler, its
      news and a new daemon are not. */
  lemma BlockStep(states: seq<State>, steps: seq<Step>, i: nat)
    requires IsRun(states, steps) && Initial(states[0]) && i < |steps| && states[i].block
    ensures states[i + 1].block <==> !TakesTheBlock(states[i], steps[i])
  {
    RunKeepsInv(states, steps, i);
    RunDropsForCause(states, steps, i);
  }

  /** A block that stood and is gone was taken by one of those steps. */
  lemma {:induction false} BlockGoesForCause(states: seq<State>, steps: seq<Step>, i: nat, j: nat)
    requires IsRun(states, steps) && Initial(states[0])
    requires i <= j < |states| && states[i].block && !states[j].block
    ensures exists k :: i <= k < j && TakesTheBlock(states[k], steps[k])
  {
    if states[j - 1].block {
      BlockStep(states, steps, j - 1);
      assert TakesTheBlock(states[j - 1], steps[j - 1]);
    } else {
      BlockGoesForCause(states, steps, i, j - 1);
    }
  }

  /** A step of a run, as two states of it. */
  ghost predicate IsStep(s: State, step: Step, t: State) {
    Enabled(s, step) && t == Next(s, step)
  }

  function Coming(pc: Pc, request: Request, block: bool): (s: State) {
    State(pc, request, [], None, 0, None, None, block, block)
  }

  /** A block that stands when a start asks for one of its own. */
  function RefusedHold(): (states: seq<State>) {
    var r := Start(true, false);
    [Coming(Idle, Refused, true), Coming(StopTake, r, true), Coming(StopKill, r, true),
     Coming(StopRestore, r, true), Coming(Holding, r, true), Coming(Replying, r, false)]
  }

  function RefusedHoldSteps(): (steps: seq<Step>) {
    [Asked(Start(true, false)), Act(true), Act(true), Act(true), Act(false)]
  }

  lemma ToTheHold()
    ensures var states, steps := RefusedHold(), RefusedHoldSteps();
            forall i :: 0 <= i < 4 ==> IsStep(states[i], steps[i], states[i + 1])
  {
    var states, steps := RefusedHold(), RefusedHoldSteps();
    assert IsStep(states[0], steps[0], states[1]) && IsStep(states[1], steps[1], states[2]);
    assert IsStep(states[2], steps[2], states[3]) && IsStep(states[3], steps[3], states[4]);
  }

  /** A run in which a block that stands is lost to a start that asks for one: pf refuses
      the rules, and the hold takes away what was there before. */
  lemma RefusedHoldLosesTheBlock()
    ensures var states, steps := RefusedHold(), RefusedHoldSteps();
            && IsRun(states, steps) && Initial(states[0])
            && states[0].block && TakesTheBlock(states[4], steps[4]) && !states[5].block
  {
    ToTheHold();
    var states, steps := RefusedHold(), RefusedHoldSteps();
    assert IsStep(states[4], steps[4], states[5]);
    assert forall i :: 0 <= i < |steps| ==> IsStep(states[i], steps[i], states[i + 1]);
  }

  // ---------------------------------------------------------------------
  // The child itself

  /** Between requests no tunnel is alive but the child referred to, and where a tunnel is
      run no other is alive: there are never two. */
  lemma OneTunnelAtMost(states: seq<State>, steps: seq<Step>, i: nat, t: nat, u: nat)
    requires IsRun(states, steps) && Initial(states[0]) && i < |states|
    requires t < |states[i].tasks| && u < |states[i].tasks| && states[i].tasks[t].alive && states[i].tasks[u].alive
    ensures t == u
    ensures states[i].pc.Idle? ==> states[i].process == Some(t)
  {
    RunKeepsInv(states, steps, i);
    var s := states[i];
    assert MayLive(s, t) && MayLive(s, u);
  }

  /** A daemon that leaves, told to end or replaced, leaves no key and no tunnel alive;
      told to end, no block either. */
  lemma ShutDownLeavesNothing(states: seq<State>, steps: seq<Step>, i: nat)
    requires IsRun(states, steps) && Initial(states[0]) && i < |states| && states[i].pc.Gone?
    ensures states[i].key == None && states[i].process == None
    ensures forall t :: 0 <= t < |states[i].tasks| ==> !states[i].tasks[t].alive
    ensures states[i].request.ShutDown? ==> !states[i].block
  {
    RunKeepsInv(states, steps, i);
  }

  // ---------------------------------------------------------------------
  // What a request has done by its reply

  /** From the i-th state, between requests, the daemon serves a request to the j-th, between
      requests again. */
  ghost predicate Serves(states: seq<State>, steps: seq<Step>, i: nat, j: nat, r: Request) {
    && IsRun(states, steps) && Initial(states[0])
    && i < j < |states| && steps[i] == Asked(r)
    && states[j].pc.Idle? && (forall m :: i < m < j ==> !states[m].pc.Idle?)
    && (forall m :: i <= m < j ==> !steps[m].Restarted?)
  }

  /** And here it serves one that is its last. */
  ghost predicate Dismisses(states: seq<State>, steps: seq<Step>, i: nat, j: nat, r: Request) {
    && IsRun(states, steps) && Initial(states[0])
    && i < j < |states| && steps[i] == Asked(r)
    && states[j].pc.Gone? && (forall m :: i < m < j ==> !states[m].pc.Gone?)
    && (forall m :: i <= m < j ==> !steps[m].Restarted?)
  }

  /** The child is as it was, but for its own death. */
  predicate SameChild(start: State, s: State) {
    && |s.tasks| == |start.tasks|
    && (s.process == start.process || (s.process.None? && Died(start, s)))
  }

  predicate Died(start: State, s: State) {
    start.process.Some? && start.process.value < |s.tasks| && !s.tasks[start.process.value].alive
  }

  /** Where a stop has got to. */
  predicate StopAt(start: State, keep: bool, s: State) {
    && s.request == Stop(keep)
    && (s.pc.StopTake? || s.pc.StopKill? || s.pc.StopRestore? || s.pc.Dropping? || s.pc.Replying? || s.pc.Idle?)
    && (!s.pc.StopTake? ==> s.process.None?)
    && (s.pc.Dropping? || s.pc.Replying? || s.pc.Idle? ==> s.key.None?)
    && (s.pc.Dropping? ==> !keep)
    && (if s.pc.Replying? || s.pc.Idle? then s.block == (keep && start.block) else s.block == start.block)
  }

  /** Where a request that finds a newer daemon on disk has got to. */
  predicate LeavingAt(start: State, release: bool, s: State) {
    && s.request == Replaced(release)
    && (s.pc.StopTake? || s.pc.StopKill? || s.pc.StopRestore? || s.pc.Dropping? || s.pc.Replying? || s.pc.Gone?)
    && (s.pc.Dropping? ==> release)
    && (if s.pc.Replying? || s.pc.Gone? then s.block == (!release && start.block) else s.block == start.block)
  }

  /** Where a start has got to. */
  predicate StartAt(start: State, hold: bool, names: bool, s: State) {
    && s.request == Start(hold, names)
    && (s.pc.StopTake? || s.pc.StopKill? || s.pc.StopRestore? || Starting(s.pc) || s.pc.Replying? || s.pc.Idle?)
    && |s.tasks| >= |start.tasks|
    && (s.pc.Assigning? || s.pc.Checking? || s.pc.Asking? ==> s.mine >= |start.tasks|)
    && (s.pc.Asking? ==> names)
    && (s.pc.Replying? || s.pc.Idle? ==>
          IsRunning(s) ==>
            && s.process.value >= |start.tasks| && s.block == hold
            && s.key == if names then s.process else None)
  }

  /** Where a request that only takes the block away, or changes nothing, has got to. */
  predicate BesideAt(start: State, r: Request, s: State) {
    && s.request == r && (r.Release? || r.Refused?)
    && (s.pc.Dropping? || s.pc.Replying? || s.pc.Idle?)
    && (s.pc.Dropping? ==> r.Release?)
    && s.key == start.key && SameChild(start, s)
    && (if s.pc.Dropping? || r.Refused? then s.block == start.block else !s.block)
  }

  lemma StopGoesOn(start: State, keep: bool, s: State, step: Step)
    requires Inv(s) && !s.pc.Idle? && StopAt(start, keep, s) && Enabled(s, step) && !step.Restarted?
    ensures StopAt(start, keep, Next(s, step))
  {
  }

  lemma StartGoesOn(start: State, hold: bool, names: bool, s: State, step: Step)
    requires Inv(s) && !s.pc.Idle? && StartAt(start, hold, names, s) && Enabled(s, step) && !step.Restarted?
    ensures StartAt(start, hold, names, Next(s, step))
  {
  }

  lemma BesideGoesOn(start: State, r: Request, s: State, step: Step)
    requires Inv(s) && !s.pc.Idle? && BesideAt(start, r, s) && Enabled(s, step) && !step.Restarted?
    ensures BesideAt(start, r, Next(s, step))
  {
  }

  lemma LeavingGoesOn(start: State, release: bool, s: State, step: Step)
    requires !s.pc.Gone? && LeavingAt(start, release, s) && Enabled(s, step) && !step.Restarted?
    ensures LeavingAt(start, release, Next(s, step))
  {
  }

  lemma {:induction false} LeavingServed(states: seq<State>, steps: seq<Step>, i: nat, j: nat, release: bool, m: nat)
    requires Dismisses(states, steps, i, j, Replaced(release)) && i < m <= j
    ensures LeavingAt(states[i], release, states[m])
  {
    if m > i + 1 {
      LeavingServed(states, steps, i, j, release, m - 1);
      LeavingGoesOn(states[i], release, states[m - 1], steps[m - 1]);
    }
  }

  lemma {:induction false} StopServed(states: seq<State>, steps: seq<Step>, i: nat, j: nat, keep: bool, m: nat)
    requires Serves(states, steps, i, j, Stop(keep)) && i < m <= j
    ensures StopAt(states[i], keep, states[m])
  {
    RunKeepsInv(states, steps, m - 1);
    if m > i + 1 {
      StopServed(states, steps, i, j, keep, m - 1);
      StopGoesOn(states[i], keep, states[m - 1], steps[m - 1]);
    }
  }

  lemma StartBegins(s: State, hold: bool, names: bool)
    requires s.pc.Idle?
    ensures StartAt(s, hold, names, Next(s, Asked(Start(hold, names))))
  {
  }

  lemma {:induction false} StartServed(states: seq<State>, steps: seq<Step>, i: nat, j: nat,
                                       hold: bool, names: bool, m: nat)
    requires Serves(states, steps, i, j, Start(hold, names)) && i < m <= j
    ensures StartAt(states[i], hold, names, states[m])
  {
    RunKeepsInv(states, steps, m - 1);
    if m > i + 1 {
      StartServed(states, steps, i, j, hold, names, m - 1);
      StartGoesOn(states[i], hold, names, states[m - 1], steps[m - 1]);
    } else {
      StartBegins(states[i], hold, names);
    }
  }

  lemma {:induction false} BesideServed(states: seq<State>, steps: seq<Step>, i: nat, j: nat, r: Request, m: nat)
    requires Serves(states, steps, i, j, r) && (r.Release? || r.Refused?) && i < m <= j
    ensures BesideAt(states[i], r, states[m])
  {
    RunKeepsInv(states, steps, m - 1);
    if m > i + 1 {
      BesideServed(states, steps, i, j, r, m - 1);
      BesideGoesOn(states[i], r, states[m - 1], steps[m - 1]);
    }
  }

  /** A stop, by its reply: no tunnel alive, no reference to one, no key; and the block is
      gone, or untouched where it was to be kept. */
  lemma StopDoes(states: seq<State>, steps: seq<Step>, i: nat, j: nat, keep: bool)
    requires Serves(states, steps, i, j, Stop(keep))
    ensures states[j].process.None? && states[j].key.None?
    ensures forall t :: 0 <= t < |states[j].tasks| ==> !states[j].tasks[t].alive
    ensures states[j].block == if keep then states[i].block else false
  {
    StopServed(states, steps, i, j, keep, j);
    RunKeepsInv(states, steps, j);
  }

  /** A daemon that finds itself replaced leaves without a tunnel and without a key; the
      block is gone where a stop asked for that, and else left for the next one. */
  lemma ReplacedDoes(states: seq<State>, steps: seq<Step>, i: nat, j: nat, release: bool)
    requires Dismisses(states, steps, i, j, Replaced(release))
    ensures states[j].process.None? && states[j].key.None?
    ensures forall t :: 0 <= t < |states[j].tasks| ==> !states[j].tasks[t].alive
    ensures states[j].block == if release then false else states[i].block
  {
    LeavingServed(states, steps, i, j, release, j);
    ShutDownLeavesNothing(states, steps, j);
  }

  /** A start, by its reply, where a tunnel runs: it is a new one, the block stands exactly
      where a hold was asked for, and the key is this tunnel's where names were, and nobody's
      where not. */
  lemma StartDoes(states: seq<State>, steps: seq<Step>, i: nat, j: nat, hold: bool, names: bool)
    requires Serves(states, steps, i, j, Start(hold, names)) && IsRunning(states[j])
    ensures var t := states[j].process.value;
            && t >= |states[i].tasks| && (states[j].block <==> hold)
            && states[j].key == if names then Some(t) else None
  {
    StartServed(states, steps, i, j, hold, names, j);
  }

  /** A start that has failed and not replied yet, or has. */
  predicate Failing(s: State) {
    s.pc.FailTake? || ((s.pc.FailKill? || s.pc.Replying? || s.pc.Idle?) && s.process.None?)
  }

  /** Its steps that can fail: the hold's rules, preparing the child, running it, and asking
      the system for names. */
  predicate CanFail(s: State) {
    (s.pc.Holding? && WantsHold(s.request)) || s.pc.Preparing? || s.pc.Running? || s.pc.Asking?
  }

  lemma {:induction false} FailingGoesOn(states: seq<State>, steps: seq<Step>, i: nat, j: nat,
                                         hold: bool, names: bool, m: nat, n: nat)
    requires Serves(states, steps, i, j, Start(hold, names)) && i < m < n <= j
    requires CanFail(states[m]) && steps[m] == Act(false)
    ensures Failing(states[n])
  {
    if n > m + 1 {
      FailingGoesOn(states, steps, i, j, hold, names, m, n - 1);
    } else {
      RunKeepsInv(states, steps, m);
    }
  }

  /** A start one of whose steps failed has, by its reply, no tunnel. */
  lemma FailedStartRunsNothing(states: seq<State>, steps: seq<Step>, i: nat, j: nat,
                               hold: bool, names: bool, m: nat)
    requires Serves(states, steps, i, j, Start(hold, names)) && i < m < j
    requires CanFail(states[m]) && steps[m] == Act(false)
    ensures states[j].process.None? && forall t :: 0 <= t < |states[j].tasks| ==> !states[j].tasks[t].alive
  {
    FailingGoesOn(states, steps, i, j, hold, names, m, j);
    RunKeepsInv(states, steps, j);
  }

  /** A request that is the daemon's last. */
  predicate IsLast(r: Request) {
    r.ShutDown? || r.Replaced?
  }

  predicate OnItsWayOut(s: State, r: Request) {
    && s.request == r
    && (|| s.pc.StopTake? || s.pc.StopKill? || s.pc.StopRestore? || s.pc.Dropping? || s.pc.Gone?
        || (s.pc.Replying? && r.Replaced?))
  }

  lemma StaysOnItsWayOut(s: State, step: Step, r: Request)
    requires IsLast(r) && OnItsWayOut(s, r) && Enabled(s, step) && !step.Restarted?
    ensures OnItsWayOut(Next(s, step), r)
  {
  }

  /** A daemon told to end, or replaced, serves no other request: only a new one does. */
  lemma {:induction false} LastIsLast(states: seq<State>, steps: seq<Step>, i: nat, j: nat, r: Request)
    requires IsRun(states, steps) && i < j < |states| && steps[i] == Asked(r) && IsLast(r)
    requires forall m :: i <= m < j ==> !steps[m].Restarted?
    ensures OnItsWayOut(states[j], r) && !states[j].pc.Idle?
  {
    if j > i + 1 {
      LastIsLast(states, steps, i, j - 1, r);
      StaysOnItsWayOut(states[j - 1], steps[j - 1], r);
    }
  }

  /** A release, by its reply: the block is gone, and the key and the child are as they were,
      but for the child's own death. */
  lemma ReleaseDoes(states: seq<State>, steps: seq<Step>, i: nat, j: nat)
    requires Serves(states, steps, i, j, Release)
    ensures !states[j].block && states[j].key == states[i].key && SameChild(states[i], states[j])
  {
    BesideServed(states, steps, i, j, Release, j);
  }

  /** Any other request changes nothing. */
  lemma RefusedDoesNothing(states: seq<State>, steps: seq<Step>, i: nat, j: nat)
    requires Serves(states, steps, i, j, Refused)
    ensures states[j].block == states[i].block && states[j].key == states[i].key && SameChild(states[i], states[j])
  {
    BesideServed(states, steps, i, j, Refused, j);
  }

  // ---------------------------------------------------------------------
  // Every request is answered

  /** How many steps a request has left at most. */
  function StepsLeft(pc: Pc): (n: nat) {
    match pc
    case Idle => 0
    case Gone => 0
    case Replying => 1
    case Dropping => 2
    case FailKill => 2
    case FailTake => 3
    case Asking => 4
    case Checking => 5
    case Assigning => 6
    case Running => 7
    case Preparing => 8
    case InnerKill => 9
    case InnerTake => 10
    case Holding => 11
    case StopRestore => 12
    case StopKill => 13
    case StopTake => 14
  }

  function ActsIn(steps: seq<Step>, i: nat, j: nat): (n: nat)
    requires i <= j <= |steps|
  {
    if i == j then 0 else ActsIn(steps, i, j - 1) + if steps[j - 1].Act? then 1 else 0
  }

  /** A request is answered, or ends the daemon, within 14 steps of its own, whatever the
      child does meanwhile; and until then it can always take the next. */
  lemma {:induction false} RequestIsAnswered(states: seq<State>, steps: seq<Step>, i: nat, j: nat, r: Request)
    requires IsRun(states, steps) && i < j < |states| && states[i].pc.Idle? && steps[i] == Asked(r)
    requires forall m :: i < m < j ==> !states[m].pc.Idle? && !states[m].pc.Gone?
    requires forall m :: i <= m < j ==> !steps[m].Restarted?
    ensures ActsIn(steps, i + 1, j) + StepsLeft(states[j].pc) <= 14
    ensures !states[j].pc.Idle? && !states[j].pc.Gone? ==> Enabled(states[j], Act(true))
  {
    if j > i + 1 {
      RequestIsAnswered(states, steps, i, j - 1, r);
      StepsLeftGoDown(states[j - 1], steps[j - 1]);
    }
  }

  lemma StepsLeftGoDown(s: State, step: Step)
    requires Enabled(s, step) && !s.pc.Idle? && !s.pc.Gone? && !step.Restarted?
    ensures StepsLeft(Next(s, step).pc) + (if step.Act? then 1 else 0) <= StepsLeft(s.pc)
  {
  }

  // ---------------------------------------------------------------------
  // A start that goes well

  /** What the daemon comes to when every step it takes goes well and the child lives. */
  ghost function Well(s: State, n: nat): (t: State)
    decreases n
  {
    if n == 0 then s else Well(DoAct(s, true), n - 1)
  }

  ghost predicate GoesWell(s: State, n: nat)
    decreases n
  {
    n == 0 || (Enabled(s, Act(true)) && GoesWell(DoAct(s, true), n - 1))
  }

  /** A tunnel of the request's own runs, with its block and its key. */
  predicate Carried(start: State, hold: bool, names: bool, t: State) {
    && t.pc.Idle? && IsRunning(t) && t.process == Some(|start.tasks|) && |t.tasks| == |start.tasks| + 1
    && t.block == hold && t.key == if names then t.process else None
  }

  lemma WellStep(s: State, n: nat)
    requires Enabled(s, Act(true)) && GoesWell(DoAct(s, true), n)
    ensures GoesWell(s, n + 1) && Well(s, n + 1) == Well(DoAct(s, true), n)
  {
  }

  /** A start at a place, with nothing of the old tunnel left. */
  predicate Ahead(s: State, pc: Pc, hold: bool, names: bool) {
    s.pc == pc && s.request == Start(hold, names) && s.process.None? && s.key.None? && s.taken.None?
  }

  lemma FromChecking(start: State, s: State, hold: bool, names: bool)
    requires s.pc.Checking? && s.request == Start(hold, names) && s.key.None? && s.block == hold
    requires s.mine == |start.tasks| && |s.tasks| == |start.tasks| + 1 && s.process == Some(s.mine) && IsRunning(s)
    ensures var n := if names then 3 else 2; GoesWell(s, n) && Carried(start, hold, names, Well(s, n))
  {
    var t := DoAct(s, true);
    var u := DoAct(t, true);
    assert GoesWell(u, 0) && Well(u, 0) == u;
    if names {
      var v := DoAct(u, true);
      assert GoesWell(v, 0) && Well(v, 0) == v;
      WellStep(u, 0);
      WellStep(t, 1);
      WellStep(s, 2);
    } else {
      WellStep(t, 0);
      WellStep(s, 1);
    }
  }

  lemma FromRunning(start: State, s: State, hold: bool, names: bool)
    requires Ahead(s, Running, hold, names) && s.block == hold && |s.tasks| == |start.tasks|
    ensures var n := if names then 5 else 4; GoesWell(s, n) && Carried(start, hold, names, Well(s, n))
  {
    var t := DoAct(s, true);
    var u := DoAct(t, true);
    FromChecking(start, u, hold, names);
    WellStep(t, if names then 3 else 2);
    WellStep(s, if names then 4 else 3);
  }

  lemma FromInnerTake(start: State, s: State, hold: bool, names: bool)
    requires Ahead(s, InnerTake, hold, names) && s.block == hold && |s.tasks| == |start.tasks|
    ensures var n := if names then 8 else 7; GoesWell(s, n) && Carried(start, hold, names, Well(s, n))
  {
    var t := DoAct(s, true);
    var u := DoAct(t, true);
    var v := DoAct(u, true);
    FromRunning(start, v, hold, names);
    WellStep(u, if names then 5 else 4);
    WellStep(t, if names then 6 else 5);
    WellStep(s, if names then 7 else 6);
  }

  lemma FromHolding(start: State, s: State, hold: bool, names: bool)
    requires Ahead(s, Holding, hold, names) && s.stands == s.block && |s.tasks| == |start.tasks|
    ensures var n := if names then 9 else 8; GoesWell(s, n) && Carried(start, hold, names, Well(s, n))
  {
    FromInnerTake(start, DoAct(s, true), hold, names);
    WellStep(s, if names then 8 else 7);
  }

  /** From every state between requests a start that goes well, on its own steps alone, comes
      to a running tunnel of its own, behind a block exactly where a hold was asked for. */
  lemma StartCanSucceed(s: State, hold: bool, names: bool)
    requires Inv(s) && s.pc.Idle?
    ensures var asked, n := Next(s, Asked(Start(hold, names))), if names then 12 else 11;
            Enabled(s, Asked(Start(hold, names))) && GoesWell(asked, n) && Carried(s, hold, names, Well(asked, n))
  {
    var a := Next(s, Asked(Start(hold, names)));
    StepKeepsInv(s, Asked(Start(hold, names)));
    var t := DoAct(a, true);
    ActKeepsInv(a, true);
    var u := DoAct(t, true);
    ActKeepsInv(t, true);
    var v := DoAct(u, true);
    ActKeepsInv(u, true);
    FromHolding(s, v, hold, names);
    WellStep(u, if names then 9 else 8);
    WellStep(t, if names then 10 else 9);
    WellStep(a, if names then 11 else 10);
  }
}
