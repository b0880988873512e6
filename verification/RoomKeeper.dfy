/**
  The keeper of a location's room list and engine (iosApp/PacketTunnel/RoomKeeper.swift):
  a timed event machine on one serial queue.  Times are in seconds, and a timer never
  fires early.
 */
module RoomKeeper {
  import opened Wrappers
  import opened RoomList

  const MIN_REFRESH_INTERVAL: real := 15.0
  const PERIODIC_REFRESH: real := 300.0
  const RETRY_AFTER_FAILURE: real := 30.0
  const WATCHDOG_TICK: real := 3.0
  const RESTART_BACKOFF: seq<real> := [2.0, 4.0, 8.0, 16.0, 20.0]

  /** The wait after the k-th restart. */
  function Backoff(k: nat): (r: real)
    requires k > 0
  {
    RESTART_BACKOFF[(if k < |RESTART_BACKOFF| then k else |RESTART_BACKOFF|) - 1]
  }

  /** How a fetch ended: the host turned this device away, or it failed, or it brought a
      list without this location in it, or one with it, which the engine takes or not. */
  datatype Outcome = Refused | Failed | NoLine | Listed(rooms: Parsed, taken: bool)

  /** The keeper's fields; no time stands for the distant past, and for no timer. */
  datatype Fields = Fields(
    running: bool,
    url: bool, // there is a subscription to ask
    sessions: nat,
    firstSessionRefreshes: bool,
    lastRefresh: Option<real>,
    fetching: bool,
    periodic: Option<real>,
    retry: Option<real>,
    watchdog: Option<real>,
    restartAttempt: nat,
    restartNotBefore: Option<real>,
    rooms: Option<Parsed>)

  /** A keeper nobody has begun. */
  function Unbegun(): (f: Fields) {
    Fields(false, false, 0, false, None, false, None, None, None, 0, None, None)
  }

  predicate Reached(since: Option<real>, wait: real, now: real) {
    since.None? || now - since.value >= wait
  }

  // ---------------------------------------------------------------------
  // What each event does to the fields

  predicate MayRefresh(f: Fields, now: real) {
    f.running && !f.fetching && f.url && Reached(f.lastRefresh, MIN_REFRESH_INTERVAL, now)
  }

  function Refreshed(f: Fields, now: real): (r: Fields) {
    if MayRefresh(f, now) then f.(lastRefresh := Some(now), fetching := true) else f
  }

  function WithoutTimers(f: Fields): (r: Fields) {
    f.(periodic := None, retry := None, watchdog := None)
  }

  /** A fetch that is under way stays so: its answer is still to come. */
  function Begun(f: Fields, url: bool, rooms: Parsed): (r: Fields) {
    Fields(true, url, 0, false, None, f.fetching, None, None, None, 0, None, Some(rooms))
  }

  function Armed(f: Fields, now: real): (r: Fields) {
    if !f.running then f
    else f.(periodic := Some(now + PERIODIC_REFRESH), retry := None, watchdog := Some(now + WATCHDOG_TICK))
  }

  /** Whether a session is followed by a refresh: not the first one of an initial start. */
  predicate SessionAsks(f: Fields) {
    f.running && (f.sessions > 0 || f.firstSessionRefreshes)
  }

  function SessionOpened(f: Fields): (r: Fields) {
    if f.running then f.(sessions := f.sessions + 1, restartAttempt := 0, restartNotBefore := None) else f
  }

  function PeriodicFired(f: Fields): (r: Fields)
    requires f.periodic.Some?
  {
    f.(periodic := Some(f.periodic.value + PERIODIC_REFRESH))
  }

  function RetryFired(f: Fields): (r: Fields) {
    f.(retry := None, lastRefresh := None)
  }

  /** A list the engine does not take is not held either. */
  function Applied(f: Fields, rooms: Parsed, taken: bool): (r: Fields) {
    if f.rooms != Some(rooms) && taken then f.(rooms := Some(rooms)) else f
  }

  function Fetched(f: Fields, outcome: Outcome, now: real): (r: Fields) {
    var g := f.(fetching := false);
    if !f.running then g
    else
      match outcome
      case Refused => g.(retry := None)
      case Failed => g.(retry := Some(now + RETRY_AFTER_FAILURE))
      case NoLine => g
      case Listed(rooms, taken) => Applied(g, rooms, taken)
  }

  predicate MayRestart(f: Fields, engine: bool, now: real) {
    f.running && !engine && f.rooms.Some? && Reached(f.restartNotBefore, 0.0, now)
  }

  function Checked(f: Fields, engine: bool, now: real): (r: Fields)
    requires f.watchdog.Some?
  {
    var g := f.(watchdog := Some(f.watchdog.value + WATCHDOG_TICK));
    if MayRestart(f, engine, now) then
      g.(restartAttempt := f.restartAttempt + 1,
         restartNotBefore := Some(now + Backoff(f.restartAttempt + 1)),
         sessions := 0,
         firstSessionRefreshes := true)
    else g
  }

  // ---------------------------------------------------------------------
  // The keeper

  /** The keeper on its queue.  A method is as much of a block as runs between two looks at
      the flag, which another thread lowers whenever it likes. */
  class Keeper {
    var running: bool
    var url: bool
    var sessions: nat
    var firstSessionRefreshes: bool
    var lastRefresh: Option<real>
    var fetching: bool
    var periodic: Option<real>
    var retry: Option<real>
    var watchdog: Option<real>
    var restartAttempt: nat
    var restartNotBefore: Option<real>
    var rooms: Option<Parsed>

    constructor ()
      ensures Now() == Unbegun()
    {
      running, url, sessions, firstSessionRefreshes := false, false, 0, false;
      lastRefresh, fetching := None, false;
      periodic, retry, watchdog := None, None, None;
      restartAttempt, restartNotBefore, rooms := 0, None, None;
    }

    ghost function Now(): (f: Fields)
      reads this
    {
      Fields(running, url, sessions, firstSessionRefreshes, lastRefresh, fetching,
             periodic, retry, watchdog, restartAttempt, restartNotBefore, rooms)
    }

    method CancelTimers()
      modifies this
      ensures Now() == WithoutTimers(old(Now()))
    {
      periodic := None;
      retry := None;
      watchdog := None;
    }

    method Begin(hasUrl: bool, start: Parsed)
      modifies this
      ensures Now() == Begun(old(Now()), hasUrl, start)
    {
      url := hasUrl;
      rooms := Some(start);
      sessions := 0;
      firstSessionRefreshes := false;
      restartAttempt := 0;
      restartNotBefore := None;
      lastRefresh := None;
      CancelTimers();
      running := true;
    }

    /** The flag goes down first, from another thread; the timers follow on the queue. */
    method LowerFlag()
      modifies this
      ensures Now() == old(Now()).(running := false)
    {
      running := false;
    }

    method Arm(now: real)
      modifies this
      ensures Now() == Armed(old(Now()), now)
    {
      if !running {
        return;
      }
      CancelTimers();
      periodic := Some(now + PERIODIC_REFRESH);
      watchdog := Some(now + WATCHDOG_TICK);
    }

    /** The guards of a refresh and what it notes; the request goes out after. */
    method Refresh(now: real) returns (goesOut: bool)
      modifies this
      ensures Now() == Refreshed(old(Now()), now) && goesOut == MayRefresh(old(Now()), now)
    {
      if !running || fetching || !url {
        return false;
      }
      if lastRefresh.Some? && now - lastRefresh.value < MIN_REFRESH_INTERVAL {
        return false;
      }
      lastRefresh := Some(now);
      fetching := true;
      goesOut := true;
    }

    method OnSessionOpened() returns (asks: bool)
      modifies this
      ensures Now() == SessionOpened(old(Now())) && asks == SessionAsks(old(Now()))
    {
      asks := false;
      if running {
        sessions := sessions + 1;
        restartAttempt := 0;
        restartNotBefore := None;
        asks := sessions > 1 || firstSessionRefreshes;
      }
    }

    method OnPeriodic()
      requires periodic.Some?
      modifies this
      ensures Now() == PeriodicFired(old(Now()))
    {
      periodic := Some(periodic.value + PERIODIC_REFRESH);
    }

    method OnRetry()
      modifies this
      ensures Now() == RetryFired(old(Now()))
    {
      retry := None;
      lastRefresh := None;
    }

    method Apply(next: Parsed, taken: bool)
      modifies this
      ensures Now() == Applied(old(Now()), next, taken)
    {
      if rooms == Some(next) || !taken {
        return;
      }
      rooms := Some(next);
    }

    method OnFetched(outcome: Outcome, now: real)
      modifies this
      ensures Now() == Fetched(old(Now()), outcome, now)
    {
      fetching := false;
      if !running {
        return;
      }
      match outcome {
        case Refused => retry := None;
        case Failed => retry := Some(now + RETRY_AFTER_FAILURE);
        case NoLine =>
        case Listed(next, taken) => Apply(next, taken);
      }
    }

    /** The watchdog up to its last look at the flag. */
    method CheckEngine(engine: bool, now: real) returns (due: bool)
      requires watchdog.Some?
      modifies this
      ensures Now() == Checked(old(Now()), engine, now) && due == MayRestart(old(Now()), engine, now)
    {
      due := running && !engine && rooms.Some? && (restartNotBefore.None? || now >= restartNotBefore.value);
      watchdog := Some(watchdog.value + WATCHDOG_TICK);
      if due {
        NoteRestart(now);
      }
    }

    method NoteRestart(now: real)
      modifies this`restartAttempt, this`restartNotBefore, this`sessions, this`firstSessionRefreshes
      ensures restartAttempt == old(restartAttempt) + 1 && restartNotBefore == Some(now + Backoff(restartAttempt))
      ensures sessions == 0 && firstSessionRefreshes
    {
      restartAttempt := restartAttempt + 1;
      var k := if restartAttempt < |RESTART_BACKOFF| then restartAttempt else |RESTART_BACKOFF|;
      restartNotBefore := Some(now + RESTART_BACKOFF[k - 1]);
      sessions := 0;
      firstSessionRefreshes := true;
    }
  }

  // ---------------------------------------------------------------------
  // Runs

  /** What the block on the queue has yet to do: to refresh, with the guards still ahead;
      to send a request whose guards are passed; to look at the flag a last time; or to
      launch the engine after that look. */
  datatype Doing = Nothing | Asking | Sending | Deciding | Launching

  datatype Event =
    | Begin(url: bool, rooms: Parsed)
    | Arm
    | StopFlag
    | StopTimers
    | Session
    | Periodic
    | Retry
    | Answer(outcome: Outcome)
    | Apply(rooms: Parsed, taken: bool)
    | Watchdog(engine: bool)
    // the rest of a block
    | Ask | Send | LastGuard | Launch

  /** What a run has come to since the last begin: when that was, how many fetches were
      started and retry timers fired, and when the last of each was. */
  datatype Tally = Tally(begun: real, fetches: nat, retries: nat, lastFetch: real, lastRetry: real)

  datatype World = World(f: Fields, now: real, inFlight: int, doing: Doing, tally: Tally)

  predicate Due(timer: Option<real>, now: real) {
    timer.Some? && timer.value <= now
  }

  /** Whether it is an event's turn: the flag's at any time, the rest of a block's when the
      block is there, and any other's between blocks. */
  predicate Turn(d: Doing, e: Event) {
    match e
    case StopFlag => true
    case Ask => d.Asking?
    case Send => d.Sending?
    case LastGuard => d.Deciding?
    case Launch => d.Launching?
    case _ => d.Nothing?
  }

  /** An event at a time: timers fire when due, and an answer is to a fetch in flight. */
  predicate Enabled(w: World, e: Event, at: real) {
    && w.now <= at && Turn(w.doing, e)
    && (e.Periodic? ==> Due(w.f.periodic, at))
    && (e.Retry? ==> Due(w.f.retry, at))
    && (e.Watchdog? ==> Due(w.f.watchdog, at))
    && (e.Answer? ==> w.inFlight > 0)
  }

  function NextFields(f: Fields, e: Event, at: real): (r: Fields)
    requires e.Periodic? ==> f.periodic.Some?
    requires e.Watchdog? ==> f.watchdog.Some?
  {
    match e
    case Begin(url, rooms) => Begun(f, url, rooms)
    case Arm => Armed(f, at)
    case StopFlag => f.(running := false)
    case StopTimers => WithoutTimers(f)
    case Session => SessionOpened(f)
    case Periodic => PeriodicFired(f)
    case Retry => RetryFired(f)
    case Answer(outcome) => Fetched(f, outcome, at)
    case Apply(rooms, taken) => if f.running then Applied(f, rooms, taken) else f
    case Watchdog(engine) => Checked(f, engine, at)
    case Ask => Refreshed(f, at)
    case _ => f
  }

  function NextDoing(w: World, e: Event, at: real): (d: Doing) {
    match e
    case StopFlag => w.doing
    case Session => if SessionAsks(w.f) then Asking else Nothing
    case Periodic => Asking
    case Retry => Asking
    case Ask => if MayRefresh(w.f, at) then Sending else Nothing
    case Watchdog(engine) => if MayRestart(w.f, engine, at) then Deciding else Nothing
    case LastGuard => if w.f.running then Launching else Nothing
    case _ => Nothing
  }

  /** Whether the event starts a fetch: a refresh whose guards all pass. */
  predicate Starts(w: World, e: Event, at: real) {
    e.Ask? && MayRefresh(w.f, at)
  }

  function NextTally(t: Tally, e: Event, at: real, starts: bool): (r: Tally) {
    if e.Begin? then Tally(at, 0, 0, at, at)
    else
      Tally(t.begun,
            if starts then t.fetches + 1 else t.fetches,
            if e.Retry? then t.retries + 1 else t.retries,
            if starts then at else t.lastFetch,
            if e.Retry? then at else t.lastRetry)
  }

  function Next(w: World, e: Event, at: real): (r: World)
    requires Enabled(w, e, at)
  {
    World(NextFields(w.f, e, at), at,
          w.inFlight + (if e.Send? then 1 else 0) - (if e.Answer? then 1 else 0),
          NextDoing(w, e, at),
          NextTally(w.tally, e, at, Starts(w, e, at)))
  }

  function Fresh(now: real): (w: World) {
    World(Unbegun(), now, 0, Nothing, Tally(now, 0, 0, now, now))
  }

  predicate Initial(w: World) {
    w == Fresh(w.now)
  }

  datatype Happening = Happening(event: Event, at: real)

  ghost predicate IsRun(worlds: seq<World>, run: seq<Happening>) {
    && |worlds| == |run| + 1
    && forall i :: 0 <= i < |run| ==>
      Enabled(worlds[i], run[i].event, run[i].at) && worlds[i + 1] == Next(worlds[i], run[i].event, run[i].at)
  }

  // ---------------------------------------------------------------------
  // The keeper's methods make the runs

  /** Has a keeper do what an event calls for. */
  method Do(k: Keeper, w: World, e: Event, at: real)
    requires Enabled(w, e, at) && k.Now() == w.f
    modifies k
    ensures k.Now() == Next(w, e, at).f
  {
    match e {
      case Begin(url, rooms) => k.Begin(url, rooms);
      case Arm => k.Arm(at);
      case StopFlag => k.LowerFlag();
      case StopTimers => k.CancelTimers();
      case Session => var asks := k.OnSessionOpened();
      case Periodic => k.OnPeriodic();
      case Retry => k.OnRetry();
      case Answer(outcome) => k.OnFetched(outcome, at);
      case Apply(rooms, taken) =>
        if k.running {
          k.Apply(rooms, taken);
        }
      case Watchdog(engine) => var due := k.CheckEngine(engine, at);
      case Ask => var goesOut := k.Refresh(at);
      case Send =>
      case LastGuard =>
      case Launch =>
    }
  }

  /** Drives a keeper through whatever happens, each thing that can happen when it does:
      the worlds it goes through are a run, and every run is one it goes through. */
  method Drive(start: real, happenings: seq<Happening>) returns (k: Keeper, worlds: seq<World>, run: seq<Happening>)
    ensures IsRun(worlds, run) && Initial(worlds[0]) && worlds[0].now == start
    ensures fresh(k) && k.Now() == worlds[|run|].f
    ensures (exists all :: IsRun(all, happenings) && all[0] == Fresh(start)) ==> run == happenings
  {
    k := new Keeper();
    var w := Fresh(start);
    worlds, run := [w], [];
    for i := 0 to |happenings|
      invariant IsRun(worlds, run) && worlds[0] == Fresh(start) && w == worlds[|run|]
      invariant fresh(k) && k.Now() == w.f
      invariant (exists all :: IsRun(all, happenings) && all[0] == Fresh(start)) ==> run == happenings[..i]
    {
      var h := happenings[i];
      forall all | IsRun(all, happenings) && all[0] == Fresh(start) && run == happenings[..i]
        ensures Enabled(w, h.event, h.at)
      {
        SameRun(all, happenings, worlds, run);
      }
      if Enabled(w, h.event, h.at) {
        Do(k, w, h.event, h.at);
        OneMoreStep(worlds, run, h);
        w := Next(w, h.event, h.at);
        worlds, run := worlds + [w], run + [h];
      }
      assert happenings[..i + 1] == happenings[..i] + [h];
    }
    assert happenings[..|happenings|] == happenings;
  }

  /** The worlds of a run follow from its beginning. */
  lemma {:induction false} SameRun(all: seq<World>, happenings: seq<Happening>, worlds: seq<World>, run: seq<Happening>)
    requires IsRun(all, happenings) && IsRun(worlds, run) && all[0] == worlds[0]
    requires |run| <= |happenings| && run == happenings[..|run|]
    ensures all[|run|] == worlds[|run|]
    decreases |run|
  {
    if run != [] {
      var n := |run| - 1;
      assert IsRun(worlds[..n + 1], run[..n]);
      SameRun(all, happenings, worlds[..n + 1], run[..n]);
      assert run[n] == happenings[n];
    }
  }

  lemma OneMoreStep(worlds: seq<World>, run: seq<Happening>, h: Happening)
    requires IsRun(worlds, run) && Enabled(worlds[|run|], h.event, h.at)
    ensures IsRun(worlds + [Next(worlds[|run|], h.event, h.at)], run + [h])
  {
  }

  // ---------------------------------------------------------------------
  // At most one fetch is in flight

  predicate OneInFlight(w: World) {
    w.inFlight >= 0 && w.inFlight + (if w.doing.Sending? then 1 else 0) == if w.f.fetching then 1 else 0
  }

  /** Times of the past are past, a retry is due no sooner than its wait, and the fetches
      so far fit the time there was for them. */
  predicate Paced(w: World) {
    var t := w.tally;
    && t.begun <= t.lastFetch <= w.now && t.begun <= t.lastRetry <= w.now
    && (w.f.lastRefresh.Some? ==> w.f.lastRefresh.value == t.lastFetch)
    && (w.f.retry.Some? ==> w.f.retry.value >= t.lastRetry + RETRY_AFTER_FAILURE)
    && RETRY_AFTER_FAILURE * t.retries as real <= t.lastRetry - t.begun
    && MIN_REFRESH_INTERVAL * (t.fetches - t.retries - (if w.f.lastRefresh.Some? then 1
        else 0)) as real <= t.lastFetch - t.begun
  }

  lemma StepKeepsOneInFlight(w: World, e: Event, at: real)
    requires Enabled(w, e, at) && OneInFlight(w)
    ensures OneInFlight(Next(w, e, at))
  {
  }

  lemma StepKeepsPaced(w: World, e: Event, at: real)
    requires Enabled(w, e, at) && Paced(w)
    ensures Paced(Next(w, e, at))
  {
  }

  lemma {:induction false} RunKeepsInv(worlds: seq<World>, run: seq<Happening>, i: nat)
    requires IsRun(worlds, run) && Initial(worlds[0]) && i < |worlds|
    ensures OneInFlight(worlds[i]) && Paced(worlds[i])
  {
    if i > 0 {
      RunKeepsInv(worlds, run, i - 1);
      StepKeepsOneInFlight(worlds[i - 1], run[i - 1].event, run[i - 1].at);
      StepKeepsPaced(worlds[i - 1], run[i - 1].event, run[i - 1].at);
    }
  }

  /** In every run at most one fetch is in flight, and since a begin there was at most one
      fetch more than one in ten seconds. */
  lemma FetchesAreBounded(worlds: seq<World>, run: seq<Happening>, i: nat)
    requires IsRun(worlds, run) && Initial(worlds[0]) && i < |worlds|
    ensures 0 <= worlds[i].inFlight <= 1
    ensures 10.0 * (worlds[i].tally.fetches - 1) as real <= worlds[i].now - worlds[i].tally.begun
  {
    RunKeepsInv(worlds, run, i);
    var w := worlds[i];
    var n, k, d := w.tally.fetches as real, w.tally.retries as real, w.now - w.tally.begun;
    assert 30.0 * k <= d;
    assert 15.0 * (n - k - 1.0) <= d;
  }

  /** The rooms an event gives the keeper to hold: a begin's, or those of a list that was
      fetched or sent and that the engine took while the keeper ran. */
  function Given(w: World, h: Happening): (rooms: Option<Parsed>) {
    match h.event
    case Begin(_, rooms) => Some(rooms)
    case Apply(rooms, true) => if w.f.running then Some(rooms) else None
    case Answer(Listed(rooms, true)) => if w.f.running then Some(rooms) else None
    case _ => None
  }

  lemma RoomsStep(w: World, h: Happening)
    requires Enabled(w, h.event, h.at)
    ensures Next(w, h.event, h.at).f.rooms == if Given(w, h).Some? then Given(w, h) else w.f.rooms
  {
  }

  /** The j-th event gave the keeper rooms, and none has since, up to the i-th world. */
  ghost predicate LastGiven(worlds: seq<World>, run: seq<Happening>, j: nat, i: nat)
    requires j < i < |worlds| && |worlds| == |run| + 1
  {
    Given(worlds[j], run[j]).Some? && forall m :: j < m < i ==> Given(worlds[m], run[m]).None?
  }

  /** In every run the rooms held are those of the last begin, or of the last list taken
      since; and none are held exactly until the first. */
  lemma {:induction false} RoomsAreTheLastGiven(worlds: seq<World>, run: seq<Happening>, i: nat)
    requires IsRun(worlds, run) && Initial(worlds[0]) && i < |worlds|
    ensures worlds[i].f.rooms.Some? ==>
              exists j :: 0 <= j < i && LastGiven(worlds, run, j, i) && worlds[i].f.rooms == Given(worlds[j], run[j])
    ensures worlds[i].f.rooms.None? ==> forall m :: 0 <= m < i ==> Given(worlds[m], run[m]).None?
  {
    if i > 0 {
      RoomsAreTheLastGiven(worlds, run, i - 1);
      RoomsStep(worlds[i - 1], run[i - 1]);
      if Given(worlds[i - 1], run[i - 1]).Some? {
        assert LastGiven(worlds, run, i - 1, i);
      } else if worlds[i].f.rooms.Some? {
        var j :| 0 <= j < i - 1 && LastGiven(worlds, run, j, i - 1) &&
            worlds[i - 1].f.rooms == Given(worlds[j], run[j]);
        assert LastGiven(worlds, run, j, i);
      }
    }
  }

  // ---------------------------------------------------------------------
  // How far apart fetches are

  ghost predicate StartsAt(worlds: seq<World>, run: seq<Happening>, i: nat)
    requires IsRun(worlds, run) && i < |run|
  {
    Starts(worlds[i], run[i].event, run[i].at)
  }

  ghost predicate RefreshedSince(w: World, at: real) {
    w.f.lastRefresh.Some? && w.f.lastRefresh.value >= at && w.now >= at
  }

  lemma {:induction false} StaysRefreshed(worlds: seq<World>, run: seq<Happening>, i: nat, m: nat)
    requires IsRun(worlds, run) && i < m <= |run| && StartsAt(worlds, run, i)
    requires forall j :: i < j < m ==> !run[j].event.Begin? && !run[j].event.Retry?
    ensures RefreshedSince(worlds[m], run[i].at)
  {
    if m > i + 1 {
      StaysRefreshed(worlds, run, i, m - 1);
      StepStaysRefreshed(worlds[m - 1], run[m - 1].event, run[m - 1].at, run[i].at);
    } else {
      StartRefreshes(worlds[i], run[i].event, run[i].at);
    }
  }

  lemma StartRefreshes(w: World, e: Event, at: real)
    requires Enabled(w, e, at) && Starts(w, e, at)
    ensures RefreshedSince(Next(w, e, at), at)
  {
  }

  lemma StepStaysRefreshed(w: World, e: Event, at: real, since: real)
    requires Enabled(w, e, at) && !e.Begin? && !e.Retry? && RefreshedSince(w, since)
    ensures RefreshedSince(Next(w, e, at), since)
  {
  }

  /** Two fetches of one begin are started 15 seconds apart or more, unless a retry timer
      fired after the first. */
  lemma FetchesAreApart(worlds: seq<World>, run: seq<Happening>, i: nat, j: nat)
    requires IsRun(worlds, run) && i < j < |run| && StartsAt(worlds, run, i) && StartsAt(worlds, run, j)
    requires forall m :: i < m <= j ==> !run[m].event.Begin? && !run[m].event.Retry?
    ensures run[j].at - run[i].at >= 15.0
  {
    StaysRefreshed(worlds, run, i, j);
    StartsOnlyWhenDue(worlds[j], run[j].event, run[j].at);
  }

  lemma StartsOnlyWhenDue(w: World, e: Event, at: real)
    requires Enabled(w, e, at) && Starts(w, e, at) && !e.Begin? && !e.Retry?
    ensures Reached(w.f.lastRefresh, MIN_REFRESH_INTERVAL, at)
  {
  }

  /** A refresh that succeeds leaves an earlier failure's retry timer set, and that one
      does not keep the distance: here the third fetch starts 12 seconds after the second. */
  function CloseRun(rooms: Parsed): (run: seq<Happening>) {
    [Happening(Begin(true, rooms), 0.0), Happening(Session, 0.0),
     Happening(Session, 1.0), Happening(Ask, 1.0), Happening(Send, 1.0), Happening(Answer(Failed), 2.0),
     Happening(Session, 20.0), Happening(Ask, 20.0), Happening(Send, 20.0), Happening(Answer(NoLine), 21.0),
     Happening(Retry, 32.0), Happening(Ask, 32.0)]
  }

  /** A keeper at work, with only these fields set. */
  function Kept(rooms: Parsed, sessions: nat, last: Option<real>, fetching: bool, retry: Option<real>): (f: Fields) {
    Fields(true, true, sessions, false, last, fetching, None, retry, None, 0, None, Some(rooms))
  }

  function CloseWorlds(rooms: Parsed): (worlds: seq<World>) {
    var t0, t1 := Tally(0.0, 0, 0, 0.0, 0.0), Tally(0.0, 1, 0, 1.0, 0.0);
    var t2, t3 := Tally(0.0, 2, 0, 20.0, 0.0), Tally(0.0, 2, 1, 20.0, 32.0);
    var due := Some(32.0);
    [Fresh(0.0),
     World(Kept(rooms, 0, None, false, None), 0.0, 0, Nothing, t0),
     World(Kept(rooms, 1, None, false, None), 0.0, 0, Nothing, t0),
     World(Kept(rooms, 2, None, false, None), 1.0, 0, Asking, t0),
     World(Kept(rooms, 2, Some(1.0), true, None), 1.0, 0, Sending, t1),
     World(Kept(rooms, 2, Some(1.0), true, None), 1.0, 1, Nothing, t1),
     World(Kept(rooms, 2, Some(1.0), false, due), 2.0, 0, Nothing, t1),
     World(Kept(rooms, 3, Some(1.0), false, due), 20.0, 0, Asking, t1),
     World(Kept(rooms, 3, Some(20.0), true, due), 20.0, 0, Sending, t2),
     World(Kept(rooms, 3, Some(20.0), true, due), 20.0, 1, Nothing, t2),
     World(Kept(rooms, 3, Some(20.0), false, due), 21.0, 0, Nothing, t2),
     World(Kept(rooms, 3, None, false, None), 32.0, 0, Asking, t3),
     World(Kept(rooms, 3, Some(32.0), true, None), 32.0, 0, Sending, Tally(0.0, 3, 1, 32.0, 32.0))]
  }

  ghost predicate IsStep(w: World, h: Happening, next: World) {
    Enabled(w, h.event, h.at) && next == Next(w, h.event, h.at)
  }

  lemma FirstCloseSteps(rooms: Parsed)
    ensures var worlds, run := CloseWorlds(rooms), CloseRun(rooms);
            forall i :: 0 <= i < 6 ==> IsStep(worlds[i], run[i], worlds[i + 1])
  {
    var worlds, run := CloseWorlds(rooms), CloseRun(rooms);
    assert IsStep(worlds[0], run[0], worlds[1]) && IsStep(worlds[1], run[1], worlds[2]);
    assert IsStep(worlds[2], run[2], worlds[3]) && IsStep(worlds[3], run[3], worlds[4]);
    assert IsStep(worlds[4], run[4], worlds[5]) && IsStep(worlds[5], run[5], worlds[6]);
  }

  lemma LastCloseSteps(rooms: Parsed)
    ensures var worlds, run := CloseWorlds(rooms), CloseRun(rooms);
            forall i :: 6 <= i < 12 ==> IsStep(worlds[i], run[i], worlds[i + 1])
  {
    var worlds, run := CloseWorlds(rooms), CloseRun(rooms);
    assert IsStep(worlds[6], run[6], worlds[7]) && IsStep(worlds[7], run[7], worlds[8]);
    assert IsStep(worlds[8], run[8], worlds[9]) && IsStep(worlds[9], run[9], worlds[10]);
    assert IsStep(worlds[10], run[10], worlds[11]) && IsStep(worlds[11], run[11], worlds[12]);
  }

  lemma RetryComesTooSoon(rooms: Parsed)
    ensures var worlds, run := CloseWorlds(rooms), CloseRun(rooms);
            && IsRun(worlds, run) && Initial(worlds[0])
            && StartsAt(worlds, run, 7) && StartsAt(worlds, run, 11)
            && run[11].at - run[7].at < 15.0
  {
    FirstCloseSteps(rooms);
    LastCloseSteps(rooms);
    var worlds, run := CloseWorlds(rooms), CloseRun(rooms);
    assert forall i :: 0 <= i < |run| ==> IsStep(worlds[i], run[i], worlds[i + 1]);
  }

  predicate Soon(w: World, at: real) {
    at < w.tally.lastFetch + MIN_REFRESH_INTERVAL
  }

  /** A fetch may follow too soon: a retry timer is due before the distance is kept, or
      one fired while a fetch was under way and left the distance forgotten. */
  predicate MayComeTooSoon(w: World) {
    && w.f.running && !w.f.fetching && w.f.url && Soon(w, w.now)
    && (|| (w.f.retry.Some? && Soon(w, w.f.retry.value))
        || (w.f.lastRefresh.None?
            && (w.f.sessions > 0 || w.f.firstSessionRefreshes || (w.f.periodic.Some? && Soon(w, w.f.periodic.value)))))
  }

  /** An event that calls for a refresh, and the refresh at once after it. */
  ghost predicate StartsTooSoon(w: World, e: Event, at: real) {
    && Enabled(w, e, at) && !e.Begin? && Soon(w, at)
    && Next(w, e, at).doing.Asking? && Starts(Next(w, e, at), Ask, at)
  }

  /** Between blocks, exactly then can the next event start a fetch less than 15 seconds
      after the last. */
  lemma TooSoonExactlyWhen(worlds: seq<World>, run: seq<Happening>, i: nat)
    requires IsRun(worlds, run) && Initial(worlds[0]) && i < |worlds|
    requires worlds[i].tally.fetches > 0 && worlds[i].doing.Nothing?
    ensures MayComeTooSoon(worlds[i]) <==> exists e, at :: StartsTooSoon(worlds[i], e, at)
  {
    RunKeepsInv(worlds, run, i);
    var w := worlds[i];
    if MayComeTooSoon(w) {
      TooSoonHow(w);
    }
    if e, at :| StartsTooSoon(w, e, at) {
      TooSoonOnlyThen(w, e, at);
    }
  }

  lemma TooSoonHow(w: World)
    requires MayComeTooSoon(w) && w.doing.Nothing?
    ensures exists e, at :: StartsTooSoon(w, e, at)
  {
    if w.f.retry.Some? && Soon(w, w.f.retry.value) {
      assert StartsTooSoon(w, Retry, if w.f.retry.value > w.now then w.f.retry.value else w.now);
    } else if w.f.sessions > 0 || w.f.firstSessionRefreshes {
      assert StartsTooSoon(w, Session, w.now);
    } else {
      assert StartsTooSoon(w, Periodic, if w.f.periodic.value > w.now then w.f.periodic.value else w.now);
    }
  }

  lemma TooSoonOnlyThen(w: World, e: Event, at: real)
    requires Paced(w) && w.doing.Nothing? && StartsTooSoon(w, e, at)
    ensures MayComeTooSoon(w)
  {
  }

  // ---------------------------------------------------------------------
  // Restarts

  predicate Restarts(w: World, h: Happening) {
    h.event.Watchdog? && MayRestart(w.f, h.event.engine, h.at)
  }

  /** A session the keeper hears of, or a begin. */
  predicate StartsOver(w: World, h: Happening) {
    h.event.Begin? || (h.event.Session? && w.f.running)
  }

  /** How many restarts there were since the last session or begin. */
  ghost function RestartsSince(worlds: seq<World>, run: seq<Happening>, i: nat): (k: nat)
    requires IsRun(worlds, run) && i < |worlds|
  {
    if i == 0 || StartsOver(worlds[i - 1], run[i - 1]) then 0
    else RestartsSince(worlds, run, i - 1) + (if Restarts(worlds[i - 1], run[i - 1]) then 1 else 0)
  }

  lemma {:induction false} AttemptCounts(worlds: seq<World>, run: seq<Happening>, i: nat)
    requires IsRun(worlds, run) && Initial(worlds[0]) && i < |worlds|
    ensures worlds[i].f.restartAttempt == RestartsSince(worlds, run, i)
  {
    if i > 0 {
      AttemptCounts(worlds, run, i - 1);
      AttemptStep(worlds[i - 1], run[i - 1]);
    }
  }

  lemma AttemptStep(w: World, h: Happening)
    requires Enabled(w, h.event, h.at)
    ensures Next(w, h.event, h.at).f.restartAttempt ==
            if StartsOver(w, h) then 0 else w.f.restartAttempt + (if Restarts(w, h) then 1 else 0)
  {
  }

  lemma BackoffGrows(k: nat)
    requires k > 0
    ensures Backoff(k) <= Backoff(k + 1) && (k >= 5 ==> Backoff(k) == 20.0)
    ensures Backoff(1) == 2.0 && Backoff(2) == 4.0 && Backoff(3) == 8.0 && Backoff(4) == 16.0
    ensures Backoff(k) >= 2.0
  {
  }

  predicate WaitsUntil(w: World, t: real) {
    w.f.restartNotBefore.Some? && w.f.restartNotBefore.value >= t
  }

  lemma StepWaits(w: World, h: Happening, t: real)
    requires Enabled(w, h.event, h.at) && !StartsOver(w, h) && WaitsUntil(w, t)
    ensures WaitsUntil(Next(w, h.event, h.at), t)
  {
    BackoffGrows(w.f.restartAttempt + 1);
  }

  lemma {:induction false} StillWaits(worlds: seq<World>, run: seq<Happening>, i: nat, m: nat)
    requires IsRun(worlds, run) && i < m <= |run| && Restarts(worlds[i], run[i])
    requires forall j :: i < j < m ==> !StartsOver(worlds[j], run[j])
    ensures WaitsUntil(worlds[m], run[i].at + Backoff(worlds[i].f.restartAttempt + 1))
  {
    if m > i + 1 {
      StillWaits(worlds, run, i, m - 1);
      StepWaits(worlds[m - 1], run[m - 1], run[i].at + Backoff(worlds[i].f.restartAttempt + 1));
    }
  }

  /** After the k-th restart without a session, the next one waits the k-th backoff or
      more, however many there were. */
  lemma RestartsWait(worlds: seq<World>, run: seq<Happening>, i: nat, j: nat)
    requires IsRun(worlds, run) && Initial(worlds[0]) && i < j < |run|
    requires Restarts(worlds[i], run[i]) && Restarts(worlds[j], run[j])
    requires forall m :: i < m < j ==> !StartsOver(worlds[m], run[m])
    ensures run[j].at - run[i].at >= Backoff(RestartsSince(worlds, run, i) + 1)
  {
    AttemptCounts(worlds, run, i);
    StillWaits(worlds, run, i, j);
  }

  /** A run from the start with n restarts and no session since, and the keeper at it. */
  ghost predicate HasRestarted(worlds: seq<World>, run: seq<Happening>, n: nat) {
    && IsRun(worlds, run) && Initial(worlds[0]) && RestartsSince(worlds, run, |run|) == n
    && Watching(worlds[|run|])
  }

  predicate Watching(w: World) {
    w.f.running && w.f.watchdog.Some? && w.f.rooms.Some? && w.doing.Nothing?
  }

  /** The keeper never gives up: there are runs of any number of restarts without a
      session. */
  lemma {:induction false} RestartsGoOn(n: nat, rooms: Parsed)
    ensures exists worlds, run :: HasRestarted(worlds, run, n)
  {
    if n == 0 {
      var w0 := Fresh(0.0);
      var w1 := Next(w0, Begin(true, rooms), 0.0);
      var worlds, run := [w0, w1, Next(w1, Arm, 0.0)], [Happening(Begin(true, rooms), 0.0), Happening(Arm, 0.0)];
      AttemptCounts(worlds, run, 2);
      assert HasRestarted(worlds, run, 0);
    } else {
      RestartsGoOn(n - 1, rooms);
      var worlds, run :| HasRestarted(worlds, run, n - 1);
      RestartOnceMore(worlds, run, n);
    }
  }

  lemma RestartOnceMore(worlds: seq<World>, run: seq<Happening>, n: nat)
    requires n > 0 && HasRestarted(worlds, run, n - 1)
    ensures exists more, again :: HasRestarted(more, again, n)
  {
    var w := worlds[|run|];
    var due := if w.f.restartNotBefore.Some? && w.f.restartNotBefore.value > w.f.watchdog.value
      then w.f.restartNotBefore.value else w.f.watchdog.value;
    var at := if due > w.now then due else w.now;
    AttemptCounts(worlds, run, |run|);
    var w1, run1 := Next(w, Watchdog(false), at), run + [Happening(Watchdog(false), at)];
    OneMoreStep(worlds, run, Happening(Watchdog(false), at));
    var w2, run2 := Next(w1, LastGuard, at), run1 + [Happening(LastGuard, at)];
    OneMoreStep(worlds + [w1], run1, Happening(LastGuard, at));
    var w3, run3 := Next(w2, Launch, at), run2 + [Happening(Launch, at)];
    OneMoreStep(worlds + [w1] + [w2], run2, Happening(Launch, at));
    AttemptCounts(worlds + [w1] + [w2] + [w3], run3, |run3|);
    assert HasRestarted(worlds + [w1] + [w2] + [w3], run3, n);
  }

  // ---------------------------------------------------------------------
  // Timers and sessions

  lemma {:induction false} NoRetrySince(worlds: seq<World>, run: seq<Happening>, i: nat, j: nat)
    requires IsRun(worlds, run) && i < j <= |run| && run[i].event == Answer(Refused) && worlds[i].f.running
    requires forall m :: i < m < j ==> run[m].event != Answer(Failed)
    ensures worlds[j].f.retry.None?
  {
    if j > i + 1 {
      NoRetrySince(worlds, run, i, j - 1);
      RetryStaysUnset(worlds[j - 1], run[j - 1]);
    }
  }

  lemma RetryStaysUnset(w: World, h: Happening)
    requires Enabled(w, h.event, h.at) && w.f.retry.None? && h.event != Answer(Failed)
    ensures Next(w, h.event, h.at).f.retry.None?
  {
  }

  /** A host that turned this device away is not asked again by a retry, not even one that
      was due from an earlier failure, until another fetch fails. */
  lemma RefusalEndsRetries(worlds: seq<World>, run: seq<Happening>, i: nat, j: nat)
    requires IsRun(worlds, run) && i < j < |run| && run[i].event == Answer(Refused) && worlds[i].f.running
    requires forall m :: i < m < j ==> run[m].event != Answer(Failed)
    ensures !run[j].event.Retry?
  {
    NoRetrySince(worlds, run, i, j);
  }

  /** And one whose answer failed while the keeper ran is, 30 seconds on. */
  lemma FailureSetsARetry(w: World, at: real)
    requires Enabled(w, Answer(Failed), at) && w.f.running
    ensures var t := Next(w, Answer(Failed), at);
            Enabled(t, Retry, at + 30.0) && forall sooner :: sooner < at + 30.0 ==> !Enabled(t, Retry, sooner)
  {
  }

  function Ticks(run: seq<Happening>, i: nat, j: nat): (n: nat)
    requires i <= j <= |run|
  {
    if i == j then 0 else Ticks(run, i, j - 1) + if run[j - 1].event.Periodic? then 1 else 0
  }

  function Checks(run: seq<Happening>, i: nat, j: nat): (n: nat)
    requires i <= j <= |run|
  {
    if i == j then 0 else Checks(run, i, j - 1) + if run[j - 1].event.Watchdog? then 1 else 0
  }

  predicate SetsTimers(e: Event) {
    e.Begin? || e.Arm? || e.StopTimers?
  }

  lemma TimersStep(w: World, h: Happening)
    requires Enabled(w, h.event, h.at) && !SetsTimers(h.event) && w.f.periodic.Some? && w.f.watchdog.Some?
    ensures var f := Next(w, h.event, h.at).f;
            && f.periodic == Some(w.f.periodic.value + if h.event.Periodic? then 300.0 else 0.0)
            && f.watchdog == Some(w.f.watchdog.value + if h.event.Watchdog? then 3.0 else 0.0)
  {
  }

  /** From the moment the keeper is armed the list is refreshed every five minutes and the
      engine looked at every three seconds, until it is begun anew or stopped. */
  lemma {:induction false} TimersRun(worlds: seq<World>, run: seq<Happening>, i: nat, j: nat)
    requires IsRun(worlds, run) && i < j <= |run| && run[i].event.Arm? && worlds[i].f.running
    requires forall m :: i < m < j ==> !SetsTimers(run[m].event)
    ensures worlds[j].f.periodic == Some(run[i].at + 300.0 * (1 + Ticks(run, i + 1, j)) as real)
    ensures worlds[j].f.watchdog == Some(run[i].at + 3.0 * (1 + Checks(run, i + 1, j)) as real)
  {
    if j > i + 1 {
      TimersRun(worlds, run, i, j - 1);
      TimersStep(worlds[j - 1], run[j - 1]);
    }
  }

  /** A session that was heard, or a restart. */
  predicate Stirs(w: World, h: Happening) {
    (h.event.Session? && w.f.running) || Restarts(w, h)
  }

  lemma StirStep(w: World, h: Happening)
    requires Enabled(w, h.event, h.at) && !h.event.Begin?
    ensures var f := Next(w, h.event, h.at).f;
            f.sessions > 0 || f.firstSessionRefreshes <==>
            w.f.sessions > 0 || w.f.firstSessionRefreshes || Stirs(w, h)
  {
  }

  ghost predicate Stirred(worlds: seq<World>, run: seq<Happening>, i: nat, j: nat)
    requires |worlds| == |run| + 1 && j < |worlds|
  {
    exists m :: i < m < j && Stirs(worlds[m], run[m])
  }

  lemma {:induction false} AsksOnceStirred(worlds: seq<World>, run: seq<Happening>, i: nat, j: nat)
    requires IsRun(worlds, run) && i < j < |worlds| && run[i].event.Begin?
    requires forall m :: i < m < j ==> !run[m].event.Begin?
    ensures worlds[j].f.sessions > 0 || worlds[j].f.firstSessionRefreshes <==> Stirred(worlds, run, i, j)
  {
    if j > i + 1 {
      AsksOnceStirred(worlds, run, i, j - 1);
      StirStep(worlds[j - 1], run[j - 1]);
      if Stirred(worlds, run, i, j - 1) {
        var m :| i < m < j - 1 && Stirs(worlds[m], run[m]);
        assert i < m < j && Stirs(worlds[m], run[m]);
      }
    }
  }

  /** Since a begin, a session is followed by a refresh exactly when the keeper runs and
      another session or a restart came before it: the first one of an initial start is not. */
  lemma SessionAsksExactlyWhen(worlds: seq<World>, run: seq<Happening>, i: nat, j: nat)
    requires IsRun(worlds, run) && i < j < |run| && run[i].event.Begin? && run[j].event.Session?
    requires forall m :: i < m < j ==> !run[m].event.Begin?
    ensures worlds[j + 1].doing.Asking? <==> worlds[j].f.running && Stirred(worlds, run, i, j)
  {
    AsksOnceStirred(worlds, run, i, j);
  }

  // ---------------------------------------------------------------------
  // After a stop

  /** A keeper whose flag is down, and whose queue has not passed the last look at it. */
  predicate Quiet(w: World) {
    !w.f.running && !w.doing.Sending? && !w.doing.Launching?
  }

  lemma QuietStays(w: World, h: Happening)
    requires Enabled(w, h.event, h.at) && Quiet(w) && !h.event.Begin?
    ensures Quiet(Next(w, h.event, h.at)) && !Starts(w, h.event, h.at) && !Restarts(w, h)
    ensures !h.event.Send? && !h.event.Launch?
  {
  }

  lemma {:induction false} RunStaysQuiet(worlds: seq<World>, run: seq<Happening>, i: nat, j: nat)
    requires IsRun(worlds, run) && i <= j < |run| && Quiet(worlds[i])
    requires forall m :: i <= m <= j ==> !run[m].event.Begin?
    ensures Quiet(worlds[j]) && !StartsAt(worlds, run, j) && !Restarts(worlds[j], run[j])
    ensures !run[j].event.Send? && !run[j].event.Launch?
  {
    if j > i {
      RunStaysQuiet(worlds, run, i, j - 1);
      QuietStays(worlds[j - 1], run[j - 1]);
    }
    QuietStays(worlds[j], run[j]);
  }

  /** Only the flag again, if anything. */
  ghost predicate OnlyFlags(run: seq<Happening>, i: nat, j: nat)
    requires j <= |run|
  {
    forall m :: i <= m < j ==> run[m].event.StopFlag?
  }

  lemma {:induction false} PassedTheGuard(worlds: seq<World>, run: seq<Happening>, i: nat, j: nat)
    requires IsRun(worlds, run) && i <= j < |run| && !worlds[i].f.running
    requires forall m :: i <= m <= j ==> !run[m].event.Begin?
    requires run[j].event.Send? || run[j].event.Launch?
    ensures OnlyFlags(run, i, j) && worlds[i].doing == (if run[j].event.Send? then Sending else Launching)
    decreases j - i
  {
    if i < j {
      if Quiet(worlds[i]) {
        RunStaysQuiet(worlds, run, i, j);
      } else {
        FlagOrLast(worlds[i], run[i]);
        if run[i].event.StopFlag? {
          PassedTheGuard(worlds, run, i + 1, j);
        } else {
          RunStaysQuiet(worlds, run, i + 1, j);
        }
      }
    }
  }

  lemma FlagOrLast(w: World, h: Happening)
    requires Enabled(w, h.event, h.at) && !w.f.running && !Quiet(w) && !h.event.Begin?
    ensures !Next(w, h.event, h.at).f.running
    ensures if h.event.StopFlag? then Next(w, h.event, h.at).doing == w.doing else Quiet(Next(w, h.event, h.at))
  {
  }

  /** Once the flag is down, until a begin, no refresh passes its guards and no restart is
      counted; and a request goes out, or the engine is launched, exactly when the queue
      had passed its last look at the flag when that fell: then it is the next thing the
      queue does, and the last of its kind. */
  lemma AfterAStop(worlds: seq<World>, run: seq<Happening>, i: nat, j: nat)
    requires IsRun(worlds, run) && i < j < |run| && run[i].event.StopFlag?
    requires forall m :: i < m <= j ==> !run[m].event.Begin?
    ensures !StartsAt(worlds, run, j) && !Restarts(worlds[j], run[j])
    ensures run[j].event.Launch? ==> worlds[i].doing.Launching? && OnlyFlags(run, i + 1, j)
    ensures run[j].event.Send? ==> worlds[i].doing.Sending? && OnlyFlags(run, i + 1, j)
    ensures worlds[i].doing.Launching? <==> Enabled(worlds[i + 1], Launch, run[i].at)
    ensures worlds[i].doing.Sending? <==> Enabled(worlds[i + 1], Send, run[i].at)
  {
    assert !worlds[i + 1].f.running && worlds[i + 1].doing == worlds[i].doing;
    StoppedStays(worlds, run, i + 1, j);
    if run[j].event.Launch? || run[j].event.Send? {
      PassedTheGuard(worlds, run, i + 1, j);
    }
  }

  lemma {:induction false} StoppedStays(worlds: seq<World>, run: seq<Happening>, i: nat, j: nat)
    requires IsRun(worlds, run) && i <= j < |run| && !worlds[i].f.running
    requires forall m :: i <= m <= j ==> !run[m].event.Begin?
    ensures !worlds[j].f.running && !StartsAt(worlds, run, j) && !Restarts(worlds[j], run[j])
  {
    if j > i {
      StoppedStays(worlds, run, i, j - 1);
      StoppedStep(worlds[j - 1], run[j - 1]);
    }
  }

  lemma StoppedStep(w: World, h: Happening)
    requires Enabled(w, h.event, h.at) && !w.f.running && !h.event.Begin?
    ensures !Next(w, h.event, h.at).f.running
  {
  }

  /** A run in which the engine is launched after the flag fell. */
  function LateRun(rooms: Parsed): (run: seq<Happening>) {
    [Happening(Begin(true, rooms), 0.0), Happening(Arm, 0.0), Happening(Watchdog(false), 3.0),
     Happening(LastGuard, 3.0), Happening(StopFlag, 3.0), Happening(Launch, 3.0)]
  }

  function LateWorlds(rooms: Parsed): (worlds: seq<World>) {
    var t := Tally(0.0, 0, 0, 0.0, 0.0);
    var begun := Kept(rooms, 0, None, false, None);
    var armed := begun.(periodic := Some(300.0), watchdog := Some(3.0));
    var counted := armed.(watchdog := Some(6.0), restartAttempt := 1, restartNotBefore := Some(5.0),
        firstSessionRefreshes := true);
    [Fresh(0.0), World(begun, 0.0, 0, Nothing, t), World(armed, 0.0, 0, Nothing, t),
     World(counted, 3.0, 0, Deciding, t), World(counted, 3.0, 0, Launching, t),
     World(counted.(running := false), 3.0, 0, Launching, t), World(counted.(running := false), 3.0, 0, Nothing, t)]
  }

  lemma LaunchedAfterTheFlag(rooms: Parsed)
    ensures var worlds, run := LateWorlds(rooms), LateRun(rooms);
            IsRun(worlds, run) && Initial(worlds[0]) && run[4].event.StopFlag? && run[5].event.Launch?
  {
    var worlds, run := LateWorlds(rooms), LateRun(rooms);
    assert IsStep(worlds[0], run[0], worlds[1]) && IsStep(worlds[1], run[1], worlds[2]);
    assert IsStep(worlds[2], run[2], worlds[3]) && IsStep(worlds[3], run[3], worlds[4]);
    assert IsStep(worlds[4], run[4], worlds[5]) && IsStep(worlds[5], run[5], worlds[6]);
    assert forall i :: 0 <= i < |run| ==> IsStep(worlds[i], run[i], worlds[i + 1]);
  }

  /** And one in which a request goes out after it. */
  function LateFetch(rooms: Parsed): (run: seq<Happening>) {
    [Happening(Begin(true, rooms), 0.0), Happening(Session, 0.0), Happening(Session, 1.0),
     Happening(Ask, 1.0), Happening(StopFlag, 1.0), Happening(Send, 1.0)]
  }

  function LateFetchWorlds(rooms: Parsed): (worlds: seq<World>) {
    var t0, t1 := Tally(0.0, 0, 0, 0.0, 0.0), Tally(0.0, 1, 0, 1.0, 0.0);
    var asked := Kept(rooms, 2, Some(1.0), true, None);
    [Fresh(0.0), World(Kept(rooms, 0, None, false, None), 0.0, 0, Nothing, t0),
     World(Kept(rooms, 1, None, false, None), 0.0, 0, Nothing, t0),
     World(Kept(rooms, 2, None, false, None), 1.0, 0, Asking, t0), World(asked, 1.0, 0, Sending, t1),
     World(asked.(running := false), 1.0, 0, Sending, t1), World(asked.(running := false), 1.0, 1, Nothing, t1)]
  }

  lemma SentAfterTheFlag(rooms: Parsed)
    ensures var worlds, run := LateFetchWorlds(rooms), LateFetch(rooms);
            IsRun(worlds, run) && Initial(worlds[0]) && run[4].event.StopFlag? && run[5].event.Send?
  {
    var worlds, run := LateFetchWorlds(rooms), LateFetch(rooms);
    assert IsStep(worlds[0], run[0], worlds[1]) && IsStep(worlds[1], run[1], worlds[2]);
    assert IsStep(worlds[2], run[2], worlds[3]) && IsStep(worlds[3], run[3], worlds[4]);
    assert IsStep(worlds[4], run[4], worlds[5]) && IsStep(worlds[5], run[5], worlds[6]);
    assert forall i :: 0 <= i < |run| ==> IsStep(worlds[i], run[i], worlds[i + 1]);
  }
}
