/**
The cron service's timer protocol (internal/cron/service.go): two timers, a ticking flag and
a stopped flag under one mutex, with timer callbacks, job writes, the tick body and Stop
interleaving in any order. Each step below is one critical section or one event outside the
lock; delays are nanoseconds, times are milliseconds.
 */
module CronTimer {

  import opened Wrappers

  const MILLISECOND: int := 1_000_000
  const MIN_REFIRE_GAP: int := 2_000 * MILLISECOND
  const MAX_TIMER_DELAY: int := 60_000 * MILLISECOND

  const TWO64: int := 0x1_0000_0000_0000_0000
  const TWO63: int := 0x8000_0000_0000_0000

  /** Reduction to a signed 64-bit integer, as Go arithmetic does it. */
  function Wrap64(x: int): int {
    (x + TWO63) % TWO64 - TWO63
  }

  /** clampCronTimerDelay, including the wrap-around of the Duration product. */
  function ClampDelay(nowMs: int, nextDueMs: int): int {
    if nextDueMs <= 0 then MAX_TIMER_DELAY
    else
      var delay := Wrap64(Wrap64(nextDueMs - nowMs) * MILLISECOND);
      if delay < MIN_REFIRE_GAP then MIN_REFIRE_GAP
      else if delay > MAX_TIMER_DELAY then MAX_TIMER_DELAY
      else delay
  }

  /** armTimer's delay: nextDue is what nextWakeMsLocked found. */
  function ArmDelay(nowMs: int, nextDue: Option<int>): int {
    match nextDue
    case None => MAX_TIMER_DELAY
    case Some(due) => ClampDelay(nowMs, due)
  }

  /** The delay never undercuts the refire gap nor exceeds the maximum; within 292 years of the
      due time it is the distance clamped to them, so the timer never sleeps past a due job
      that is more than the gap away. */
  lemma DelayIsClamped(nowMs: int, nextDue: Option<int>)
    ensures MIN_REFIRE_GAP <= ArmDelay(nowMs, nextDue) <= MAX_TIMER_DELAY
    ensures nextDue.Some? && nextDue.value > 0
            && -9_223_372_036_854 <= nextDue.value - nowMs <= 9_223_372_036_854 ==>
              var d := (nextDue.value - nowMs) * MILLISECOND;
              ArmDelay(nowMs, nextDue) ==
                (if d < MIN_REFIRE_GAP then MIN_REFIRE_GAP else if d > MAX_TIMER_DELAY then MAX_TIMER_DELAY else d)
  {
  }

  // ---------------------------------------------------------------- the locked state

  /** Fields of Service, and the runtime's set of timers still due to fire. */
  datatype Timers = Timers(
    timer: Option<nat>,
    recheck: Option<nat>,
    ticking: bool,
    stopped: bool,
    armed: map<nat, int>,
    nextId: nat)

  /** time.Timer.Stop: a timer that already fired is unaffected. */
  function Cancel(t: Timers, id: Option<nat>): Timers {
    if id.Some? then t.(armed := t.armed - {id.value}) else t
  }

  function StopTimers(t: Timers): Timers {
    Cancel(Cancel(t, t.timer), t.recheck).(timer := None, recheck := None)
  }

  function ScheduleRecheck(t: Timers): Timers {
    var t' := Cancel(t, t.recheck);
    t'.(recheck := Some(t.nextId), armed := t'.armed[t.nextId := MAX_TIMER_DELAY], nextId := t.nextId + 1)
  }

  function Arm(t: Timers, nowMs: int, nextDue: Option<int>): Timers {
    if t.stopped then t
    else if t.ticking then ScheduleRecheck(t)
    else
      var t' := StopTimers(t);
      t'.(timer := Some(t.nextId), armed := t'.armed[t.nextId := ArmDelay(nowMs, nextDue)], nextId := t.nextId + 1)
  }

  /** onTimer's critical section; the flag says whether a tick body starts. */
  function EnterTick(t: Timers): (Timers, bool) {
    if t.stopped || t.ticking then (ScheduleRecheck(t), false)
    else (ScheduleRecheck(t.(ticking := true)), true)
  }

  function FinishTick(t: Timers): Timers {
    Cancel(t, t.recheck).(ticking := false, recheck := None)
  }

  function StopAll(t: Timers): Timers {
    StopTimers(t.(stopped := true))
  }

  class Service {
    var timer: Option<nat>
    var recheck: Option<nat>
    var ticking: bool
    var stopped: bool
    var armed: map<nat, int>
    var nextId: nat

    function State(): Timers
      reads this
    {
      Timers(timer, recheck, ticking, stopped, armed, nextId)
    }

    constructor ()
      ensures State() == IDLE
    {
      timer, recheck, ticking, stopped, armed, nextId := None, None, false, false, map[], 0;
    }

    method StopTimersLocked()
      modifies this
      ensures State() == StopTimers(old(State()))
    {
      if timer.Some? {
        armed := armed - {timer.value};
        timer := None;
      }
      if recheck.Some? {
        armed := armed - {recheck.value};
        recheck := None;
      }
    }

    method AfterFunc(delay: int) returns (id: nat)
      modifies this`armed, this`nextId
      ensures id == old(nextId) && nextId == id + 1 && armed == old(armed)[id := delay]
    {
      id := nextId;
      armed := armed[id := delay];
      nextId := nextId + 1;
    }

    method ScheduleRecheckLocked()
      modifies this
      ensures State() == ScheduleRecheck(old(State()))
    {
      if recheck.Some? {
        armed := armed - {recheck.value};
      }
      var id := AfterFunc(MAX_TIMER_DELAY);
      recheck := Some(id);
    }

    method ArmTimer(nowMs: int, nextDue: Option<int>)
      modifies this
      ensures State() == Arm(old(State()), nowMs, nextDue)
    {
      if stopped {
        return;
      }
      if ticking {
        ScheduleRecheckLocked();
        return;
      }
      StopTimersLocked();
      var id := AfterFunc(ArmDelay(nowMs, nextDue));
      timer := Some(id);
    }

    method OnTimer() returns (starts: bool)
      modifies this
      ensures (State(), starts) == EnterTick(old(State()))
    {
      if stopped || ticking {
        ScheduleRecheckLocked();
        return false;
      }
      ticking := true;
      ScheduleRecheckLocked();
      return true;
    }

    method Finish()
      modifies this
      ensures State() == FinishTick(old(State()))
    {
      ticking := false;
      if recheck.Some? {
        armed := armed - {recheck.value};
        recheck := None;
      }
    }

    method Stop()
      modifies this
      ensures State() == StopAll(old(State()))
    {
      stopped := true;
      StopTimersLocked();
    }
  }

  // ---------------------------------------------------------------- goroutines

  /** The body of a tick: jobs still to start, whether one has been added to the wait group
      but waits for a slot, occupied slots, the wait group, and the jobs by progress. */
  datatype Tick = Tick(remaining: nat, adding: bool, sem: nat, wg: nat, running: nat, returned: nat, released: nat)

  datatype Phase = Callback | ArmPending | Loading | Running(tick: Tick)

  datatype System = System(timers: Timers, procs: map<nat, Phase>)

  datatype Step =
    | Spawn(g: nat)                                // Start, Create, Update, Delete or RunNow reaches armTimer
    | ArmStep(g: nat, nowMs: int, nextDue: Option<int>)
    | Fire(id: nat, g: nat)
    | Enter(g: nat)
    | Load(g: nat, due: Option<nat>)               // None: the query failed
    | Skip(g: nat)
    | Add(g: nat)
    | Acquire(g: nat)
    | Return(g: nat)
    | Release(g: nat)
    | WaitDone(g: nat)
    | Finish(g: nat)
    | StopStep

  const IDLE: Timers := Timers(None, None, false, false, map[], 0)
  const INITIAL: System := System(IDLE, map[])

  predicate InTick(p: Phase) {
    p.Loading? || p.Running?
  }

  predicate IsRunning(s: System, g: nat) {
    g in s.procs && s.procs[g].Running?
  }

  predicate Enabled(s: System, step: Step, pool: nat) {
    match step
    case Spawn(g) => g !in s.procs
    case ArmStep(g, _, _) => g in s.procs && s.procs[g].ArmPending?
    case Fire(id, g) => id in s.timers.armed && g !in s.procs
    case Enter(g) => g in s.procs && s.procs[g].Callback?
    case Load(g, _) => g in s.procs && s.procs[g].Loading?
    case Skip(g) => IsRunning(s, g) && s.procs[g].tick.remaining > 0 && !s.procs[g].tick.adding
    case Add(g) => IsRunning(s, g) && s.procs[g].tick.remaining > 0 && !s.procs[g].tick.adding
    case Acquire(g) => IsRunning(s, g) && s.procs[g].tick.adding && s.procs[g].tick.sem < pool
    case Return(g) => IsRunning(s, g) && s.procs[g].tick.running > 0
    case Release(g) => IsRunning(s, g) && s.procs[g].tick.returned > 0 && s.procs[g].tick.sem > 0
    case WaitDone(g) => IsRunning(s, g) && s.procs[g].tick.released > 0 && s.procs[g].tick.wg > 0
    case Finish(g) =>
      IsRunning(s, g) && s.procs[g].tick.remaining == 0 && !s.procs[g].tick.adding && s.procs[g].tick.wg == 0
    case StopStep => true
  }

  function SetTick(s: System, g: nat, t: Tick): System {
    s.(procs := s.procs[g := Running(t)])
  }

  function Do(s: System, step: Step, pool: nat): System
    requires Enabled(s, step, pool)
  {
    match step
    case Spawn(g) => s.(procs := s.procs[g := ArmPending])
    case ArmStep(g, now, due) => System(Arm(s.timers, now, due), s.procs - {g})
    case Fire(id, g) => System(s.timers.(armed := s.timers.armed - {id}), s.procs[g := Callback])
    case Enter(g) =>
      var (t, starts) := EnterTick(s.timers);
      System(t, if starts then s.procs[g := Loading] else s.procs - {g})
    case Load(g, due) =>
      (match due
       case Some(n) => SetTick(s, g, Tick(n, false, 0, 0, 0, 0, 0))
       case None => System(FinishTick(s.timers), s.procs[g := ArmPending]))
    case Skip(g) => SetTick(s, g, s.procs[g].tick.(remaining := s.procs[g].tick.remaining - 1))
    case Add(g) =>
      var t := s.procs[g].tick;
      SetTick(s, g, t.(remaining := t.remaining - 1, adding := true, wg := t.wg + 1))
    case Acquire(g) =>
      var t := s.procs[g].tick;
      SetTick(s, g, t.(adding := false, sem := t.sem + 1, running := t.running + 1))
    case Return(g) =>
      var t := s.procs[g].tick;
      SetTick(s, g, t.(running := t.running - 1, returned := t.returned + 1))
    case Release(g) =>
      var t := s.procs[g].tick;
      SetTick(s, g, t.(returned := t.returned - 1, released := t.released + 1, sem := t.sem - 1))
    case WaitDone(g) =>
      var t := s.procs[g].tick;
      SetTick(s, g, t.(released := t.released - 1, wg := t.wg - 1))
    case Finish(g) => System(FinishTick(s.timers), s.procs[g := ArmPending])
    case StopStep => s.(timers := StopAll(s.timers))
  }

  /** onTimer raises a pool below one to one. */
  function Pool(maxConcurrentRuns: int): nat {
    if maxConcurrentRuns < 1 then 1 else maxConcurrentRuns
  }

  predicate IsRun(steps: seq<Step>, pool: nat)
    decreases |steps|, 0
  {
    steps == [] || (IsRun(steps[..|steps| - 1], pool)
        && Enabled(After(steps[..|steps| - 1], pool), steps[|steps| - 1], pool))
  }

  function After(steps: seq<Step>, pool: nat): System
    requires IsRun(steps, pool)
    decreases |steps|, 1
  {
    if steps == [] then INITIAL
    else Do(After(steps[..|steps| - 1], pool), steps[|steps| - 1], pool)
  }

  // ---------------------------------------------------------------- invariant

  predicate TickOk(t: Tick, pool: nat) {
    t.sem == t.running + t.returned
    && t.wg == (if t.adding then 1 else 0) + t.running + t.returned + t.released
    && t.sem <= pool
  }

  /** Only the two timers the service knows about can be pending, with delays in range. */
  ghost predicate TimersOk(t: Timers) {
    forall id :: id in t.armed ==>
      id < t.nextId && (t.timer == Some(id) || t.recheck == Some(id))
      && MIN_REFIRE_GAP <= t.armed[id] <= MAX_TIMER_DELAY
  }

  ghost predicate OneTick(s: System) {
    (forall g, g' :: g in s.procs && g' in s.procs && InTick(s.procs[g]) && InTick(s.procs[g']) ==> g == g')
    && (s.timers.ticking <==> exists g :: g in s.procs && InTick(s.procs[g]))
  }

  ghost predicate WillWake(s: System) {
    s.timers.armed.Keys != {} || s.procs.Keys != {}
  }

  ghost predicate Inv(s: System, pool: nat) {
    TimersOk(s.timers) && OneTick(s)
    && (forall g :: IsRunning(s, g) ==> TickOk(s.procs[g].tick, pool))
  }

  lemma OneTickKept(s: System, step: Step, pool: nat)
    requires OneTick(s) && Enabled(s, step, pool)
    ensures OneTick(Do(s, step, pool))
  {
    var s' := Do(s, step, pool);
    if step.Enter? && !s.timers.stopped && !s.timers.ticking {
      assert InTick(s'.procs[step.g]);
    } else if step.Finish? || (step.Load? && step.due.None?) {
      assert InTick(s.procs[step.g]);
    } else if step.StopStep? {
    } else {
      forall g | g in s.procs && InTick(s.procs[g]) ensures g in s'.procs && InTick(s'.procs[g]) {}
      forall g | g in s'.procs && InTick(s'.procs[g]) ensures g in s.procs && InTick(s.procs[g]) {}
    }
  }

  lemma StopTimersEmpties(t: Timers)
    requires TimersOk(t)
    ensures StopTimers(t).armed == map[]
  {
    assert StopTimers(t).armed.Keys == {};
  }

  lemma RecheckKept(t: Timers)
    requires TimersOk(t)
    ensures TimersOk(ScheduleRecheck(t))
  {
  }

  lemma TimersKept(t: Timers, nowMs: int, nextDue: Option<int>)
    requires TimersOk(t)
    ensures TimersOk(Arm(t, nowMs, nextDue)) && TimersOk(EnterTick(t).0)
            && TimersOk(FinishTick(t)) && TimersOk(StopAll(t))
  {
    DelayIsClamped(nowMs, nextDue);
    StopTimersEmpties(t);
    StopTimersEmpties(t.(stopped := true));
    RecheckKept(t);
    RecheckKept(t.(ticking := true));
  }

  /** What the four critical sections leave, given that only the two known timers were pending:
      arming replaces them by one timer with the clamped delay to the next due time, or, during a
      tick, sets the recheck to 60 s; a callback always sets it, and starts a tick unless stopped
      or ticking; the end of a tick cancels it; Stop cancels everything. */
  lemma CriticalSections(t: Timers, nowMs: int, nextDue: Option<int>)
    requires TimersOk(t)
    ensures t.stopped ==> Arm(t, nowMs, nextDue) == t
    ensures !t.stopped && !t.ticking ==>
              Arm(t, nowMs, nextDue).armed == map[t.nextId := ArmDelay(nowMs, nextDue)]
              && Arm(t, nowMs, nextDue).timer == Some(t.nextId) && Arm(t, nowMs, nextDue).recheck == None
    ensures !t.stopped && t.ticking ==>
              t.nextId in Arm(t, nowMs, nextDue).armed
              && Arm(t, nowMs, nextDue).armed[t.nextId] == 60_000_000_000
              && Arm(t, nowMs, nextDue).recheck == Some(t.nextId) && Arm(t, nowMs, nextDue).timer == t.timer
    ensures var (u, starts) := EnterTick(t);
            (starts <==> !t.stopped && !t.ticking) && u.ticking == (t.ticking || starts) && u.stopped == t.stopped
            && u.recheck == Some(t.nextId) && t.nextId in u.armed && u.armed[t.nextId] == 60_000_000_000
    ensures var u := FinishTick(t);
            !u.ticking && u.recheck == None && u.timer == t.timer
            && u.armed == if t.recheck.Some? then t.armed - {t.recheck.value} else t.armed
    ensures StopAll(t).stopped && StopAll(t).armed == map[] && StopAll(t).ticking == t.ticking
  {
    StopTimersEmpties(t);
    StopTimersEmpties(t.(stopped := true));
  }

  lemma TickKept(s: System, step: Step, pool: nat, g: nat)
    requires forall g' :: IsRunning(s, g') ==> TickOk(s.procs[g'].tick, pool)
    requires Enabled(s, step, pool) && IsRunning(Do(s, step, pool), g)
    ensures TickOk(Do(s, step, pool).procs[g].tick, pool)
  {
    if IsRunning(s, g) { assert TickOk(s.procs[g].tick, pool); }
  }

  lemma StepKeepsInv(s: System, step: Step, pool: nat)
    requires Inv(s, pool) && Enabled(s, step, pool)
    ensures Inv(Do(s, step, pool), pool)
  {
    OneTickKept(s, step, pool);
    if step.ArmStep? { TimersKept(s.timers, step.nowMs, step.nextDue); } else { TimersKept(s.timers, 0, None); }
    forall g | IsRunning(Do(s, step, pool), g) ensures TickOk(Do(s, step, pool).procs[g].tick, pool) {
      TickKept(s, step, pool, g);
    }
  }

  lemma {:induction false} RunKeepsInv(steps: seq<Step>, pool: nat)
    requires IsRun(steps, pool)
    ensures Inv(After(steps, pool), pool)
  {
    if steps != [] {
      RunKeepsInv(steps[..|steps| - 1], pool);
      StepKeepsInv(After(steps[..|steps| - 1], pool), steps[|steps| - 1], pool);
    }
  }

  // ---------------------------------------------------------------- theorems over all runs

  /** In every interleaving: at most one tick body, the ticking flag says whether there is one,
      at most the two known timers are pending, and every pending delay is 2 s to 60 s. */
  lemma TimerSafety(steps: seq<Step>, pool: nat)
    requires IsRun(steps, pool)
    ensures var s := After(steps, pool);
            OneTick(s)
            && (forall id :: id in s.timers.armed ==>
                  (s.timers.timer == Some(id) || s.timers.recheck == Some(id))
                  && MIN_REFIRE_GAP <= s.timers.armed[id] <= MAX_TIMER_DELAY)
  {
    RunKeepsInv(steps, pool);
  }

  /** At most MaxConcurrentRuns jobs are in flight in a tick, and none when it may end. */
  lemma ConcurrencyBound(steps: seq<Step>, maxConcurrentRuns: int, g: nat)
    requires IsRun(steps, Pool(maxConcurrentRuns)) && IsRunning(After(steps, Pool(maxConcurrentRuns)), g)
    ensures var t := After(steps, Pool(maxConcurrentRuns)).procs[g].tick;
            t.running <= Pool(maxConcurrentRuns)
            && (maxConcurrentRuns >= 1 ==> t.running <= maxConcurrentRuns) && (maxConcurrentRuns < 1 ==> t.running <= 1)
            && (Enabled(After(steps, Pool(maxConcurrentRuns)), Finish(g), Pool(maxConcurrentRuns)) ==>
                  t.running == 0 && t.sem == 0 && t.remaining == 0)
  {
    RunKeepsInv(steps, Pool(maxConcurrentRuns));
    assert TickOk(After(steps, Pool(maxConcurrentRuns)).procs[g].tick, Pool(maxConcurrentRuns));
  }

  lemma {:induction false} RunPrefix(steps: seq<Step>, pool: nat, n: nat)
    requires IsRun(steps, pool) && n <= |steps|
    ensures IsRun(steps[..n], pool)
    decreases |steps|
  {
    if n == |steps| {
      assert steps[..n] == steps;
    } else {
      RunPrefix(steps[..|steps| - 1], pool, n);
      assert steps[..|steps| - 1][..n] == steps[..n];
    }
  }

  lemma WakeKept(s: System, step: Step, pool: nat)
    requires Enabled(s, step, pool) && (WillWake(s) || step.Spawn?)
    ensures WillWake(Do(s, step, pool)) || Do(s, step, pool).timers.stopped
  {
    var s' := Do(s, step, pool);
    match step
    case ArmStep(g, now, due) =>
      if !s.timers.stopped { assert s.timers.nextId in s'.timers.armed; }
    case Fire(id, g) => assert g in s'.procs;
    case Enter(g) =>
      assert s.timers.nextId in s'.timers.armed;
    case Spawn(g) => assert g in s'.procs;
    case Load(g, _) => assert g in s'.procs;
    case Skip(g) => assert g in s'.procs;
    case Add(g) => assert g in s'.procs;
    case Acquire(g) => assert g in s'.procs;
    case Return(g) => assert g in s'.procs;
    case Release(g) => assert g in s'.procs;
    case WaitDone(g) => assert g in s'.procs;
    case Finish(g) => assert g in s'.procs;
    case StopStep =>
  }

  lemma StoppedStays(s: System, step: Step, pool: nat)
    requires Enabled(s, step, pool) && s.timers.stopped
    ensures Do(s, step, pool).timers.stopped
  {
  }

  /** Once something has asked for a timer and until Stop, there is always a pending timer, a
      callback, a tick body or a goroutine about to arm: the scheduler cannot fall asleep. */
  lemma {:induction false} NeverFallsAsleep(steps: seq<Step>, pool: nat, n: nat)
    requires IsRun(steps, pool) && n < |steps| && steps[n].Spawn? && !After(steps, pool).timers.stopped
    ensures WillWake(After(steps, pool))
    decreases |steps|
  {
    var g := steps[..|steps| - 1];
    if After(g, pool).timers.stopped {
      StoppedStays(After(g, pool), steps[|steps| - 1], pool);
    }
    if n < |g| {
      NeverFallsAsleep(g, pool, n);
    }
    WakeKept(After(g, pool), steps[|steps| - 1], pool);
  }

  /** How much of a tick body is left. */
  function Rank(t: Tick): nat {
    5 * t.remaining + (if t.adding then 4 else 0) + 3 * t.running + 2 * t.returned + t.released
  }

  predicate TickStep(step: Step, g: nat) {
    (step.Skip? || step.Add? || step.Acquire? || step.Return? || step.Release? || step.WaitDone?) && step.g == g
  }

  /** Each step of a tick body brings its end nearer. */
  lemma TickNears(s: System, step: Step, pool: nat, g: nat)
    requires IsRunning(s, g) && TickStep(step, g) && Enabled(s, step, pool)
    ensures IsRunning(Do(s, step, pool), g) && Rank(Do(s, step, pool).procs[g].tick) < Rank(s.procs[g].tick)
  {
  }

  /** Until it may finish one of its steps is enabled. */
  lemma TickMoves(s: System, pool: nat, g: nat)
    requires pool > 0 && IsRunning(s, g) && TickOk(s.procs[g].tick, pool)
    ensures Enabled(s, Finish(g), pool) || exists step :: TickStep(step, g) && Enabled(s, step, pool)
  {
    var t := s.procs[g].tick;
    if t.running > 0 { assert TickStep(Return(g), g) && Enabled(s, Return(g), pool); }
    else if t.returned > 0 { assert TickStep(Release(g), g) && Enabled(s, Release(g), pool); }
    else if t.released > 0 { assert TickStep(WaitDone(g), g) && Enabled(s, WaitDone(g), pool); }
    else if t.adding { assert TickStep(Acquire(g), g) && Enabled(s, Acquire(g), pool); }
    else if t.remaining > 0 { assert TickStep(Add(g), g) && Enabled(s, Add(g), pool); }
  }

  /** In every run, a tick body is never stuck and never runs forever. */
  lemma TickEnds(steps: seq<Step>, maxConcurrentRuns: int, g: nat)
    requires IsRun(steps, Pool(maxConcurrentRuns)) && IsRunning(After(steps, Pool(maxConcurrentRuns)), g)
    ensures var pool := Pool(maxConcurrentRuns);
            var s := After(steps, pool);
            (Enabled(s, Finish(g), pool) || exists step :: TickStep(step, g) && Enabled(s, step, pool))
            && forall step :: TickStep(step, g) && Enabled(s, step, pool) ==>
                 IsRunning(Do(s, step, pool), g) && Rank(Do(s, step, pool).procs[g].tick) < Rank(s.procs[g].tick)
  {
    var pool := Pool(maxConcurrentRuns);
    var s := After(steps, pool);
    RunKeepsInv(steps, pool);
    TickMoves(s, pool, g);
    forall step | TickStep(step, g) && Enabled(s, step, pool)
      ensures IsRunning(Do(s, step, pool), g) && Rank(Do(s, step, pool).procs[g].tick) < Rank(s.procs[g].tick)
    {
      TickNears(s, step, pool, g);
    }
  }

  // ---------------------------------------------------------------- stopping

  ghost function TickProcs(s: System): set<nat> {
    set g | g in s.procs && InTick(s.procs[g])
  }

  /** No tick body starts after Stop. */
  lemma {:induction false} NoTickStartsAfterStop(steps: seq<Step>, pool: nat, n: nat)
    requires IsRun(steps, pool) && n <= |steps| && IsRun(steps[..n], pool) && After(steps[..n], pool).timers.stopped
    ensures After(steps, pool).timers.stopped
    ensures TickProcs(After(steps, pool)) <= TickProcs(After(steps[..n], pool))
    decreases |steps|
  {
    if n == |steps| {
      assert steps[..n] == steps;
    } else {
      var g := steps[..|steps| - 1];
      assert g[..n] == steps[..n];
      NoTickStartsAfterStop(g, pool, n);
      NoNewTick(After(g, pool), steps[|steps| - 1], pool);
    }
  }

  lemma NoNewTick(s: System, step: Step, pool: nat)
    requires Enabled(s, step, pool) && s.timers.stopped
    ensures Do(s, step, pool).timers.stopped && TickProcs(Do(s, step, pool)) <= TickProcs(s)
  {
  }

  ghost predicate CallbackInFlight(s: System) {
    exists g :: g in s.procs && s.procs[g].Callback?
  }

  /** Stop does not end every timer: a callback that had already fired arms the recheck timer
      again. After Stop a state without timers can get one exactly when such a callback is left. */
  lemma TimerAfterStopIff(s: System, pool: nat)
    requires s.timers.stopped && s.timers.armed.Keys == {}
    ensures (exists step :: Enabled(s, step, pool) && Do(s, step, pool).timers.armed.Keys != {})
            <==> CallbackInFlight(s)
  {
    if CallbackInFlight(s) {
      var g :| g in s.procs && s.procs[g].Callback?;
      assert Enabled(s, Enter(g), pool);
      assert s.timers.nextId in Do(s, Enter(g), pool).timers.armed;
    }
    forall step | Enabled(s, step, pool) && !CallbackInFlight(s) ensures Do(s, step, pool).timers.armed.Keys == {} {
      assert Do(s, step, pool).timers.armed.Keys <= s.timers.armed.Keys;
    }
  }

  lemma QuietKept(s: System, step: Step, pool: nat)
    requires Enabled(s, step, pool) && s.timers.stopped && s.timers.armed.Keys == {} && !CallbackInFlight(s)
    ensures var s' := Do(s, step, pool);
            s'.timers.stopped && s'.timers.armed.Keys == {} && !CallbackInFlight(s')
  {
    var s' := Do(s, step, pool);
    assert s'.timers.armed.Keys <= s.timers.armed.Keys;
    forall g | g in s'.procs && s'.procs[g].Callback? ensures g in s.procs && s.procs[g].Callback? {}
  }

  /** Without such a callback the service stays quiet for ever. */
  lemma {:induction false} QuietAfterStop(steps: seq<Step>, pool: nat, n: nat)
    requires IsRun(steps, pool) && n <= |steps| && IsRun(steps[..n], pool)
    requires var s := After(steps[..n], pool);
             s.timers.stopped && s.timers.armed.Keys == {} && !CallbackInFlight(s)
    ensures After(steps, pool).timers.armed.Keys == {} && !CallbackInFlight(After(steps, pool))
    ensures After(steps, pool).timers.stopped
    decreases |steps|
  {
    if n == |steps| {
      assert steps[..n] == steps;
    } else {
      var g := steps[..|steps| - 1];
      assert g[..n] == steps[..n];
      QuietAfterStop(g, pool, n);
      QuietKept(After(g, pool), steps[|steps| - 1], pool);
    }
  }

  /** Stopped, with no tick body under way, and yet a timer or a fired callback is left. */
  ghost predicate Restless(s: System) {
    s.timers.stopped && !s.timers.ticking && (s.timers.armed.Keys != {} || CallbackInFlight(s))
  }

  lemma RestlessStep(s: System, step: Step, pool: nat)
    requires Inv(s, pool) && Enabled(s, step, pool) && Restless(s) && !step.StopStep?
    ensures Restless(Do(s, step, pool))
  {
    var s' := Do(s, step, pool);
    assert forall g :: g in s.procs ==> !InTick(s.procs[g]);
    if step.Fire? {
      assert s'.procs[step.g].Callback?;
    } else if step.Enter? {
      assert s.timers.nextId in s'.timers.armed;
    } else if CallbackInFlight(s) {
      var g :| g in s.procs && s.procs[g].Callback?;
      assert g in s'.procs && s'.procs[g].Callback?;
    }
  }

  /** Then the service never comes to rest by itself: the callback arms the recheck timer, its
      firing is a callback again, and so on for ever, until Stop is called once more. */
  lemma {:induction false} RestlessForever(steps: seq<Step>, pool: nat, n: nat)
    requires IsRun(steps, pool) && n <= |steps| && IsRun(steps[..n], pool) && Restless(After(steps[..n], pool))
    requires forall k :: n <= k < |steps| ==> !steps[k].StopStep?
    ensures Restless(After(steps, pool))
    decreases |steps|
  {
    if n == |steps| {
      assert steps[..n] == steps;
    } else {
      var g := steps[..|steps| - 1];
      assert g[..n] == steps[..n];
      RestlessForever(g, pool, n);
      RunKeepsInv(g, pool);
      RestlessStep(After(g, pool), steps[|steps| - 1], pool);
    }
  }

  lemma Extend(steps: seq<Step>, step: Step, pool: nat)
    requires IsRun(steps, pool) && Enabled(After(steps, pool), step, pool)
    ensures IsRun(steps + [step], pool) && After(steps + [step], pool) == Do(After(steps, pool), step, pool)
  {
    assert (steps + [step])[..|steps|] == steps;
  }

  /** Such a run: the timer fires, Stop runs before the callback takes the lock, and the
      callback then arms a timer on the stopped service. */
  lemma StopRacesCallback() returns (steps: seq<Step>)
    ensures IsRun(steps, 1) && |steps| > 1 && steps[|steps| - 2] == StopStep
    ensures var s := After(steps, 1); s.timers.armed.Keys != {} && Restless(s)
  {
    Extend([], Spawn(0), 1);
    var s1 := [] + [Spawn(0)];
    Extend(s1, ArmStep(0, 0, None), 1);
    var s2 := s1 + [ArmStep(0, 0, None)];
    assert 0 in After(s2, 1).timers.armed;
    Extend(s2, Fire(0, 1), 1);
    var s3 := s2 + [Fire(0, 1)];
    Extend(s3, StopStep, 1);
    var s4 := s3 + [StopStep];
    Extend(s4, Enter(1), 1);
    steps := s4 + [Enter(1)];
    assert 1 in After(steps, 1).timers.armed;
  }
}
