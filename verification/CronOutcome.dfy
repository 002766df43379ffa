/**
What a finished run does to its job (applyOutcome, emitFailureAlert and the end of runOneJob
in internal/cron/service.go), and what follows over many runs.
 */
module CronOutcome {

  import opened Wrappers
  import opened CronSchedule

  datatype Status = RunOk | RunError | RunSkipped

  datatype AlertConfig = AlertConfig(after: int, cooldownMs: int)

  /** The cron configuration; transient is IsTransientError with the configured patterns. */
  datatype Config = Config(
    maxAttempts: int,
    backoffMs: seq<int>,
    transient: string -> bool,
    alertsEnabled: bool,
    alertAfter: int,
    alertCooldownMs: int)

  datatype Job = Job(
    enabled: bool,
    schedule: Schedule,
    deleteAfterRun: bool,
    alert: Option<AlertConfig>,
    nextRunMs: int,
    runningMs: int,
    lastRunMs: int,
    lastStatus: Option<Status>,
    lastError: string,
    lastDurationMs: int,
    errors: int,
    scheduleErrors: int,
    lastAlertMs: int)

  /** One run: when the tick found it due, when it started and ended, the clock read by the
      alert code, and the result. Instants are nanoseconds; ...Ms values milliseconds. */
  datatype Run = Run(tickMs: int, started: int, ended: int, alertMs: int, status: Status, error: string)

  const SCHEDULE_ERROR_TRIP: int := 5
  const HOUR_MS: int := 3_600_000

  // ---------------------------------------------------------------- specification

  /** time.Duration.Milliseconds, which rounds towards zero. */
  function DurationMs(d: int): int {
    if d >= 0 then d / MS else -(-d / MS)
  }

  function AlertCooldownMs(cfg: Config, j: Job): int {
    if j.alert.Some? && j.alert.value.cooldownMs >= 0 then j.alert.value.cooldownMs
    else if cfg.alertsEnabled && cfg.alertCooldownMs > 0 then cfg.alertCooldownMs
    else HOUR_MS
  }

  function AlertAfter(cfg: Config, j: Job): int {
    if j.alert.Some? && j.alert.value.after > 0 then j.alert.value.after
    else if cfg.alertAfter <= 0 then 2
    else cfg.alertAfter
  }

  /** Whether emitFailureAlert sends, once the error has been counted. */
  predicate Alerts(cfg: Config, j: Job, nowMs: int) {
    (cfg.alertsEnabled || j.alert.Some?)
    && j.errors >= AlertAfter(cfg, j)
    && (j.lastAlertMs == 0 || nowMs - j.lastAlertMs >= AlertCooldownMs(cfg, j))
  }

  /** The bookkeeping every outcome does before the schedule is looked at. */
  function Counted(cfg: Config, j: Job, r: Run): Job {
    var k := j.(runningMs := 0, lastRunMs := UnixMilli(r.started), lastDurationMs := DurationMs(r.ended - r.started),
                lastStatus := Some(r.status), lastError := r.error,
                errors := if r.status == RunError then j.errors + 1 else 0,
                lastAlertMs := if r.status == RunError then j.lastAlertMs else 0);
    if r.status == RunError && Alerts(cfg, k, r.alertMs) then k.(lastAlertMs := r.alertMs) else k
  }

  predicate Sends(cfg: Config, j: Job, r: Run) {
    r.status == RunError && Alerts(cfg, j.(errors := j.errors + 1), r.alertMs)
  }

  /** Where the next run goes, once the outcome has been counted. */
  function Rescheduled(cfg: Config, k: Job, r: Run): Job {
    var endMs := UnixMilli(r.ended);
    var backoff := ErrorBackoffMs(Max(1, k.errors), cfg.backoffMs);
    if k.schedule.At? then
      if r.status == RunError && cfg.transient(r.error) && k.errors <= cfg.maxAttempts
      then k.(nextRunMs := endMs + ErrorBackoffMs(k.errors, cfg.backoffMs), scheduleErrors := 0)
      else k.(enabled := false, nextRunMs := 0, scheduleErrors := 0)
    else
      match ComputeNext(k.schedule, r.ended)
      case None =>
        if k.scheduleErrors + 1 >= SCHEDULE_ERROR_TRIP
        then k.(scheduleErrors := k.scheduleErrors + 1, enabled := false, nextRunMs := 0)
        else k.(scheduleErrors := k.scheduleErrors + 1, nextRunMs := endMs + backoff)
      case Some(next) =>
        var afterError := if r.status == RunOk then UnixMilli(next) else Max(UnixMilli(next), endMs + backoff);
        var spaced := if k.schedule.Cron? then Max(afterError, endMs + MIN_REFIRE_GAP_MS) else afterError;
        k.(scheduleErrors := 0, nextRunMs := spaced)
  }

  function Outcome(cfg: Config, j: Job, r: Run): Job {
    Rescheduled(cfg, Counted(cfg, j, r), r)
  }

  // ---------------------------------------------------------------- the code

  class JobCell {
    const schedule: Schedule
    const deleteAfterRun: bool
    const alert: Option<AlertConfig>
    var enabled: bool
    var nextRunMs: int
    var runningMs: int
    var lastRunMs: int
    var lastStatus: Option<Status>
    var lastError: string
    var lastDurationMs: int
    var errors: int
    var scheduleErrors: int
    var lastAlertMs: int

    function Value(): Job
      reads this
    {
      Job(enabled, schedule, deleteAfterRun, alert, nextRunMs, runningMs, lastRunMs, lastStatus, lastError,
          lastDurationMs, errors, scheduleErrors, lastAlertMs)
    }

    constructor (j: Job)
      ensures Value() == j
    {
      schedule, deleteAfterRun, alert := j.schedule, j.deleteAfterRun, j.alert;
      enabled, nextRunMs, runningMs, lastRunMs := j.enabled, j.nextRunMs, j.runningMs, j.lastRunMs;
      lastStatus, lastError, lastDurationMs := j.lastStatus, j.lastError, j.lastDurationMs;
      errors, scheduleErrors, lastAlertMs := j.errors, j.scheduleErrors, j.lastAlertMs;
    }

    method EmitFailureAlert(cfg: Config, nowMs: int) returns (sent: bool)
      modifies this`lastAlertMs
      ensures sent == Alerts(cfg, old(Value()), nowMs)
      ensures lastAlertMs == if sent then nowMs else old(lastAlertMs)
    {
      if !(cfg.alertsEnabled || alert.Some?) {
        return false;
      }
      var threshold := AlertAfter(cfg, Value());
      var cooldown := AlertCooldownMs(cfg, Value());
      sent := errors >= threshold && (lastAlertMs == 0 || nowMs - lastAlertMs >= cooldown);
      if sent {
        lastAlertMs := nowMs;
      }
    }

    method ApplyOutcome(cfg: Config, r: Run) returns (sent: bool)
      modifies this
      ensures Value() == Outcome(cfg, old(Value()), r)
      ensures sent == Sends(cfg, old(Value()), r)
    {
      sent := Count(cfg, r);
      Reschedule(cfg, r);
    }

    /** The first half of applyOutcome. */
    method Count(cfg: Config, r: Run) returns (sent: bool)
      modifies this
      ensures Value() == Counted(cfg, old(Value()), r)
      ensures sent == Sends(cfg, old(Value()), r)
    {
      runningMs := 0;
      lastRunMs := UnixMilli(r.started);
      lastDurationMs := DurationMs(r.ended - r.started);
      lastStatus := Some(r.status);
      lastError := r.error;
      sent := false;
      if r.status == RunError {
        errors := errors + 1;
        sent := EmitFailureAlert(cfg, r.alertMs);
      } else {
        errors := 0;
        lastAlertMs := 0;
      }
    }

    /** The second half of applyOutcome. */
    method Reschedule(cfg: Config, r: Run)
      modifies this
      ensures Value() == Rescheduled(cfg, old(Value()), r)
    {
      if schedule.At? {
        if r.status == RunOk || r.status == RunSkipped {
          enabled := false;
          nextRunMs := 0;
          scheduleErrors := 0;
          return;
        }
        if cfg.transient(r.error) && errors <= cfg.maxAttempts {
          nextRunMs := UnixMilli(r.ended) + ErrorBackoffMs(errors, cfg.backoffMs);
        } else {
          enabled := false;
          nextRunMs := 0;
        }
        scheduleErrors := 0;
        return;
      }

      var computed := ComputeNext(schedule, r.ended);
      if computed.None? {
        scheduleErrors := scheduleErrors + 1;
        if scheduleErrors >= SCHEDULE_ERROR_TRIP {
          enabled := false;
          nextRunMs := 0;
          return;
        }
        nextRunMs := UnixMilli(r.ended) + ErrorBackoffMs(Max(1, errors), cfg.backoffMs);
        return;
      }
      scheduleErrors := 0;
      var next := UnixMilli(computed.value);
      if r.status == RunError || r.status == RunSkipped {
        var backstop := UnixMilli(r.ended) + ErrorBackoffMs(Max(1, errors), cfg.backoffMs);
        next := Max(next, backstop);
      }
      if schedule.Cron? {
        next := Max(next, UnixMilli(r.ended) + MIN_REFIRE_GAP_MS);
      }
      nextRunMs := next;
    }
  }

  // ---------------------------------------------------------------- recurring jobs

  /** Where a recurring job's next run lies after an outcome that leaves it enabled. It can fall
      before the end time only when no next instant was computable and the configured back-off
      is negative, and within the refire gap of a cron job only when the back-off is that short. */
  lemma RecurringNextRun(cfg: Config, j: Job, r: Run)
    requires j.enabled && !j.schedule.At? && Outcome(cfg, j, r).enabled
    requires j.schedule.Cron? ==> Advances(j.schedule.plain)
    ensures var k := Outcome(cfg, j, r);
            var endMs := UnixMilli(r.ended);
            var backoff := ErrorBackoffMs(Max(1, k.errors), cfg.backoffMs);
            var computed := ComputeNext(j.schedule, r.ended).Some?;
            (r.status != RunOk ==> k.nextRunMs >= endMs + backoff)
            && (k.nextRunMs >= endMs <==> computed || backoff >= 0)
            && (j.schedule.Cron? ==>
                  (k.nextRunMs >= endMs + MIN_REFIRE_GAP_MS <==> computed || backoff >= MIN_REFIRE_GAP_MS))
  {
    var k := Outcome(cfg, j, r);
    if ComputeNext(j.schedule, r.ended).Some? {
      NextIsNotBefore(j.schedule, r.ended);
    }
  }

  /** The error clause with the table itself: after the n-th consecutive error the next run is no
      earlier than the n-th entry, or the last one, after the end. */
  lemma RecurringErrorWaits(cfg: Config, j: Job, r: Run)
    requires j.enabled && !j.schedule.At? && j.errors >= 0 && r.status == RunError && Outcome(cfg, j, r).enabled
    requires j.schedule.Cron? ==> Advances(j.schedule.plain)
    ensures WaitsEntry(Outcome(cfg, j, r).nextRunMs - UnixMilli(r.ended), j.errors + 1, cfg.backoffMs)
  {
    RecurringNextRun(cfg, j, r);
    OutcomeCounters(cfg, j, r);
    BackoffWaitsEntry(Outcome(cfg, j, r).nextRunMs - UnixMilli(r.ended), j.errors + 1, cfg.backoffMs);
  }

  /** A skipped run counts as a first error. */
  lemma SkippedRunWaits(cfg: Config, j: Job, r: Run)
    requires j.enabled && !j.schedule.At? && r.status == RunSkipped && Outcome(cfg, j, r).enabled
    requires j.schedule.Cron? ==> Advances(j.schedule.plain)
    ensures var wait := Outcome(cfg, j, r).nextRunMs - UnixMilli(r.ended);
            wait >= if cfg.backoffMs == [] then 30_000 else cfg.backoffMs[0]
  {
    RecurringNextRun(cfg, j, r);
    OutcomeCounters(cfg, j, r);
    BackoffIsTableEntry(1, cfg.backoffMs);
  }

  /** After success a cron job is set to the least fire of its shifted expression after the end, or
      two seconds after the end if that is later. */
  lemma CronSuccessLandsOnFire(cfg: Config, j: Job, r: Run, fires: int -> bool, lo: int)
    requires j.enabled && j.schedule.Cron? && r.status == RunOk && LeastAfter(j.schedule.plain, fires, lo)
    requires lo <= r.ended - Offset(j.schedule.hash, j.schedule.staggerMs)
    requires exists x :: x > r.ended && Shifted(fires, Offset(j.schedule.hash, j.schedule.staggerMs))(x)
    ensures var next := ComputeNext(j.schedule, r.ended);
            next.Some?
            && IsLeastAfter(next, Shifted(fires, Offset(j.schedule.hash, j.schedule.staggerMs)), r.ended)
            && Outcome(cfg, j, r).enabled
            && Outcome(cfg, j, r).nextRunMs == Max(next.value / 1_000_000, r.ended / 1_000_000 + 2_000)
  {
    CronJobNext(j.schedule.plain, fires, lo, j.schedule.hash, j.schedule.staggerMs, r.ended);
  }

  /** A cron job whose expression has no further instant, run once at time 0. */
  function Exhausted(): Job {
    Job(true, Cron((t: int) => None, 0, 0), false, None, 0, 0, 0, None, "", 0, 0, 0, 0)
  }

  function WithBackoff(ms: int): Config {
    Config(3, [ms], (e: string) => false, false, 0, 0)
  }

  /** It does happen: a back-off of one second puts the next run inside the refire gap, and a
      negative one puts it before the end of the run. */
  lemma RecurringNextRunFails()
    ensures var j, r := Exhausted(), Run(0, 0, 0, 0, RunOk, "");
            var short, negative := Outcome(WithBackoff(1_000), j, r), Outcome(WithBackoff(-1), j, r);
            Advances(j.schedule.plain) && short.enabled && negative.enabled
            && short.nextRunMs == 1_000 < UnixMilli(r.ended) + MIN_REFIRE_GAP_MS
            && negative.nextRunMs == -1 < UnixMilli(r.ended)
  {
    assert ComputeNext(Exhausted().schedule, 0) == None;
  }

  /** After success an "every" job lands on the least grid point of index at least 1 not before
      the end time, or on its anchor if that is still ahead. */
  lemma EverySuccessLandsOnGrid(cfg: Config, j: Job, r: Run)
    requires j.enabled && j.schedule.Every? && j.schedule.everyMs >= 1 && r.status == RunOk
    ensures var k := Outcome(cfg, j, r);
            var e := j.schedule.everyMs;
            var anchor := if j.schedule.anchorMs < 0 then 0 else j.schedule.anchorMs;
            var endMs := UnixMilli(r.ended);
            k.enabled && k.nextRunMs >= endMs
            && (endMs < anchor ==> k.nextRunMs == anchor)
            && (endMs >= anchor ==>
                  (exists n :: n >= 1 && k.nextRunMs == GridPoint(anchor, e, n))
                  && forall n :: n >= 1 && GridPoint(anchor, e, n) >= endMs ==> GridPoint(anchor, e, n) >= k.nextRunMs)
  {
    var endMs := UnixMilli(r.ended);
    var next := EveryNextMs(j.schedule.everyMs, j.schedule.anchorMs, endMs);
    EveryIsLeastGridPoint(j.schedule.everyMs, j.schedule.anchorMs, endMs);
    assert UnixMilli(next * MS) == next;
  }

  // ---------------------------------------------------------------- sequences of outcomes

  function AfterRuns(cfg: Config, j: Job, runs: seq<Run>): Job {
    if runs == [] then j
    else Outcome(cfg, AfterRuns(cfg, j, runs[..|runs| - 1]), runs[|runs| - 1])
  }

  predicate Uncomputable(j: Job, r: Run) {
    ComputeNext(j.schedule, r.ended).None?
  }

  /** How many of the latest runs ended at an instant without a computable next one. */
  function TrailingUncomputable(j: Job, runs: seq<Run>): nat {
    if runs == [] || !Uncomputable(j, runs[|runs| - 1]) then 0
    else 1 + TrailingUncomputable(j, runs[..|runs| - 1])
  }

  lemma OutcomeCounters(cfg: Config, j: Job, r: Run)
    ensures var k := Outcome(cfg, j, r);
            k.errors == (if r.status == RunError then j.errors + 1 else 0)
            && k.lastAlertMs == (if r.status != RunError then 0
                                 else if Sends(cfg, j, r) then r.alertMs else j.lastAlertMs)
            && k.schedule == j.schedule && k.alert == j.alert && k.deleteAfterRun == j.deleteAfterRun
  {
  }

  /** What every outcome records of its run. */
  lemma OutcomeRecords(cfg: Config, j: Job, r: Run)
    ensures var k := Outcome(cfg, j, r);
            k.runningMs == 0 && k.lastRunMs == r.started / 1_000_000
            && k.lastStatus == Some(r.status) && k.lastError == r.error
            && (r.started <= r.ended ==> k.lastDurationMs == (r.ended - r.started) / 1_000_000)
            && (k.enabled ==> j.enabled)
  {
  }

  /** The alert settings in force: a job's own where it has usable ones, else the configuration's,
      else an alert from the second error on and one hour of cooldown. */
  lemma AlertSettings(cfg: Config, j: Job)
    ensures j.alert.Some? && j.alert.value.after > 0 ==> AlertAfter(cfg, j) == j.alert.value.after
    ensures !(j.alert.Some? && j.alert.value.after > 0) ==>
              AlertAfter(cfg, j) == if cfg.alertAfter > 0 then cfg.alertAfter else 2
    ensures j.alert.Some? && j.alert.value.cooldownMs >= 0 ==> AlertCooldownMs(cfg, j) == j.alert.value.cooldownMs
    ensures !(j.alert.Some? && j.alert.value.cooldownMs >= 0) ==>
              AlertCooldownMs(cfg, j)
              == if cfg.alertsEnabled && cfg.alertCooldownMs > 0 then cfg.alertCooldownMs else 3_600_000
  {
  }

  lemma {:induction false} ConfigurationStays(cfg: Config, j: Job, runs: seq<Run>)
    ensures var k := AfterRuns(cfg, j, runs);
            k.schedule == j.schedule && k.alert == j.alert && k.deleteAfterRun == j.deleteAfterRun
  {
    if runs != [] {
      ConfigurationStays(cfg, j, runs[..|runs| - 1]);
      OutcomeCounters(cfg, AfterRuns(cfg, j, runs[..|runs| - 1]), runs[|runs| - 1]);
    }
  }

  /** The scheduler only runs enabled jobs: every run but the last left the job enabled. */
  ghost predicate RunsWhileEnabled(cfg: Config, j: Job, runs: seq<Run>) {
    forall n :: 0 <= n < |runs| ==> AfterRuns(cfg, j, runs[..n]).enabled
  }

  lemma EnabledPrefix(cfg: Config, j: Job, runs: seq<Run>)
    requires runs != [] && RunsWhileEnabled(cfg, j, runs)
    ensures RunsWhileEnabled(cfg, j, runs[..|runs| - 1]) && AfterRuns(cfg, j, runs[..|runs| - 1]).enabled
  {
    var g := runs[..|runs| - 1];
    forall n | 0 <= n < |g| ensures AfterRuns(cfg, j, g[..n]).enabled {
      assert g[..n] == runs[..n];
    }
  }

  /** Five consecutive failures to compute a next instant, and no fewer, disable a recurring
      job; nothing else does. */
  lemma {:induction false} FiveScheduleErrorsTrip(cfg: Config, j: Job, runs: seq<Run>)
    requires j.enabled && !j.schedule.At? && j.scheduleErrors == 0
    requires RunsWhileEnabled(cfg, j, runs)
    ensures var k := AfterRuns(cfg, j, runs);
            k.scheduleErrors == TrailingUncomputable(j, runs)
            && (k.enabled <==> TrailingUncomputable(j, runs) < 5)
            && (!k.enabled ==> k.nextRunMs == 0 && TrailingUncomputable(j, runs) == 5)
  {
    if runs != [] {
      var g := runs[..|runs| - 1];
      EnabledPrefix(cfg, j, runs);
      FiveScheduleErrorsTrip(cfg, j, g);
      ConfigurationStays(cfg, j, g);
    }
  }

  // ---------------------------------------------------------------- one-shot jobs

  /** The scheduler's view: nil when the row was deleted after a successful one-shot run. */
  function RunOneJob(cfg: Config, j: Job, r: Run): Option<Job> {
    var k := Outcome(cfg, j, r);
    if k.schedule.At? && k.deleteAfterRun && r.status == RunOk then None else Some(k)
  }

  /** GetRunnableCronJobs. */
  predicate Due(j: Job, nowMs: int) {
    j.enabled && j.nextRunMs > 0 && j.nextRunMs <= nowMs
  }

  function AfterTicks(cfg: Config, j: Job, runs: seq<Run>): Option<Job> {
    if runs == [] then Some(j)
    else
      match AfterTicks(cfg, j, runs[..|runs| - 1])
      case None => None
      case Some(k) => RunOneJob(cfg, k, runs[|runs| - 1])
  }

  /** A history of ticks: each run found the job there and due. */
  predicate Driven(cfg: Config, j: Job, runs: seq<Run>) {
    runs == []
    || (Driven(cfg, j, runs[..|runs| - 1])
        && var k := AfterTicks(cfg, j, runs[..|runs| - 1]);
           k.Some? && Due(k.value, runs[|runs| - 1].tickMs))
  }

  /** Where a one-shot job stands after any number of scheduler runs from a clean state. */
  lemma {:induction false} OneShotState(cfg: Config, j: Job, runs: seq<Run>)
    requires j.schedule.At? && j.enabled && j.errors == 0 && Driven(cfg, j, runs) && runs != []
    ensures var k := AfterTicks(cfg, j, runs);
            var last := runs[|runs| - 1];
            (k.None? <==> j.deleteAfterRun && last.status == RunOk)
            && (k.Some? && !k.value.enabled ==> k.value.nextRunMs == 0)
            && (k.Some? ==> k.value.schedule.At? && k.value.deleteAfterRun == j.deleteAfterRun)
            && (k.Some? && k.value.enabled ==>
                  last.status == RunError && k.value.errors == |runs| <= cfg.maxAttempts
                  && k.value.nextRunMs == UnixMilli(last.ended) + ErrorBackoffMs(|runs|, cfg.backoffMs))
  {
    if |runs| > 1 { OneShotState(cfg, j, runs[..|runs| - 1]); }
  }

  /** A one-shot job runs at most MaxAttempts + 1 times (once if MaxAttempts is negative). */
  lemma OneShotRunsBounded(cfg: Config, j: Job, runs: seq<Run>)
    requires j.schedule.At? && j.enabled && j.errors == 0 && Driven(cfg, j, runs)
    ensures |runs| <= Max(cfg.maxAttempts, 0) + 1
  {
    if |runs| > 1 { OneShotState(cfg, j, runs[..|runs| - 1]); }
  }

  /** After a transient error, with at most MaxAttempts errors so far, it is still enabled. */
  lemma OneShotRetries(cfg: Config, j: Job, runs: seq<Run>)
    requires j.schedule.At? && j.enabled && j.errors == 0 && Driven(cfg, j, runs) && runs != []
    requires var last := runs[|runs| - 1];
             last.status == RunError && cfg.transient(last.error) && |runs| <= cfg.maxAttempts
    ensures AfterTicks(cfg, j, runs).Some? && AfterTicks(cfg, j, runs).value.enabled
  {
    var g := runs[..|runs| - 1];
    if g != [] { OneShotState(cfg, j, g); }
  }

  /** Every retry comes no earlier than its back-off table entry after the run it repeats. */
  lemma OneShotRetryIsSpaced(cfg: Config, j: Job, runs: seq<Run>)
    requires j.schedule.At? && j.enabled && j.errors == 0 && Driven(cfg, j, runs) && |runs| > 1
    ensures runs[|runs| - 2].status == RunError
    ensures var n := |runs| - 1;
            WaitsEntry(runs[n].tickMs - UnixMilli(runs[n - 1].ended), n, cfg.backoffMs)
  {
    var n := |runs| - 1;
    OneShotState(cfg, j, runs[..n]);
    BackoffWaitsEntry(runs[n].tickMs - UnixMilli(runs[n - 1].ended), n, cfg.backoffMs);
  }

  /** Once a run succeeds, is skipped, fails for good or uses up the attempts, the job is gone
      or disabled with no next run, and no further tick can run it. */
  lemma OneShotStaysDone(cfg: Config, j: Job, runs: seq<Run>, more: Run)
    requires j.schedule.At? && j.enabled && j.errors == 0 && Driven(cfg, j, runs) && runs != []
    requires var last := runs[|runs| - 1];
             last.status != RunError || !cfg.transient(last.error) || |runs| > cfg.maxAttempts
    ensures var k := AfterTicks(cfg, j, runs);
            (k.None? || (!k.value.enabled && k.value.nextRunMs == 0)) && !Driven(cfg, j, runs + [more])
  {
    OneShotState(cfg, j, runs);
    var g := runs[..|runs| - 1];
    if g != [] { OneShotState(cfg, j, g); }
    assert (runs + [more])[..|runs|] == runs;
  }

  // ---------------------------------------------------------------- failure alerts

  /** The length of the streak of errors ending with the last run. */
  function Streak(runs: seq<Run>): nat {
    if runs == [] || runs[|runs| - 1].status != RunError then 0
    else 1 + Streak(runs[..|runs| - 1])
  }

  /** Whether run n sends an alert. */
  predicate SentAt(cfg: Config, j: Job, runs: seq<Run>, n: nat)
    requires n < |runs|
  {
    Sends(cfg, AfterRuns(cfg, j, runs[..n]), runs[n])
  }

  /** The alert clock is positive and never goes back. */
  predicate ClockOk(runs: seq<Run>) {
    (forall n :: 0 <= n < |runs| ==> runs[n].alertMs > 0)
    && forall m, n :: 0 <= m < n < |runs| ==> runs[m].alertMs <= runs[n].alertMs
  }

  /** The time of the latest alert of the current streak, or 0. */
  function LatestAlert(cfg: Config, j: Job, runs: seq<Run>): int {
    if runs == [] || runs[|runs| - 1].status != RunError then 0
    else if Sends(cfg, AfterRuns(cfg, j, runs[..|runs| - 1]), runs[|runs| - 1]) then runs[|runs| - 1].alertMs
    else LatestAlert(cfg, j, runs[..|runs| - 1])
  }

  lemma {:induction false} CountersAreStreak(cfg: Config, j: Job, runs: seq<Run>)
    requires j.errors == 0 && j.lastAlertMs == 0
    ensures AfterRuns(cfg, j, runs).errors == Streak(runs)
    ensures AfterRuns(cfg, j, runs).lastAlertMs == LatestAlert(cfg, j, runs)
  {
    if runs != [] {
      CountersAreStreak(cfg, j, runs[..|runs| - 1]);
      OutcomeCounters(cfg, AfterRuns(cfg, j, runs[..|runs| - 1]), runs[|runs| - 1]);
    }
  }

  lemma {:induction false} LatestAlertIsLate(cfg: Config, j: Job, runs: seq<Run>, m: nat)
    requires ClockOk(runs) && m < |runs| && SentAt(cfg, j, runs, m)
    requires forall n :: m < n < |runs| ==> runs[n].status == RunError
    ensures LatestAlert(cfg, j, runs) >= runs[m].alertMs
    decreases |runs|
  {
    var g := runs[..|runs| - 1];
    if m < |runs| - 1 {
      assert g[..m] == runs[..m];
      LatestAlertIsLate(cfg, j, g, m);
    }
  }

  lemma {:induction false} StreakBackTo(runs: seq<Run>, n: nat)
    requires n < |runs| && runs[n].status != RunError
    ensures Streak(runs) <= |runs| - 1 - n
    decreases |runs|
  {
    if n < |runs| - 1 && runs[|runs| - 1].status == RunError { StreakBackTo(runs[..|runs| - 1], n); }
  }

  /** No alert before the threshold-th consecutive error; from then on an alert goes out
      exactly when the streak has had none or the cooldown has passed since its latest. */
  lemma AlertCondition(cfg: Config, j: Job, runs: seq<Run>, n: nat)
    requires j.errors == 0 && j.lastAlertMs == 0 && n < |runs|
    ensures SentAt(cfg, j, runs, n) <==>
              runs[n].status == RunError && (cfg.alertsEnabled || j.alert.Some?)
              && Streak(runs[..n + 1]) >= AlertAfter(cfg, j)
              && (LatestAlert(cfg, j, runs[..n]) == 0
                  || runs[n].alertMs - LatestAlert(cfg, j, runs[..n]) >= AlertCooldownMs(cfg, j))
  {
    CountersAreStreak(cfg, j, runs[..n]);
    ConfigurationStays(cfg, j, runs[..n]);
    assert runs[..n + 1][..n] == runs[..n];
  }

  /** Two alerts of the same streak are at least the cooldown apart. */
  lemma AlertsAreSpaced(cfg: Config, j: Job, runs: seq<Run>, m: nat, n: nat)
    requires j.errors == 0 && j.lastAlertMs == 0 && ClockOk(runs) && m < n < |runs|
    requires SentAt(cfg, j, runs, m) && SentAt(cfg, j, runs, n)
    requires forall i :: m <= i <= n ==> runs[i].status == RunError
    ensures runs[n].alertMs - runs[m].alertMs >= AlertCooldownMs(cfg, j)
  {
    AlertCondition(cfg, j, runs, n);
    var g := runs[..n];
    assert g[..m] == runs[..m];
    assert SentAt(cfg, j, g, m);
    LatestAlertIsLate(cfg, j, g, m);
  }

  /** A run that is not an error ends the streak: the next alert needs a full threshold of new
      errors, and does not wait for the old cooldown. */
  lemma NonErrorResetsAlerts(cfg: Config, j: Job, runs: seq<Run>, i: nat, n: nat)
    requires j.errors == 0 && j.lastAlertMs == 0 && i < n < |runs| && runs[i].status != RunError
    ensures SentAt(cfg, j, runs, n) ==> n - i >= AlertAfter(cfg, j)
    ensures AfterRuns(cfg, j, runs[..i + 1]).errors == 0 && AfterRuns(cfg, j, runs[..i + 1]).lastAlertMs == 0
  {
    AlertCondition(cfg, j, runs, n);
    var g := runs[..n + 1];
    StreakBackTo(g, i);
    CountersAreStreak(cfg, j, runs[..i + 1]);
  }
}
