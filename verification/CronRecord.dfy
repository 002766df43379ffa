/**
The mapping between jobs and their stored rows (internal/cron/record.go). Nullable columns are
options; the time, expression and time-zone parsers are abstract predicates.
 */
module CronRecord {

  import opened Wrappers

  datatype Parsers = Parsers(time: string -> bool, cron: string -> bool, zone: string -> bool)

  datatype Schedule = Schedule(
    kind: string, at: string, everyMs: int, anchorMs: int, cron: string, tz: string, staggerMs: int)

  datatype Alert = Alert(after: int, cooldownMs: int)

  datatype State = State(
    nextRunMs: int, runningMs: int, lastRunMs: int, lastStatus: string, lastError: string,
    lastDurationMs: int, errors: int, scheduleErrors: int, lastAlertMs: int)

  datatype Job = Job(
    id: string, owner: string, name: string, description: string, enabled: bool,
    schedule: Schedule, session: string, wake: string, payloadKind: string, payload: string,
    delivery: string, alert: Option<Alert>, timeoutMs: int, deleteAfterRun: bool,
    state: State, createdMs: int, updatedMs: int)

  /** The failure_alert_json text: what decoding it yields. */
  datatype AlertText = Blank | NullLiteral | Encoded(alert: Alert) | Malformed

  datatype Record = Record(
    id: string, owner: string, name: string, description: string, enabled: bool,
    kind: string, expr: Option<string>, everyMs: Option<int>, anchorMs: Option<int>,
    tz: Option<string>, staggerMs: Option<int>,
    session: string, wake: string, payloadKind: string, payload: string,
    delivery: Option<string>, alert: Option<AlertText>, timeoutMs: Option<int>, deleteAfterRun: bool,
    nextRunMs: Option<int>, runningMs: Option<int>, lastRunMs: Option<int>,
    lastStatus: Option<string>, lastError: Option<string>, lastDurationMs: Option<int>,
    errors: int, scheduleErrors: int, lastAlertMs: Option<int>,
    createdMs: int, updatedMs: int)

  predicate ValidSchedule(ps: Parsers, s: Schedule) {
    if s.kind == "at" then ps.time(s.at)
    else if s.kind == "every" then s.everyMs >= 1
    else if s.kind == "cron" then ps.cron(s.cron) && (s.tz != "" ==> ps.zone(s.tz))
    else false
  }

  function OrZero(x: Option<int>): int {
    if x.Some? then x.value else 0
  }

  function OrEmpty(x: Option<string>): string {
    if x.Some? then x.value else ""
  }

  function Positive(x: int): Option<int> {
    if x > 0 then Some(x) else None
  }

  function NonEmpty(x: string): Option<string> {
    if x != "" then Some(x) else None
  }

  /** jobFromRecord; an invalid schedule is reported as an error. */
  function Load(ps: Parsers, r: Record): Result<Job, ()> {
    var blank := Schedule(r.kind, "", 0, 0, "", OrEmpty(r.tz), 0);
    var s := if r.kind == "at" then blank.(at := OrEmpty(r.expr))
             else if r.kind == "every" then blank.(everyMs := OrZero(r.everyMs), anchorMs := OrZero(r.anchorMs))
             else if r.kind == "cron" then blank.(cron := OrEmpty(r.expr), staggerMs := OrZero(r.staggerMs))
             else blank;
    var state := State(OrZero(r.nextRunMs), OrZero(r.runningMs), OrZero(r.lastRunMs), OrEmpty(r.lastStatus),
                       OrEmpty(r.lastError), OrZero(r.lastDurationMs), r.errors, r.scheduleErrors,
                       OrZero(r.lastAlertMs));
    var alert := if r.alert.Some? && r.alert.value.Encoded? then Some(r.alert.value.alert) else None;
    var j := Job(r.id, r.owner, r.name, r.description, r.enabled, s, r.session, r.wake, r.payloadKind, r.payload,
                 OrEmpty(r.delivery), alert, OrZero(r.timeoutMs), r.deleteAfterRun, state, r.createdMs, r.updatedMs);
    if ValidSchedule(ps, s) then Ok(j) else Err(())
  }

  /** recordFromJob. */
  function Save(ps: Parsers, j: Job, nowMs: int): Result<Record, ()> {
    var s, st := j.schedule, j.state;
    if !ValidSchedule(ps, s) then Err(())
    else Ok(Record(
      j.id, j.owner, j.name, j.description, j.enabled,
      s.kind,
      if s.kind == "at" then Some(s.at) else if s.kind == "cron" then Some(s.cron) else None,
      if s.kind == "every" then Some(s.everyMs) else None,
      if s.kind == "every" && s.anchorMs != 0 then Some(s.anchorMs) else None,
      NonEmpty(s.tz),
      if s.kind == "cron" then Positive(s.staggerMs) else None,
      j.session, j.wake, j.payloadKind, j.payload,
      NonEmpty(j.delivery),
      if j.alert.Some? then Some(Encoded(j.alert.value)) else None,
      Positive(j.timeoutMs), j.deleteAfterRun,
      Positive(st.nextRunMs), Positive(st.runningMs), Positive(st.lastRunMs),
      NonEmpty(st.lastStatus), NonEmpty(st.lastError), Positive(st.lastDurationMs),
      st.errors, st.scheduleErrors, Positive(st.lastAlertMs),
      if j.createdMs == 0 then nowMs else j.createdMs, nowMs))
  }

  /** The timestamps a save sets. */
  function Stamped(j: Job, nowMs: int): Job {
    j.(createdMs := if j.createdMs == 0 then nowMs else j.createdMs, updatedMs := nowMs)
  }

  /** No negative time or duration, and no field of another schedule kind set. */
  predicate Canonical(j: Job) {
    var s, st := j.schedule, j.state;
    j.timeoutMs >= 0 && st.nextRunMs >= 0 && st.runningMs >= 0 && st.lastRunMs >= 0
    && st.lastDurationMs >= 0 && st.lastAlertMs >= 0
    && (s.kind != "at" ==> s.at == "")
    && (s.kind != "every" ==> s.everyMs == 0 && s.anchorMs == 0)
    && (s.kind != "cron" ==> s.cron == "" && s.staggerMs == 0)
    && s.staggerMs >= 0
  }

  /** A schedule with only its own kind's fields. */
  function OwnFields(s: Schedule): Schedule {
    Schedule(s.kind,
             if s.kind == "at" then s.at else "",
             if s.kind == "every" then s.everyMs else 0,
             if s.kind == "every" then s.anchorMs else 0,
             if s.kind == "cron" then s.cron else "",
             s.tz,
             if s.kind == "cron" && s.staggerMs > 0 then s.staggerMs else 0)
  }

  function NotNegative(x: int): int {
    if x > 0 then x else 0
  }

  function OwnTimes(st: State): State {
    State(NotNegative(st.nextRunMs), NotNegative(st.runningMs), NotNegative(st.lastRunMs), st.lastStatus, st.lastError,
          NotNegative(st.lastDurationMs), st.errors, st.scheduleErrors, NotNegative(st.lastAlertMs))
  }

  /** What storing and loading makes of a job. */
  function Normalised(j: Job, nowMs: int): Job {
    Stamped(j, nowMs).(schedule := OwnFields(j.schedule), state := OwnTimes(j.state),
                       timeoutMs := NotNegative(j.timeoutMs))
  }

  lemma LoadsNormalised(ps: Parsers, j: Job, nowMs: int)
    requires ValidSchedule(ps, j.schedule)
    ensures Save(ps, j, nowMs).Ok? && Load(ps, Save(ps, j, nowMs).value) == Ok(Normalised(j, nowMs))
  {
    var r := Save(ps, j, nowMs).value;
    assert ValidSchedule(ps, OwnFields(j.schedule));
    var k := Load(ps, r).value;
    assert k.schedule == OwnFields(j.schedule);
    assert k.state == OwnTimes(j.state);
  }

  lemma OwnFieldsIff(s: Schedule)
    ensures OwnFields(s) == s <==>
              (s.kind != "at" ==> s.at == "")
              && (s.kind != "every" ==> s.everyMs == 0 && s.anchorMs == 0)
              && (s.kind != "cron" ==> s.cron == "" && s.staggerMs == 0) && s.staggerMs >= 0
  {
  }

  lemma OwnTimesIff(st: State)
    ensures OwnTimes(st) == st <==>
              st.nextRunMs >= 0 && st.runningMs >= 0 && st.lastRunMs >= 0
              && st.lastDurationMs >= 0 && st.lastAlertMs >= 0
  {
  }

  lemma NormalisedIff(j: Job, nowMs: int)
    ensures Normalised(j, nowMs) == Stamped(j, nowMs) <==> Canonical(j)
  {
    OwnFieldsIff(j.schedule);
    OwnTimesIff(j.state);
    var n, t := Normalised(j, nowMs), Stamped(j, nowMs);
    assert n == t <==> n.schedule == t.schedule && n.state == t.state && n.timeoutMs == t.timeoutMs;
  }

  /** Saving fails exactly on an invalid schedule, and what was saved always loads. Loading gives
      back the job, up to the two timestamps, exactly when the job is canonical. */
  lemma SaveThenLoad(ps: Parsers, j: Job, nowMs: int)
    ensures Save(ps, j, nowMs).Ok? <==> ValidSchedule(ps, j.schedule)
    ensures Save(ps, j, nowMs).Ok? ==>
              Load(ps, Save(ps, j, nowMs).value).Ok?
              && (Load(ps, Save(ps, j, nowMs).value) == Ok(Stamped(j, nowMs)) <==> Canonical(j))
  {
    if ValidSchedule(ps, j.schedule) {
      LoadsNormalised(ps, j, nowMs);
      NormalisedIff(j, nowMs);
    }
  }

  /** Storing then loading is a normalisation: what it yields is canonical, so doing it again
      only renews the update timestamp. */
  lemma SaveLoadIsIdempotent(ps: Parsers, j: Job, nowMs: int, laterMs: int)
    requires ValidSchedule(ps, j.schedule)
    ensures var k := Load(ps, Save(ps, j, nowMs).value).value;
            Canonical(k) && Save(ps, k, laterMs).Ok?
            && Load(ps, Save(ps, k, laterMs).value) == Ok(Stamped(k, laterMs))
  {
    LoadsNormalised(ps, j, nowMs);
    NormalisedAgain(ps, j, nowMs);
    SaveThenLoad(ps, Normalised(j, nowMs), laterMs);
  }

  lemma NormalisedAgain(ps: Parsers, j: Job, nowMs: int)
    requires ValidSchedule(ps, j.schedule)
    ensures Canonical(Normalised(j, nowMs)) && ValidSchedule(ps, Normalised(j, nowMs).schedule)
  {
  }

  /** The columns a saved row has, each from its own field. */
  lemma SaveColumns(ps: Parsers, j: Job, nowMs: int)
    requires ValidSchedule(ps, j.schedule)
    ensures var r, st := Save(ps, j, nowMs).value, j.state;
            r.id == j.id && r.owner == j.owner && r.name == j.name && r.description == j.description
            && r.enabled == j.enabled && r.deleteAfterRun == j.deleteAfterRun
            && r.kind == j.schedule.kind && r.session == j.session && r.wake == j.wake
            && r.payloadKind == j.payloadKind && r.payload == j.payload
            && r.errors == st.errors && r.scheduleErrors == st.scheduleErrors
    ensures var r, st := Save(ps, j, nowMs).value, j.state;
            r.nextRunMs == (if st.nextRunMs > 0 then Some(st.nextRunMs) else None)
            && r.runningMs == (if st.runningMs > 0 then Some(st.runningMs) else None)
            && r.lastRunMs == (if st.lastRunMs > 0 then Some(st.lastRunMs) else None)
            && r.lastDurationMs == (if st.lastDurationMs > 0 then Some(st.lastDurationMs) else None)
            && r.lastAlertMs == (if st.lastAlertMs > 0 then Some(st.lastAlertMs) else None)
            && r.timeoutMs == (if j.timeoutMs > 0 then Some(j.timeoutMs) else None)
            && r.lastStatus == (if st.lastStatus != "" then Some(st.lastStatus) else None)
            && r.lastError == (if st.lastError != "" then Some(st.lastError) else None)
            && r.delivery == (if j.delivery != "" then Some(j.delivery) else None)
            && r.tz == (if j.schedule.tz != "" then Some(j.schedule.tz) else None)
            && r.alert == (if j.alert.Some? then Some(Encoded(j.alert.value)) else None)
            && r.updatedMs == nowMs && r.createdMs == if j.createdMs == 0 then nowMs else j.createdMs
    ensures var r, s := Save(ps, j, nowMs).value, j.schedule;
            (s.kind == "at" ==> r.expr == Some(s.at) && r.everyMs == None && r.staggerMs == None)
            && (s.kind == "cron" ==> r.expr == Some(s.cron) && r.everyMs == None
                                     && r.staggerMs == if s.staggerMs > 0 then Some(s.staggerMs) else None)
            && (s.kind == "every" ==> r.expr == None && r.everyMs == Some(s.everyMs)
                                      && r.anchorMs == if s.anchorMs != 0 then Some(s.anchorMs) else None)
  {
  }

  /** A missing, blank, null or malformed alert column loads as no alert. */
  lemma LoadedAlert(ps: Parsers, r: Record)
    requires Load(ps, r).Ok?
    ensures Load(ps, r).value.alert
         == if r.alert.Some? && r.alert.value.Encoded? then Some(r.alert.value.alert) else None
  {
  }

  /** GetRunnableCronJobs' condition on a row. */
  predicate Runnable(r: Record, nowMs: int) {
    r.enabled && r.nextRunMs.Some? && 0 < r.nextRunMs.value <= nowMs
  }

  /** The query finds a saved job exactly when the job is enabled and due. */
  lemma SavedJobIsFoundIff(ps: Parsers, j: Job, savedMs: int, nowMs: int)
    requires ValidSchedule(ps, j.schedule)
    ensures Runnable(Save(ps, j, savedMs).value, nowMs) <==> j.enabled && 0 < j.state.nextRunMs <= nowMs
  {
    SaveColumns(ps, j, savedMs);
  }
}
