/**
A connector worker (internal/connectors/worker.go): a bounded FIFO queue, message splitting and
the bounded retry loop with its delivery accounting. The connector's answers, the limiter, the
placeholder edit, the hook and the context are inputs.
 */
module ConnectorWorker {

  import opened Wrappers
  import opened MessageSplit

  datatype SendError = NotRunning | SendFailed | RateLimit | Temporary | Unknown

  datatype Status = Queued | Sent | Failed | Skipped

  /** One call of RecordDeliveryAttempt. */
  datatype Attempt = Attempt(status: Status, delta: nat)

  /** What one chunk meets: send(k) is the answer to the k-th Send call (from 0), cancelled(k)
      whether the context ends in the wait after it. */
  datatype Env = Env(
    limiterOk: bool,
    edited: bool,
    hookCancels: bool,
    send: nat -> Option<SendError>,
    cancelled: nat -> bool)

  const MAX_RETRIES: nat := 3
  const QUEUE_SIZE: nat := 64

  predicate Permanent(e: SendError) {
    e.NotRunning? || e.SendFailed?
  }

  /** The pause after failed attempt k, in milliseconds. */
  function BackoffMs(k: nat, e: SendError): nat {
    if e.RateLimit? then 1_000
    else
      var b := 500 * Pow2(k);
      if b > 8_000 then 8_000 else b
  }

  function Pow2(k: nat): nat {
    if k == 0 then 1 else 2 * Pow2(k - 1)
  }

  /** What delivering one chunk leaves behind: the tries (true for a success), the recorded
      attempts, the time spent waiting, and the result reported to the circuit breaker. */
  datatype Delivery = Delivery(
    tries: seq<bool>, calls: nat, trail: seq<Attempt>, waitedMs: nat, report: Option<Option<SendError>>)

  // ---------------------------------------------------------------- specification

  /** Whether the loop comes round again after attempt k. */
  predicate GoesOn(env: Env, k: nat) {
    env.send(k).Some? && !Permanent(env.send(k).value) && k < MAX_RETRIES && !env.cancelled(k)
  }

  /** What attempt k alone leaves behind. */
  function OneTry(env: Env, k: nat): Delivery {
    match env.send(k)
    case None => Delivery([true], 1, [Attempt(Sent, 1)], 0, Some(None))
    case Some(e) =>
      if Permanent(e) || k >= MAX_RETRIES then Delivery([false], 1, [Attempt(Failed, 1)], 0, Some(Some(e)))
      else Delivery([false], 1, [Attempt(Queued, 1)], if env.cancelled(k) then 0 else BackoffMs(k, e), None)
  }

  function Join(a: Delivery, b: Delivery): Delivery {
    Delivery(a.tries + b.tries, a.calls + b.calls, a.trail + b.trail, a.waitedMs + b.waitedMs, b.report)
  }

  /** The retry loop from attempt k on. */
  function Retry(env: Env, k: nat): Delivery
    requires k <= MAX_RETRIES
    decreases MAX_RETRIES - k
  {
    if GoesOn(env, k) then Join(OneTry(env, k), Retry(env, k + 1)) else OneTry(env, k)
  }

  function Deliver(env: Env): Delivery {
    if !env.limiterOk then Delivery([], 0, [Attempt(Failed, 0)], 0, None)
    else if env.edited then Delivery([true], 0, [Attempt(Sent, 1)], 0, None)
    else if env.hookCancels then Delivery([], 0, [Attempt(Skipped, 0)], 0, None)
    else Retry(env, 0)
  }

  /** The failed tries at the end of a sequence. */
  function TrailingFailures(tries: seq<bool>): nat {
    if tries == [] || tries[|tries| - 1] then 0 else 1 + TrailingFailures(tries[..|tries| - 1])
  }

  function Count(tries: seq<bool>, outcome: bool): nat {
    if tries == [] then 0 else Count(tries[..|tries| - 1], outcome) + if tries[|tries| - 1] == outcome then 1 else 0
  }

  lemma {:induction false} CountsAddUp(tries: seq<bool>)
    ensures Count(tries, true) + Count(tries, false) == |tries|
  {
    if tries != [] { CountsAddUp(tries[..|tries| - 1]); }
  }

  /** A worker's history: every try, Send call, recorded attempt, wait and reported result. */
  datatype Log = Log(tries: seq<bool>, calls: nat, trail: seq<Attempt>, waitedMs: nat, reports: seq<Option<SendError>>)

  function Extend(log: Log, d: Delivery, tracked: bool): Log {
    Log(log.tries + d.tries,
        log.calls + d.calls,
        if tracked then log.trail + d.trail else log.trail,
        log.waitedMs + d.waitedMs,
        if d.report.Some? then log.reports + [d.report.value] else log.reports)
  }

  function Recorded(trail: seq<Attempt>, a: Attempt, tracked: bool): seq<Attempt> {
    if tracked then trail + [a] else trail
  }

  lemma NoTries(log: Log, status: Status, tracked: bool)
    ensures Extend(log, Delivery([], 0, [Attempt(status, 0)], 0, None), tracked)
         == log.(trail := Recorded(log.trail, Attempt(status, 0), tracked))
  {
    assert log.tries + [] == log.tries;
  }

  lemma ExtendTwice(log: Log, a: Delivery, b: Delivery, tracked: bool)
    requires a.report.None?
    ensures Extend(Extend(log, a, tracked), b, tracked) == Extend(log, Join(a, b), tracked)
  {
    assert log.tries + a.tries + b.tries == log.tries + (a.tries + b.tries);
    assert log.trail + a.trail + b.trail == log.trail + (a.trail + b.trail);
  }

  function AfterTry(log: Log, env: Env, k: nat, tracked: bool): Log {
    Extend(log, OneTry(env, k), tracked)
  }

  function AfterRetry(log: Log, env: Env, k: nat, tracked: bool): Log
    requires k <= MAX_RETRIES
  {
    Extend(log, Retry(env, k), tracked)
  }

  lemma RetryIsTryThenRetry(log: Log, env: Env, k: nat, tracked: bool)
    requires k <= MAX_RETRIES
    ensures AfterRetry(log, env, k, tracked)
         == if GoesOn(env, k) then AfterRetry(AfterTry(log, env, k, tracked), env, k + 1, tracked)
            else AfterTry(log, env, k, tracked)
  {
    if GoesOn(env, k) {
      ExtendTwice(log, OneTry(env, k), Retry(env, k + 1), tracked);
    }
  }

  /** What attempt k leaves behind beside the call itself. */
  function Settled(log: Log, env: Env, k: nat, tracked: bool): Log {
    Extend(log, OneTry(env, k).(tries := [], calls := 0), tracked)
  }

  lemma TryIsSendThenSettle(log: Log, env: Env, k: nat, tracked: bool)
    ensures Settled(log.(calls := log.calls + 1, tries := log.tries + [env.send(k).None?]), env, k, tracked)
         == AfterTry(log, env, k, tracked)
  {
    assert forall t: seq<bool> :: t + [] == t;
  }

  datatype Counters = Counters(sent: nat, errors: nat, consecutive: nat)

  function Bump(c: Counters, ok: bool): Counters {
    if ok then Counters(c.sent + 1, c.errors, 0) else Counters(c.sent, c.errors + 1, c.consecutive + 1)
  }

  /** The counters after a sequence of tries. */
  function Tally(tries: seq<bool>): Counters {
    if tries == [] then Counters(0, 0, 0) else Bump(Tally(tries[..|tries| - 1]), tries[|tries| - 1])
  }

  lemma TallyOneMore(tries: seq<bool>, ok: bool)
    ensures Tally(tries + [ok]) == Bump(Tally(tries), ok)
  {
    assert (tries + [ok])[..|tries|] == tries;
  }

  lemma {:induction false} TallyCounts(tries: seq<bool>)
    ensures Tally(tries) == Counters(Count(tries, true), Count(tries, false), TrailingFailures(tries))
  {
    if tries != [] { TallyCounts(tries[..|tries| - 1]); }
  }

  // ---------------------------------------------------------------- the worker

  class Worker {
    const maxLen: int
    const tracked: bool // whether attempts of these messages are recorded
    var queue: seq<string>
    var sendCount: nat
    var errorCount: nat
    var consecutiveErrs: nat

    // history
    var accepted: seq<string>
    var processed: seq<string>
    var handled: seq<string> // the chunks taken up, in order
    var log: Log

    /** The counters describe the worker's whole life. */
    predicate Counted()
      reads this
    {
      Counters(sendCount, errorCount, consecutiveErrs) == Tally(log.tries)
    }

    /** The queue is what was accepted and not yet processed, in order. */
    predicate Queued()
      reads this
    {
      accepted == processed + queue && |queue| <= QUEUE_SIZE
    }

    constructor (maxLen: int, tracked: bool)
      ensures Counted() && Queued() && accepted == [] && handled == [] && log == Log([], 0, [], 0, [])
      ensures this.maxLen == maxLen && this.tracked == tracked
    {
      this.maxLen, this.tracked := maxLen, tracked;
      queue, accepted, processed, handled := [], [], [], [];
      sendCount, errorCount, consecutiveErrs := 0, 0, 0;
      log := Log([], 0, [], 0, []);
    }

    /** A full queue refuses; `lateCancel` is the runtime choosing a done context over a free slot. */
    method Enqueue(msg: string, lateCancel: bool) returns (ok: bool)
      requires Queued()
      modifies this`queue, this`accepted
      ensures Queued()
      ensures ok <==> |old(queue)| < 64 && !lateCancel
      ensures queue == if ok then old(queue) + [msg] else old(queue)
      ensures accepted == if ok then old(accepted) + [msg] else old(accepted)
    {
      ok := |queue| < QUEUE_SIZE && !lateCancel;
      if ok {
        queue := queue + [msg];
        accepted := accepted + [msg];
      }
    }

    /** recordDeliveryAttempt. */
    method Record(status: Status, delta: nat)
      modifies this`log
      ensures log == old(log).(trail := Recorded(old(log).trail, Attempt(status, delta), tracked))
    {
      if tracked {
        log := log.(trail := log.trail + [Attempt(status, delta)]);
      }
    }

    /** What follows the answer of attempt `attempt`: its record, the result reported, the wait. */
    method Settle(env: Env, attempt: nat) returns (again: bool)
      requires attempt <= MAX_RETRIES
      modifies this`log
      ensures log == Settled(old(log), env, attempt, tracked) && log.tries == old(log).tries
      ensures again == GoesOn(env, attempt)
    {
      assert log.tries + [] == log.tries;
      var err := env.send(attempt);
      if err.None? {
        Record(Sent, 1);
        log := log.(reports := log.reports + [None]);
        return false;
      }
      if Permanent(err.value) || attempt == MAX_RETRIES {
        Record(Failed, 1);
        log := log.(reports := log.reports + [err]);
        return false;
      }
      Record(Status.Queued, 1);
      if env.cancelled(attempt) {
        return false;
      }
      log := log.(waitedMs := log.waitedMs + BackoffMs(attempt, err.value));
      return true;
    }

    method CountAnswer(ok: bool)
      modifies this`sendCount, this`errorCount, this`consecutiveErrs
      ensures Counters(sendCount, errorCount, consecutiveErrs)
           == Bump(old(Counters(sendCount, errorCount, consecutiveErrs)), ok)
    {
      if ok {
        sendCount := sendCount + 1;
        consecutiveErrs := 0;
      } else {
        errorCount := errorCount + 1;
        consecutiveErrs := consecutiveErrs + 1;
      }
    }

    /** A Send call was made: the counters and the call itself. */
    method CountTry(ok: bool)
      requires Counted()
      modifies this`sendCount, this`errorCount, this`consecutiveErrs, this`log
      ensures Counted() && log == old(log).(calls := old(log).calls + 1, tries := old(log).tries + [ok])
    {
      TallyOneMore(log.tries, ok);
      CountAnswer(ok);
      log := log.(calls := log.calls + 1, tries := log.tries + [ok]);
    }

    /** One round of the retry loop; again says whether it comes round once more. */
    method Try(env: Env, attempt: nat) returns (again: bool)
      requires Counted() && attempt <= MAX_RETRIES
      modifies this`sendCount, this`errorCount, this`consecutiveErrs, this`log
      ensures Counted() && log == AfterTry(old(log), env, attempt, tracked) && again == GoesOn(env, attempt)
    {
      var err := env.send(attempt);
      TryIsSendThenSettle(log, env, attempt, tracked);
      CountTry(err.None?);
      again := Settle(env, attempt);
    }

    method SendWithRetry(chunk: string, env: Env)
      requires Counted()
      modifies this`sendCount, this`errorCount, this`consecutiveErrs, this`log, this`handled
      ensures Counted() && log == AfterChunk(old(log), env, tracked)
      ensures handled == old(handled) + [chunk]
    {
      handled := handled + [chunk];
      if !env.limiterOk {
        Record(Failed, 0);
        NoTries(old(log), Failed, tracked);
      } else if env.edited {
        TallyOneMore(log.tries, true);
        CountAnswer(true);
        log := log.(tries := log.tries + [true]);
        Record(Sent, 1);
      } else if env.hookCancels {
        Record(Skipped, 0);
        NoTries(old(log), Skipped, tracked);
      } else {
        RetryLoop(env);
      }
    }

    /** One round, against what the whole loop must leave behind. */
    method Round(env: Env, attempt: nat, ghost whole: Log) returns (again: bool)
      requires Counted() && attempt <= MAX_RETRIES && whole == AfterRetry(log, env, attempt, tracked)
      modifies this`sendCount, this`errorCount, this`consecutiveErrs, this`log
      ensures Counted() && again == GoesOn(env, attempt)
      ensures whole == if again then AfterRetry(log, env, attempt + 1, tracked) else log
    {
      RetryIsTryThenRetry(log, env, attempt, tracked);
      again := Try(env, attempt);
    }

    method RetryLoop(env: Env)
      requires Counted()
      modifies this`sendCount, this`errorCount, this`consecutiveErrs, this`log
      ensures Counted() && log == AfterRetry(old(log), env, 0, tracked)
    {
      ghost var whole := AfterRetry(log, env, 0, tracked);
      var attempt, again := 0, true;
      while again
        invariant Counted()
        invariant if again then attempt <= MAX_RETRIES && whole == AfterRetry(log, env, attempt, tracked)
                  else whole == log
        decreases again, MAX_RETRIES - attempt
      {
        again := Round(env, attempt, whole);
        attempt := attempt + 1;
      }
    }

    method Chunks(msg: string) returns (parts: seq<string>)
      ensures ChunksOf(msg, parts, maxLen)
    {
      ghost var segs;
      if maxLen > 0 && |msg| > maxLen {
        parts, segs := SplitMessage(msg, maxLen);
      } else {
        parts := [msg];
      }
    }

    /** processMessage: one chunk, or the parts of a split one in order; envs(k) is what the
        k-th part meets. */
    method ProcessMessage(msg: string, envs: nat -> Env) returns (parts: seq<string>)
      requires Counted()
      modifies this`sendCount, this`errorCount, this`consecutiveErrs, this`log, this`handled
      ensures Counted() && log == ExtendAll(old(log), envs, |parts|, tracked)
      ensures handled == old(handled) + parts
      ensures ChunksOf(msg, parts, maxLen)
    {
      parts := Chunks(msg);
      for k := 0 to |parts|
        invariant Counted() && log == ExtendAll(old(log), envs, k, tracked)
        invariant handled == old(handled) + parts[..k]
      {
        SendWithRetry(parts[k], envs(k));
        OneMore(old(handled), parts, k);
      }
    }

    /** runLoop taking the next queued message. */
    method ProcessNext(envs: nat -> Env) returns (parts: seq<string>)
      requires Counted() && Queued() && queue != []
      modifies this
      ensures Counted() && Queued() && accepted == old(accepted)
      ensures processed == old(processed) + [old(queue)[0]] && queue == old(queue)[1..]
      ensures log == ExtendAll(old(log), envs, |parts|, tracked) && handled == old(handled) + parts
      ensures ChunksOf(old(queue)[0], parts, maxLen)
    {
      var msg := queue[0];
      MoveFirst(processed, queue);
      queue := queue[1..];
      ghost var waiting := queue;
      parts := ProcessMessage(msg, envs);
      processed := processed + [msg];
      assert queue == waiting;
    }

    /** runLoop once the queue is closed or the context done: everything accepted is processed,
        each message once, in the order it was accepted. */
    method Drain(envs: nat -> nat -> Env)
      requires Counted() && Queued()
      modifies this
      ensures Counted() && Queued() && queue == [] && accepted == old(accepted) && processed == accepted
    {
      var n := 0;
      while queue != []
        invariant Counted() && Queued() && accepted == old(accepted)
        decreases |queue|
      {
        var _ := ProcessNext(envs(n));
        n := n + 1;
      }
    }
  }

  /** A message over the connector's limit is split; any other is one chunk. */
  ghost predicate ChunksOf(msg: string, parts: seq<string>, maxLen: int) {
    if 0 < maxLen < |msg|
    then (exists segs :: SplitOk(msg, parts, segs, maxLen))
         && (AllSkipped(msg) ==> parts == []) && (EndsUnskipped(msg) ==> parts != [])
    else parts == [msg]
  }

  /** The history once a chunk is dealt with. */
  function AfterChunk(log: Log, env: Env, tracked: bool): Log {
    Extend(log, Deliver(env), tracked)
  }

  lemma MoveFirst(done: seq<string>, queue: seq<string>)
    requires queue != []
    ensures done + queue == done + [queue[0]] + queue[1..]
  {
  }

  lemma OneMore(before: seq<string>, parts: seq<string>, k: nat)
    requires k < |parts|
    ensures before + parts[..k] + [parts[k]] == before + parts[..k + 1]
  {
  }

  function ExtendAll(log: Log, envs: nat -> Env, n: nat, tracked: bool): Log {
    if n == 0 then log else AfterChunk(ExtendAll(log, envs, n - 1, tracked), envs(n - 1), tracked)
  }

  // ---------------------------------------------------------------- bounds of one chunk

  function Sum(trail: seq<Attempt>): nat {
    if trail == [] then 0 else Sum(trail[..|trail| - 1]) + trail[|trail| - 1].delta
  }

  /** Some "queued" entries, then one final status; nothing final only if a wait was cancelled. */
  predicate TrailOk(trail: seq<Attempt>, final: bool) {
    if final
    then trail != [] && !trail[|trail| - 1].status.Queued? && AllQueued(trail[..|trail| - 1])
    else AllQueued(trail)
  }

  predicate AllQueued(trail: seq<Attempt>) {
    forall i :: 0 <= i < |trail| ==> trail[i].status.Queued?
  }

  /** Whether the context ends in one of the waits from attempt k on. */
  predicate CancelledInWait(env: Env, k: nat)
    requires k <= MAX_RETRIES
    decreases MAX_RETRIES - k
  {
    if GoesOn(env, k) then CancelledInWait(env, k + 1)
    else env.send(k).Some? && !Permanent(env.send(k).value) && k < MAX_RETRIES
  }

  /** The most the waits after attempts k, k + 1, ... can add up to. */
  function WaitBound(k: nat): nat {
    if k == 0 then 4_000 else if k == 1 then 3_000 else if k == 2 then 2_000 else 0
  }

  lemma {:induction false} RetryCounts(env: Env, k: nat)
    requires k <= MAX_RETRIES
    ensures var d := Retry(env, k);
            d.calls == |d.tries| == |d.trail| <= MAX_RETRIES + 1 - k && (d.report.None? <==> CancelledInWait(env, k))
    decreases MAX_RETRIES - k
  {
    if GoesOn(env, k) { RetryCounts(env, k + 1); }
  }

  predicate AllOnes(trail: seq<Attempt>) {
    forall i :: 0 <= i < |trail| ==> trail[i].delta == 1
  }

  lemma {:induction false} SumOfOnes(trail: seq<Attempt>)
    requires AllOnes(trail)
    ensures Sum(trail) == |trail|
  {
    if trail != [] { SumOfOnes(trail[..|trail| - 1]); }
  }

  /** Every attempt of the loop is recorded with delta 1. */
  lemma {:induction false} RetryRecordsOnes(env: Env, k: nat)
    requires k <= MAX_RETRIES
    ensures AllOnes(Retry(env, k).trail)
    decreases MAX_RETRIES - k
  {
    if GoesOn(env, k) { RetryRecordsOnes(env, k + 1); }
  }

  lemma {:induction false} RetryWaits(env: Env, k: nat)
    requires k <= MAX_RETRIES
    ensures Retry(env, k).waitedMs <= WaitBound(k)
    decreases MAX_RETRIES - k
  {
    assert Pow2(0) == 1 && Pow2(1) == 2 && Pow2(2) == 4;
    if GoesOn(env, k) { RetryWaits(env, k + 1); }
  }

  lemma QueuedFirst(a: Attempt, rest: seq<Attempt>, final: bool)
    requires a.status.Queued? && TrailOk(rest, final)
    ensures TrailOk([a] + rest, final)
  {
    var all := [a] + rest;
    if final {
      assert all[..|all| - 1] == [a] + rest[..|rest| - 1];
    }
  }

  lemma {:induction false} RetryTrail(env: Env, k: nat)
    requires k <= MAX_RETRIES
    ensures TrailOk(Retry(env, k).trail, !CancelledInWait(env, k)) && OnlyLastSucceeds(Retry(env, k).tries)
    decreases MAX_RETRIES - k
  {
    if GoesOn(env, k) {
      RetryTrail(env, k + 1);
      QueuedFirst(Attempt(Queued, 1), Retry(env, k + 1).trail, !CancelledInWait(env, k));
    }
  }

  /** Only the last try of a chunk can succeed. */
  predicate OnlyLastSucceeds(tries: seq<bool>) {
    forall i :: 0 <= i < |tries| - 1 ==> !tries[i]
  }

  /** For every pattern of answers a chunk makes at most 4 Send calls and waits at most 4 s;
      the recorded deltas sum to the Send calls plus a successful placeholder edit; the status
      trail is some "queued" entries and one final status, unless a wait was cancelled. */
  lemma ChunkIsBounded(env: Env)
    ensures var d := Deliver(env);
            var sending := env.limiterOk && !env.edited && !env.hookCancels;
            d.calls <= 4 && d.waitedMs <= 4_000
            && Sum(d.trail) == d.calls + (if env.limiterOk && env.edited then 1 else 0) == |d.tries|
            && TrailOk(d.trail, !(sending && CancelledInWait(env, 0))) && OnlyLastSucceeds(d.tries)
            && (d.report.Some? <==> sending && !CancelledInWait(env, 0))
  {
    RetryCounts(env, 0);
    RetryRecordsOnes(env, 0);
    SumOfOnes(Retry(env, 0).trail);
    RetryWaits(env, 0);
    RetryTrail(env, 0);
    assert forall a: Attempt :: [a][..0] == [];
    assert forall a: Attempt :: Sum([a]) == Sum([a][..0]) + a.delta;
  }

  // ---------------------------------------------------------------- what a chunk's records say

  /** Errors after which no further attempt is made. */
  predicate EndsAtOnce(answer: Option<SendError>) {
    answer == Some(NotRunning) || answer == Some(SendFailed)
  }

  /** How many Send calls the loop makes from attempt k on: every one but the last failed with an
      error that does not end it and was waited out, and the last one succeeded, failed with one
      that does, was the fourth, or was cut short in its wait. */
  lemma {:induction false} RetryCalls(env: Env, k: nat)
    requires k <= 3
    ensures var n := Retry(env, k).calls;
            1 <= n <= 4 - k
            && (forall i :: k <= i < k + n - 1 ==> env.send(i).Some? && !EndsAtOnce(env.send(i)) && !env.cancelled(i))
            && (env.send(k + n - 1).None? || EndsAtOnce(env.send(k + n - 1)) || k + n == 4 || env.cancelled(k + n - 1))
    decreases 3 - k
  {
    if GoesOn(env, k) { RetryCalls(env, k + 1); }
  }

  function LastStatus(trail: seq<Attempt>): Option<Status> {
    if trail == [] then None else Some(trail[|trail| - 1].status)
  }

  /** The attempt the loop ends with. */
  function LastAttempt(env: Env, k: nat): nat
    requires k <= MAX_RETRIES
    decreases MAX_RETRIES - k
  {
    if GoesOn(env, k) then LastAttempt(env, k + 1) else k
  }

  lemma {:induction false} RetryEndsIn(env: Env, k: nat)
    requires k <= MAX_RETRIES
    ensures var l := LastAttempt(env, k);
            k <= l <= MAX_RETRIES && !GoesOn(env, l) && Retry(env, k).calls == l + 1 - k
            && LastStatus(Retry(env, k).trail) == LastStatus(OneTry(env, l).trail)
    decreases MAX_RETRIES - k
  {
    if GoesOn(env, k) {
      RetryEndsIn(env, k + 1);
      TrailNotEmpty(env, k + 1);
      LastOfLater(OneTry(env, k).trail, Retry(env, k + 1).trail);
    }
  }

  lemma TrailNotEmpty(env: Env, k: nat)
    requires k <= MAX_RETRIES
    ensures Retry(env, k).trail != []
  {
    RetryCounts(env, k);
    RetryEnds(env, k);
  }

  lemma {:induction false} RetryEnds(env: Env, k: nat)
    requires k <= MAX_RETRIES
    ensures Retry(env, k).calls >= 1
  {
  }

  lemma RetryStatus(env: Env, k: nat)
    requires k <= 3
    ensures var d := Retry(env, k);
            d.calls > 0
            && var answer := env.send(k + d.calls - 1);
               LastStatus(d.trail) == Some(if answer.None? then Sent
                                           else if EndsAtOnce(answer) || k + d.calls == 4 then Failed else Queued)
  {
    RetryEndsIn(env, k);
    StatusOfOne(env, LastAttempt(env, k));
  }

  lemma StatusOfOne(env: Env, l: nat)
    requires l <= 3
    ensures LastStatus(OneTry(env, l).trail)
         == Some(if env.send(l).None? then Sent else if EndsAtOnce(env.send(l)) || l == 3 then Failed else Queued)
  {
  }

  lemma LastOfLater(before: seq<Attempt>, after: seq<Attempt>)
    requires after != []
    ensures LastStatus(before + after) == LastStatus(after)
  {
  }

  /** The last status recorded for a chunk: sent exactly when its placeholder was edited or its last
      Send call succeeded; failed exactly when the limiter refused, or the last call failed for good
      or was the fourth; skipped exactly when the hook cancelled it; queued exactly when a wait was
      cut short. */
  lemma FinalStatus(env: Env)
    ensures var d := Deliver(env);
            var sending := env.limiterOk && !env.edited && !env.hookCancels;
            (sending <==> d.calls > 0)
            && (LastStatus(d.trail) == Some(Sent) <==>
                  env.limiterOk && (env.edited || (!env.hookCancels && d.calls > 0 && env.send(d.calls - 1).None?)))
            && (LastStatus(d.trail) == Some(Failed) <==>
                  !env.limiterOk
                  || (sending && d.calls > 0 && env.send(d.calls - 1).Some?
                      && (EndsAtOnce(env.send(d.calls - 1)) || d.calls == 4)))
            && (LastStatus(d.trail) == Some(Skipped) <==> env.limiterOk && !env.edited && env.hookCancels)
            && (LastStatus(d.trail) == Some(Queued) <==>
                  sending && d.calls > 0 && env.send(d.calls - 1).Some?
                  && !EndsAtOnce(env.send(d.calls - 1)) && d.calls < 4)
  {
    RetryCalls(env, 0);
    RetryStatus(env, 0);
  }

  /** The pause after a failed attempt i: one second when rate limited, else half a second, one, two. */
  function Pause(answer: Option<SendError>, i: nat): nat {
    if answer == Some(RateLimit) then 1_000 else if i == 0 then 500 else if i == 1 then 1_000 else 2_000
  }

  function Pauses(env: Env, k: nat, n: nat): nat
    decreases n
  {
    if n == 0 then 0 else Pause(env.send(k), k) + Pauses(env, k + 1, n - 1)
  }

  /** The loop waits exactly those pauses, one after each attempt that is followed by another. */
  lemma {:induction false} RetryWaitsExactly(env: Env, k: nat)
    requires k <= 3
    ensures Retry(env, k).calls >= 1 && Retry(env, k).waitedMs == Pauses(env, k, Retry(env, k).calls - 1)
    decreases 3 - k
  {
    assert Pow2(0) == 1 && Pow2(1) == 2 && Pow2(2) == 4;
    if GoesOn(env, k) { RetryWaitsExactly(env, k + 1); }
  }

  /** Final statuses, as opposed to "queued". */
  function Finals(trail: seq<Attempt>): nat {
    if trail == [] then 0
    else Finals(trail[..|trail| - 1]) + if trail[|trail| - 1].status.Queued? then 0 else 1
  }

  lemma {:induction false} FinalsConcat(a: seq<Attempt>, b: seq<Attempt>)
    ensures Finals(a + b) == Finals(a) + Finals(b)
  {
    if b == [] {
      assert a + b == a;
    } else {
      assert (a + b)[..|a + b| - 1] == a + b[..|b| - 1];
      FinalsConcat(a, b[..|b| - 1]);
    }
  }

  lemma {:induction false} QueuedIsNotFinal(trail: seq<Attempt>)
    requires AllQueued(trail)
    ensures Finals(trail) == 0
  {
    if trail != [] { QueuedIsNotFinal(trail[..|trail| - 1]); }
  }

  predicate Cancelled(env: Env) {
    env.limiterOk && !env.edited && !env.hookCancels && CancelledInWait(env, 0)
  }

  /** A chunk records one final status, or none when a wait was cancelled. */
  lemma ChunkFinals(env: Env)
    ensures Finals(Deliver(env).trail) == if Cancelled(env) then 0 else 1
  {
    ChunkIsBounded(env);
    var trail := Deliver(env).trail;
    if Cancelled(env) {
      QueuedIsNotFinal(trail);
    } else {
      QueuedIsNotFinal(trail[..|trail| - 1]);
    }
  }

  /** No wait of the first n chunks is cancelled. */
  predicate NoneCancelled(envs: nat -> Env, n: nat) {
    n == 0 || (NoneCancelled(envs, n - 1) && !Cancelled(envs(n - 1)))
  }

  /** What the first n chunks record. */
  function Trails(envs: nat -> Env, n: nat): seq<Attempt> {
    if n == 0 then [] else Trails(envs, n - 1) + Deliver(envs(n - 1)).trail
  }

  lemma ChunkTrail(log: Log, env: Env)
    ensures AfterChunk(log, env, true).trail == log.trail + Deliver(env).trail
  {
  }

  lemma {:induction false} MessageTrail(log: Log, envs: nat -> Env, n: nat)
    ensures ExtendAll(log, envs, n, true).trail == log.trail + Trails(envs, n)
  {
    if n > 0 {
      MessageTrail(log, envs, n - 1);
      ChunkTrail(ExtendAll(log, envs, n - 1, true), envs(n - 1));
      assert log.trail + Trails(envs, n - 1) + Deliver(envs(n - 1)).trail == log.trail + Trails(envs, n);
    }
  }

  lemma {:induction false} TrailsFinals(envs: nat -> Env, n: nat)
    requires NoneCancelled(envs, n)
    ensures Finals(Trails(envs, n)) == n
  {
    if n > 0 {
      TrailsFinals(envs, n - 1);
      FinalsConcat(Trails(envs, n - 1), Deliver(envs(n - 1)).trail);
      ChunkFinals(envs(n - 1));
    }
  }

  /** A message's chunks together record one final status each, apart from cancelled ones. */
  lemma MessageFinals(log: Log, envs: nat -> Env, n: nat)
    requires NoneCancelled(envs, n)
    ensures Finals(ExtendAll(log, envs, n, true).trail) == Finals(log.trail) + n
  {
    MessageTrail(log, envs, n);
    TrailsFinals(envs, n);
    FinalsConcat(log.trail, Trails(envs, n));
  }

  /** So a tracked message leaves a final status as soon as it has a character that is not
      whitespace, or fits the limit, or ends in anything but a space, newline or carriage return;
      one over the limit that is only spaces, newlines and carriage returns is never sent and
      leaves no record at all. */
  lemma MessageLeavesStatus(msg: string, parts: seq<string>, maxLen: int, log: Log, envs: nat -> Env)
    requires ChunksOf(msg, parts, maxLen) && NoneCancelled(envs, |parts|)
    ensures var after := ExtendAll(log, envs, |parts|, true);
            Finals(after.trail) == Finals(log.trail) + |parts|
            && (!AllSpace(msg) || !(0 < maxLen < |msg|) || EndsUnskipped(msg) ==>
                  Finals(after.trail) > Finals(log.trail))
            && (AllSkipped(msg) && 0 < maxLen < |msg| ==> after == log)
  {
    MessageFinals(log, envs, |parts|);
    if 0 < maxLen < |msg| && !AllSpace(msg) {
      var segs :| SplitOk(msg, parts, segs, maxLen);
      SolidHasPart(msg, parts, segs, maxLen);
    }
  }

  /** A chunk is reported to the circuit breaker as delivered exactly when its last Send call
      succeeded, and otherwise with that call's error. */
  lemma {:induction false} ReportIsLastAnswer(env: Env, k: nat)
    requires k <= MAX_RETRIES && !CancelledInWait(env, k)
    ensures var d := Retry(env, k);
            d.report == Some(env.send(k + d.calls - 1))
    decreases MAX_RETRIES - k
  {
    if GoesOn(env, k) { ReportIsLastAnswer(env, k + 1); }
  }

  /** Over the worker's life sendCount + errorCount is the number of tries, and consecutiveErrs
      the length of the run of failures at their end. */
  lemma CountersOverLife(w: Worker)
    requires w.Counted()
    ensures w.sendCount + w.errorCount == |w.log.tries|
    ensures w.consecutiveErrs <= |w.log.tries|
            && (forall i :: |w.log.tries| - w.consecutiveErrs <= i < |w.log.tries| ==> !w.log.tries[i])
            && (w.consecutiveErrs < |w.log.tries| ==> w.log.tries[|w.log.tries| - w.consecutiveErrs - 1])
  {
    TallyCounts(w.log.tries);
    CountsAddUp(w.log.tries);
    TrailingIsLongest(w.log.tries);
  }

  lemma {:induction false} TrailingIsLongest(tries: seq<bool>)
    ensures var n := TrailingFailures(tries);
            n <= |tries| && (forall i :: |tries| - n <= i < |tries| ==> !tries[i])
            && (n < |tries| ==> tries[|tries| - n - 1])
  {
    if tries != [] && !tries[|tries| - 1] { TrailingIsLongest(tries[..|tries| - 1]); }
  }
}
