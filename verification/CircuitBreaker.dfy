/**
The per-connector circuit breaker (internal/connectors/manager.go). Times are milliseconds;
the check made by Dispatch is one atomic step.
 */
module CircuitBreaker {

  import opened Wrappers

  datatype State = Closed | Open | HalfOpen

  datatype Circuit = Circuit(state: State, failures: nat, openedAt: int)

  /** A reported send error; permanent covers unknown connector, not running and send failed. */
  datatype Failure = Failure(permanent: bool)

  const FAILURE_THRESHOLD: nat := 5
  const COOLDOWN_MS: int := 30_000

  const FRESH: Circuit := Circuit(Closed, 0, 0)

  // ---------------------------------------------------------------- one connector

  function Report(c: Circuit, result: Option<Failure>, now: int): Circuit {
    match result
    case None => c.(state := Closed, failures := 0)
    case Some(f) =>
      var counted := c.(failures := c.failures + 1);
      if (f.permanent || counted.failures >= FAILURE_THRESHOLD) && c.state != Open
      then counted.(state := Open, openedAt := now) else counted
  }

  /** isCircuitOpen: the new state and whether the dispatch is refused. */
  function Check(c: Circuit, now: int): (Circuit, bool) {
    if c.state != Open then (c, false)
    else if now - c.openedAt >= COOLDOWN_MS then (c.(state := HalfOpen), false)
    else (c, true)
  }

  // ---------------------------------------------------------------- the manager

  datatype DispatchResult = Refused | UnknownConnector | QueueFull | Forwarded

  function Lookup(circuits: map<string, Circuit>, name: string): Circuit {
    if name in circuits then circuits[name] else FRESH
  }

  class Manager {
    var circuits: map<string, Circuit>
    var workers: set<string>

    constructor (workers: set<string>)
      ensures circuits == map[] && this.workers == workers
    {
      circuits := map[];
      this.workers := workers;
    }

    method OnSendResult(name: string, result: Option<Failure>, now: int)
      modifies this`circuits
      ensures circuits == old(circuits)[name := Report(Lookup(old(circuits), name), result, now)]
    {
      var c := if name in circuits then circuits[name] else Circuit(Closed, 0, 0);
      if result.None? {
        c := c.(state := Closed, failures := 0);
        circuits := circuits[name := c];
        return;
      }
      c := c.(failures := c.failures + 1);
      if result.value.permanent || c.failures >= FAILURE_THRESHOLD {
        if c.state != Open {
          c := c.(state := Open, openedAt := now);
        }
      }
      circuits := circuits[name := c];
    }

    method IsCircuitOpen(name: string, now: int) returns (open: bool)
      modifies this`circuits
      ensures Lookup(circuits, name) == Check(Lookup(old(circuits), name), now).0
      ensures open == Check(Lookup(old(circuits), name), now).1
      ensures forall other :: other != name ==> Lookup(circuits, other) == Lookup(old(circuits), other)
    {
      if name !in circuits {
        return false;
      }
      var c := circuits[name];
      if c.state == Open {
        if now - c.openedAt >= COOLDOWN_MS {
          circuits := circuits[name := c.(state := HalfOpen)];
          return false;
        }
        return true;
      }
      return false;
    }

    /** `room` is the answer of the worker's Enqueue. */
    method Dispatch(name: string, now: int, room: bool) returns (r: DispatchResult)
      modifies this`circuits
      ensures r == if Check(Lookup(old(circuits), name), now).1 then Refused
                   else if name !in workers then UnknownConnector
                   else if room then Forwarded else QueueFull
      ensures Lookup(circuits, name) == Check(Lookup(old(circuits), name), now).0
      ensures forall other :: other != name ==> Lookup(circuits, other) == Lookup(old(circuits), other)
    {
      var open := IsCircuitOpen(name, now);
      if open {
        return Refused;
      }
      if name !in workers {
        return UnknownConnector;
      }
      return if room then Forwarded else QueueFull;
    }
  }

  // ---------------------------------------------------------------- whole runs

  datatype Event = Reported(result: Option<Failure>, now: int) | Checked(now: int)

  function After(events: seq<Event>): Circuit {
    if events == [] then FRESH
    else
      var c := After(events[..|events| - 1]);
      match events[|events| - 1]
      case Reported(result, now) => Report(c, result, now)
      case Checked(now) => Check(c, now).0
  }

  predicate Success(e: Event) {
    e.Reported? && e.result.None?
  }

  predicate Fails(e: Event) {
    e.Reported? && e.result.Some?
  }

  /** Failures reported since the last reported success. */
  function FailuresSince(events: seq<Event>): nat {
    if events == [] || Success(events[|events| - 1]) then 0
    else FailuresSince(events[..|events| - 1]) + if Fails(events[|events| - 1]) then 1 else 0
  }

  /** Whether one of them was permanent. */
  predicate PermanentSince(events: seq<Event>) {
    events != [] && !Success(events[|events| - 1])
    && ((Fails(events[|events| - 1]) && events[|events| - 1].result.value.permanent)
        || PermanentSince(events[..|events| - 1]))
  }

  /** FailureCount counts the failures since the last success, and the circuit is closed exactly
      while none of them was permanent and there were fewer than five. */
  lemma {:induction false} ClosedIff(events: seq<Event>)
    ensures After(events).failures == FailuresSince(events)
    ensures After(events).state == Closed <==> !PermanentSince(events) && FailuresSince(events) < 5
  {
    if events != [] { ClosedIff(events[..|events| - 1]); }
  }

  /** Event i opens the circuit. */
  predicate Opens(events: seq<Event>, i: nat) {
    i < |events| && After(events[..i]).state != Open && After(events[..i + 1]).state == Open
  }

  /** What came after the opening event i: no success, no new opening, no check after the cooldown. */
  predicate StaysOpen(events: seq<Event>, i: nat) {
    i < |events|
    && (forall j :: i < j < |events| ==> !Success(events[j]) && !Opens(events, j))
    && (forall j :: i < j < |events| && events[j].Checked? ==> events[j].now - events[i].now < COOLDOWN_MS)
  }

  lemma OpensInPrefix(events: seq<Event>, n: nat, i: nat)
    requires i < n <= |events|
    ensures Opens(events[..n], i) <==> Opens(events, i)
  {
    assert events[..n][..i] == events[..i] && events[..n][..i + 1] == events[..i + 1];
  }

  /** An event that leaves an open circuit open: no success, no check after the cooldown. */
  lemma QuietEvent(events: seq<Event>)
    requires |events| > 0 && After(events).state == Open && After(events[..|events| - 1]).state == Open
    ensures var e := events[|events| - 1];
            !Success(e) && After(events).openedAt == After(events[..|events| - 1]).openedAt
            && (e.Checked? ==> e.now - After(events).openedAt < COOLDOWN_MS)
    ensures !Opens(events, |events| - 1)
  {
  }

  lemma StillOpen(events: seq<Event>, n: nat, i: nat)
    requires i < n == |events| - 1 && StaysOpen(events[..n], i)
    requires !Success(events[n]) && !Opens(events, n)
    requires events[n].Checked? ==> events[n].now - events[i].now < COOLDOWN_MS
    ensures StaysOpen(events, i)
  {
    var g := events[..n];
    forall j | i < j < n ensures !Success(events[j]) && !Opens(events, j) {
      assert !Success(g[j]) && !Opens(g, j);
      OpensInPrefix(events, n, j);
    }
    forall j | i < j < n && events[j].Checked? ensures events[j].now - events[i].now < COOLDOWN_MS {
      assert g[j].now - g[i].now < COOLDOWN_MS;
    }
  }

  /** The event that last opened an open circuit: nothing since was a success, and no check
      since came after the cooldown. */
  lemma {:induction false} OpenedBy(events: seq<Event>) returns (i: nat)
    requires After(events).state == Open
    ensures Opens(events, i) && events[i].Reported? && events[i].now == After(events).openedAt
    ensures StaysOpen(events, i)
    decreases |events|
  {
    var n := |events| - 1;
    assert events[..|events|] == events;
    if After(events[..n]).state == Open {
      i := OpenedBy(events[..n]);
      OpensInPrefix(events, n, i);
      QuietEvent(events);
      StillOpen(events, n, i);
    } else {
      i := n;
    }
  }

  /** A dispatch is refused exactly when the circuit is open and less than 30 s have passed
      since the report that last opened it. */
  lemma RefusedIff(events: seq<Event>, now: int)
    ensures Check(After(events), now).1 <==>
              After(events).state == Open
              && exists i: nat :: Opens(events, i) && events[i].Reported?
                                  && (forall j :: i < j < |events| ==> !Opens(events, j))
                                  && now - events[i].now < 30_000
  {
    if After(events).state == Open {
      var i := OpenedBy(events);
      forall k: nat | Opens(events, k) && forall j :: k < j < |events| ==> !Opens(events, j) ensures k == i {}
    }
  }

  /** Failures reported while the circuit is open do not extend the window: from an opening at
      time t, only a success or a check 30 s later ends it, whatever else is reported. */
  lemma {:induction false} WindowIsFixed(events: seq<Event>, i: nat, now: int)
    requires Opens(events, i) && events[i].Reported?
    requires forall j :: i < j < |events| ==> !Success(events[j])
    requires forall j :: i < j < |events| && events[j].Checked? ==> events[j].now - events[i].now < COOLDOWN_MS
    ensures After(events).state == Open && After(events).openedAt == events[i].now
    ensures Check(After(events), now).1 <==> now - events[i].now < COOLDOWN_MS
    decreases |events|
  {
    var g := events[..|events| - 1];
    assert events[..|events|] == events;
    if i < |g| {
      assert g[..i] == events[..i] && g[..i + 1] == events[..i + 1];
      WindowIsFixed(g, i, now);
    }
  }

  // ---------------------------------------------------------------- half-open

  /** A failed probe re-opens a half-open circuit exactly when it is permanent or is the fifth
      failure or more since the last success; otherwise the circuit stays half-open. */
  lemma FailedProbeReopensIff(events: seq<Event>, f: Failure, now: int)
    requires After(events).state == HalfOpen
    ensures var next := After(events + [Reported(Some(f), now)]);
            (next.state == Open && next.openedAt == now <==> f.permanent || FailuresSince(events) >= 4)
            && (next.state != Open ==> next.state == HalfOpen)
  {
    ClosedIff(events);
    assert (events + [Reported(Some(f), now)])[..|events|] == events;
  }

  /** It can stay half-open: one permanent failure, a check after the cooldown, one transient failure. */
  lemma FailedProbeMayStayHalfOpen() returns (events: seq<Event>)
    ensures |events| == 3 && Fails(events[2]) && After(events[..2]).state == HalfOpen
    ensures After(events).state == HalfOpen
  {
    events := [Reported(Some(Failure(true)), 0), Checked(30_000), Reported(Some(Failure(false)), 30_001)];
    assert events[..2][..1] == [Reported(Some(Failure(true)), 0)];
    assert events[..2][..1][..0] == [];
    assert After(events[..2][..1]) == Circuit(Open, 1, 0);
    assert After(events[..2]) == Circuit(HalfOpen, 1, 0);
  }

  /** A half-open circuit admits every dispatch, not a single probe, until a result is reported. */
  lemma {:induction false} HalfOpenAdmitsAll(events: seq<Event>, checks: seq<Event>, now: int)
    requires After(events).state == HalfOpen && forall i :: 0 <= i < |checks| ==> checks[i].Checked?
    ensures After(events + checks) == After(events) && !Check(After(events + checks), now).1
    decreases |checks|
  {
    if checks == [] {
      assert events + checks == events;
    } else {
      var g := checks[..|checks| - 1];
      HalfOpenAdmitsAll(events, g, now);
      assert (events + checks)[..|events + checks| - 1] == events + g;
    }
  }
}
