/** Startup catch-up and the search for the next wake-up (internal/cron/service.go). */
module CronCatchup {

  import opened Wrappers

  type Id = string

  datatype Row = Row(id: Id, enabled: bool, nextRunMs: int, runningMs: int)

  const STUCK_RUNNING_MS: int := 7_200_000

  predicate Overdue(r: Row, ms: int) {
    r.enabled && r.nextRunMs > 0 && r.nextRunMs <= ms
  }

  ghost predicate DistinctIds(rows: seq<Row>) {
    forall i, j :: 0 <= i < j < |rows| ==> rows[i].id != rows[j].id
  }

  ghost predicate SortedByDue(rows: seq<Row>) {
    forall i, j :: 0 <= i < j < |rows| ==> rows[i].nextRunMs <= rows[j].nextRunMs
  }

  ghost predicate SameRows(a: seq<Row>, b: seq<Row>) {
    |a| == |b| && forall r :: r in a <==> r in b
  }

  function Limit(maxMissed: int): int {
    if maxMissed < 1 then 5 else maxMissed
  }

  function StaggerMs(configured: int): (stagger: int)
    ensures stagger >= 500 && (configured >= 500 ==> stagger == configured)
    ensures configured < 500 ==> stagger == 5_000
  {
    if configured < 500 then 5_000 else configured
  }

  method OverdueRows(loaded: seq<Row>, ms: int) returns (overdue: seq<Row>)
    requires DistinctIds(loaded)
    ensures DistinctIds(overdue)
    ensures forall r :: r in overdue <==> r in loaded && Overdue(r, ms)
  {
    overdue := [];
    for i := 0 to |loaded|
      invariant DistinctIds(overdue)
      invariant forall r :: r in overdue <==> r in loaded[..i] && Overdue(r, ms)
    {
      if Overdue(loaded[i], ms) {
        assert forall k :: 0 <= k < |overdue| ==> overdue[k] in loaded[..i];
        overdue := overdue + [loaded[i]];
      }
    }
  }

  method InsertByDue(s: seq<Row>, r: Row) returns (t: seq<Row>)
    requires SortedByDue(s) && DistinctIds(s) && forall k :: 0 <= k < |s| ==> s[k].id != r.id
    ensures SortedByDue(t) && DistinctIds(t)
    ensures |t| == |s| + 1 && forall x :: x in t <==> x == r || x in s
  {
    var p := 0;
    while p < |s| && s[p].nextRunMs <= r.nextRunMs
      invariant 0 <= p <= |s|
      invariant forall k :: 0 <= k < p ==> s[k].nextRunMs <= r.nextRunMs
    {
      p := p + 1;
    }
    t := Insert(s, p, r);
    InsertKeepsOrder(s, p, r);
    InsertKeepsIds(s, p, r);
  }

  lemma InsertKeepsOrder(s: seq<Row>, p: nat, r: Row)
    requires SortedByDue(s) && p <= |s| && (forall k :: 0 <= k < p ==> s[k].nextRunMs <= r.nextRunMs)
    requires p < |s| ==> r.nextRunMs <= s[p].nextRunMs
    ensures SortedByDue(Insert(s, p, r))
  {
  }

  lemma InsertKeepsIds(s: seq<Row>, p: nat, r: Row)
    requires DistinctIds(s) && p <= |s| && forall k :: 0 <= k < |s| ==> s[k].id != r.id
    ensures DistinctIds(Insert(s, p, r))
  {
  }

  /** Stands for sort.Slice, of which only this contract is used. */
  method SortByDue(rows: seq<Row>) returns (sorted: seq<Row>)
    requires DistinctIds(rows)
    ensures SortedByDue(sorted) && SameRows(sorted, rows) && DistinctIds(sorted)
  {
    sorted := [];
    for i := 0 to |rows|
      invariant SortedByDue(sorted) && SameRows(sorted, rows[..i]) && DistinctIds(sorted)
    {
      forall k | 0 <= k < |sorted| ensures sorted[k].id != rows[i].id {
        assert sorted[k] in rows[..i];
      }
      assert forall x :: x in rows[..i + 1] <==> x == rows[i] || x in rows[..i];
      sorted := InsertByDue(sorted, rows[i]);
    }
    assert rows[..|rows|] == rows;
  }

  function Insert(s: seq<Row>, p: nat, r: Row): (t: seq<Row>)
    requires p <= |s|
    ensures |t| == |s| + 1 && forall x :: x in t <==> x == r || x in s
    ensures forall k :: 0 <= k < |t| ==> t[k] == if k < p then s[k] else if k == p then r else s[k - 1]
  {
    assert forall x :: x in s ==> x in s[..p] || x in s[p..];
    s[..p] + [r] + s[p..]
  }

  /** What runOneJob leaves of a row marked running: a new row, or none if it was deleted. */
  type RunEffect = Row -> Option<Row>

  class Scheduler {
    var jobs: map<Id, Row>

    constructor (initial: map<Id, Row>)
      ensures jobs == initial
    {
      jobs := initial;
    }

    method RunOne(row: Row, ms: int, effect: RunEffect)
      modifies this
      ensures jobs == match effect(row.(runningMs := ms))
                      case Some(after) => old(jobs)[row.id := after]
                      case None => old(jobs) - {row.id}
    {
      var after := effect(row.(runningMs := ms));
      jobs := if after.Some? then jobs[row.id := after.value] else jobs - {row.id};
    }

    ghost predicate Settled(r: Row, ms: int, effect: RunEffect)
      reads this
    {
      match effect(r.(runningMs := ms))
      case Some(after) => r.id in jobs && jobs[r.id] == after
      case None => r.id !in jobs
    }

    method RunFirst(due: seq<Row>, cut: nat, ms: int, effect: RunEffect)
      requires DistinctIds(due) && cut <= |due|
      modifies this
      ensures forall k :: 0 <= k < cut ==> Settled(due[k], ms, effect)
      ensures forall id :: id in old(jobs) && (forall k :: 0 <= k < cut ==> due[k].id != id) ==>
                id in jobs && jobs[id] == old(jobs)[id]
    {
      for i := 0 to cut
        invariant forall k :: 0 <= k < i ==> Settled(due[k], ms, effect)
        invariant forall id :: id in old(jobs) && (forall k :: 0 <= k < i ==> due[k].id != id) ==>
                    id in jobs && jobs[id] == old(jobs)[id]
      {
        RunOne(due[i], ms, effect);
      }
    }

    method DeferRest(due: seq<Row>, cut: nat, ms: int, stagger: int)
      requires DistinctIds(due) && cut <= |due|
      requires forall k :: cut <= k < |due| ==> due[k].id in jobs
      modifies this
      ensures jobs.Keys == old(jobs).Keys
      ensures forall k :: cut <= k < |due| ==>
                jobs[due[k].id] == old(jobs)[due[k].id].(nextRunMs := ms + (k - cut + 1) * stagger)
      ensures forall id :: id in jobs && (forall k :: cut <= k < |due| ==> due[k].id != id) ==>
                jobs[id] == old(jobs)[id]
    {
      var offset := 0;
      for i := cut to |due|
        invariant offset == (i - cut) * stagger
        invariant jobs.Keys == old(jobs).Keys
        invariant forall k :: cut <= k < i ==>
                    jobs[due[k].id] == old(jobs)[due[k].id].(nextRunMs := ms + (k - cut + 1) * stagger)
        invariant forall id :: id in jobs && (forall k :: cut <= k < i ==> due[k].id != id) ==>
                    jobs[id] == old(jobs)[id]
      {
        offset := offset + stagger;
        var row := jobs[due[i].id];
        jobs := jobs[due[i].id := row.(nextRunMs := ms + offset)];
      }
    }

    /** Every overdue enabled job is run at once or deferred, never both and never neither. In due
        order, the first `cut` run, at most the configured number, and only what is left over is
        deferred: the n-th deferred one (from 1) to start + n * stagger. */
    method RunStartupCatchup(loaded: seq<Row>, ms: int, maxMissed: int, staggerMs: int, effect: RunEffect)
      returns (due: seq<Row>, cut: nat)
      requires DistinctIds(loaded)
      requires forall i :: 0 <= i < |loaded| ==> loaded[i].id in jobs && jobs[loaded[i].id] == loaded[i]
      modifies this
      ensures forall r :: r in due <==> r in loaded && r.enabled && 0 < r.nextRunMs <= ms
      ensures DistinctIds(due) && SortedByDue(due)
      ensures var limit := if maxMissed < 1 then 5 else maxMissed;
              cut <= |due| && cut <= limit && (cut < |due| ==> cut == limit)
      ensures forall k :: 0 <= k < cut ==> Settled(due[k], ms, effect)
      ensures forall k :: cut <= k < |due| ==>
                due[k].id in jobs
                && jobs[due[k].id] == due[k].(nextRunMs := ms + (k - cut + 1) * StaggerMs(staggerMs))
      ensures forall id :: id in old(jobs) && (forall k :: 0 <= k < |due| ==> due[k].id != id) ==>
                id in jobs && jobs[id] == old(jobs)[id]
    {
      var overdue := OverdueRows(loaded, ms);
      due := SortByDue(overdue);
      cut := if |due| > Limit(maxMissed) then Limit(maxMissed) else |due|;
      forall k | 0 <= k < |due| ensures due[k].id in jobs && jobs[due[k].id] == due[k] {
        assert due[k] in loaded;
      }
      RunFirst(due, cut, ms, effect);
      DeferRest(due, cut, ms, StaggerMs(staggerMs));
    }
  }

  predicate Waiting(r: Row, nowMs: int) {
    r.nextRunMs > 0 && !(r.runningMs > 0 && nowMs - r.runningMs < STUCK_RUNNING_MS)
  }

  /** A row waits unless it has no due time, or is running and has been for less than two hours. */
  lemma WaitingIff(r: Row, nowMs: int)
    ensures Waiting(r, nowMs) <==> r.nextRunMs > 0 && (r.runningMs <= 0 || nowMs - r.runningMs >= 7_200_000)
  {
  }

  /** nextWakeMsLocked over rows in due order: the earliest due time of a row not now running. */
  method NextWakeMs(rows: seq<Row>, nowMs: int) returns (wake: Option<int>)
    requires SortedByDue(rows)
    ensures wake.None? <==> forall i :: 0 <= i < |rows| ==> !Waiting(rows[i], nowMs)
    ensures wake.Some? ==> exists i :: 0 <= i < |rows| && Waiting(rows[i], nowMs) && rows[i].nextRunMs == wake.value
    ensures wake.Some? ==> forall i :: 0 <= i < |rows| && Waiting(rows[i], nowMs) ==> wake.value <= rows[i].nextRunMs
  {
    for i := 0 to |rows|
      invariant forall k :: 0 <= k < i ==> !Waiting(rows[k], nowMs)
    {
      if rows[i].nextRunMs <= 0 {
        continue;
      }
      if rows[i].runningMs > 0 && nowMs - rows[i].runningMs < STUCK_RUNNING_MS {
        continue;
      }
      return Some(rows[i].nextRunMs);
    }
    return None;
  }
}
