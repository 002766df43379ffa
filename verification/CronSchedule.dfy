/**
Schedule arithmetic of internal/cron (schedule.go, stagger.go, backoff.go). Instants are
nanoseconds since the epoch; the cron-expression library is an abstract function.
 */
module CronSchedule {

  import opened Wrappers

  const MS: int := 1_000_000
  const SECOND: int := 1_000_000_000
  const DAY: int := 86_400 * SECOND
  const MIN_REFIRE_GAP_MS: int := 2_000

  /** time.Time.UnixMilli, which rounds down. */
  function UnixMilli(t: int): int {
    t / MS
  }

  type NextFn = int -> Option<int>

  // ---------------------------------------------------------------- back-off

  const DEFAULT_BACKOFF: seq<int> := [30_000, 60_000, 5 * 60_000, 15 * 60_000, 60 * 60_000]

  function Max(a: int, b: int): int {
    if a > b then a else b
  }

  /** ErrorBackoffMs: the table entry for the n-th consecutive error, the last one from then on. */
  function ErrorBackoffMs(consecutiveErrors: int, table: seq<int>): int {
    var n := if consecutiveErrors <= 0 then 1 else consecutiveErrors;
    var ms := if |table| == 0 then DEFAULT_BACKOFF else table;
    var idx := if n - 1 >= |ms| then |ms| - 1 else n - 1;
    ms[idx]
  }

  /** The n-th consecutive error waits the n-th entry, and the last one from then on; without a
      table the waits are 30 s, 1 min, 5 min, 15 min and then 1 h. */
  lemma BackoffIsTableEntry(n: int, table: seq<int>)
    ensures 1 <= n <= |table| ==> ErrorBackoffMs(n, table) == table[n - 1]
    ensures n > |table| > 0 ==> ErrorBackoffMs(n, table) == table[|table| - 1]
    ensures n <= 0 ==> ErrorBackoffMs(n, table) == ErrorBackoffMs(1, table)
    ensures ErrorBackoffMs(1, []) == 30_000 && ErrorBackoffMs(2, []) == 60_000 && ErrorBackoffMs(3, []) == 300_000
    ensures ErrorBackoffMs(4, []) == 900_000 && (n >= 5 ==> ErrorBackoffMs(n, []) == 3_600_000)
  {
  }

  /** The wait is at least the n-th entry of the table, or its last, or the default one. */
  predicate WaitsEntry(wait: int, n: int, table: seq<int>)
    requires n >= 1
  {
    if table == [] then
      wait >= if n == 1 then 30_000 else if n == 2 then 60_000 else if n == 3 then 300_000
              else if n == 4 then 900_000 else 3_600_000
    else wait >= table[if n <= |table| then n - 1 else |table| - 1]
  }

  lemma BackoffWaitsEntry(wait: int, n: int, table: seq<int>)
    requires n >= 1
    ensures wait >= ErrorBackoffMs(n, table) <==> WaitsEntry(wait, n, table)
  {
    BackoffIsTableEntry(n, table);
  }

  // ---------------------------------------------------------------- plain schedules

  /** The "every" kind, in milliseconds. */
  function EveryNextMs(everyMs: int, anchorMs: int, nowMs: int): int
    requires everyMs >= 1
  {
    var anchor := if anchorMs < 0 then 0 else anchorMs;
    if nowMs < anchor then anchor
    else anchor + Max((nowMs - anchor + everyMs - 1) / everyMs, 1) * everyMs
  }

  function GridPoint(anchor: int, everyMs: int, k: int): int {
    anchor + k * everyMs
  }

  /** It is the anchor while that lies ahead, and otherwise the least grid point of index at
      least 1 that is not before now. */
  lemma EveryIsLeastGridPoint(everyMs: int, anchorMs: int, nowMs: int)
    requires everyMs >= 1
    ensures var anchor := if anchorMs < 0 then 0 else anchorMs;
            var next := EveryNextMs(everyMs, anchorMs, nowMs);
            next >= nowMs
            && (nowMs < anchor ==> next == anchor)
            && (nowMs >= anchor ==>
                  (exists k :: k >= 1 && next == GridPoint(anchor, everyMs, k))
                  && forall k :: k >= 1 && GridPoint(anchor, everyMs, k) >= nowMs ==>
                       GridPoint(anchor, everyMs, k) >= next)
  {
    var anchor := if anchorMs < 0 then 0 else anchorMs;
    if nowMs >= anchor {
      var e := nowMs - anchor;
      var q := (e + everyMs - 1) / everyMs;
      CeilIsLeast(e, everyMs, q);
      var steps := Max(q, 1);
      assert EveryNextMs(everyMs, anchorMs, nowMs) == GridPoint(anchor, everyMs, steps);
      if steps != q { MulMono(q, steps, everyMs); }
      forall k | k >= 1 && GridPoint(anchor, everyMs, k) >= nowMs
        ensures GridPoint(anchor, everyMs, k) >= GridPoint(anchor, everyMs, steps)
      {
        assert k >= q;
        MulMono(steps, k, everyMs);
      }
    }
  }

  lemma CeilIsLeast(e: int, d: int, q: int)
    requires e >= 0 && d >= 1 && q == (e + d - 1) / d
    ensures q * d >= e && forall k :: k < q ==> k * d < e
  {
    var r := (e + d - 1) % d;
    assert e + d - 1 == q * d + r;
    forall k | k < q ensures k * d < e {
      MulMono(k, q - 1, d);
      assert (q - 1) * d == q * d - d;
    }
  }

  lemma MulMono(a: int, b: int, d: int)
    requires a <= b && d >= 0
    ensures a * d <= b * d
  {
  }

  /** The "cron" kind: Next of the parsed expression with its two fallbacks. The library answers
      with an instant not after its argument when it finds none. */
  function CronNext(library: int -> int, now: int): Option<int> {
    if library(now) > now then Some(library(now))
    else if library(now + SECOND) > now then Some(library(now + SECOND))
    else
      var tomorrow := now / DAY * DAY + DAY;
      if library(tomorrow) > now then Some(library(tomorrow)) else None
  }

  // ---------------------------------------------------------------- schedules as fire sets

  /** From lo on, next(t) is the least fire strictly after t. */
  ghost predicate LeastAfter(next: NextFn, fires: int -> bool, lo: int) {
    forall t :: lo <= t ==> IsLeastAfter(next(t), fires, t)
  }

  ghost predicate IsLeastAfter(r: Option<int>, fires: int -> bool, t: int) {
    match r
    case Some(n) => t < n && fires(n) && forall x :: t < x < n ==> !fires(x)
    case None => forall x :: t < x ==> !fires(x)
  }

  /** The library finds the least fire strictly after its argument, or answers `zero`. */
  ghost predicate LibraryContract(library: int -> int, fires: int -> bool, zero: int) {
    (forall x :: fires(x) ==> zero < x)
    && forall t :: zero <= t ==> (library(t) == zero && IsLeastAfter(None, fires, t))
                                 || IsLeastAfter(Some(library(t)), fires, t)
  }

  /** The fallbacks never change a correct library's answer. */
  lemma CronNextIsLeast(library: int -> int, fires: int -> bool, zero: int, now: int)
    requires LibraryContract(library, fires, zero) && zero <= now && 0 <= now
    ensures IsLeastAfter(CronNext(library, now), fires, now)
  {
    var tomorrow := now / DAY * DAY + DAY;
    assert now <= tomorrow;
    assert library(now) == zero || IsLeastAfter(Some(library(now)), fires, now);
    assert library(now + SECOND) == zero || IsLeastAfter(Some(library(now + SECOND)), fires, now + SECOND);
    assert library(tomorrow) == zero || IsLeastAfter(Some(library(tomorrow)), fires, tomorrow);
  }

  /** The answer is the library's for now; if that is not later, its answer for one second later; if
      that is not later either, its answer for the next midnight; and none if all three fail. */
  lemma CronFallbacks(library: int -> int, now: int)
    requires now >= 0
    ensures library(now) > now ==> CronNext(library, now) == Some(library(now))
    ensures library(now) <= now < library(now + 1_000_000_000) ==>
              CronNext(library, now) == Some(library(now + 1_000_000_000))
    ensures forall midnight ::
              midnight % 86_400_000_000_000 == 0 && now < midnight <= now + 86_400_000_000_000
              && library(now) <= now && library(now + 1_000_000_000) <= now ==>
                CronNext(library, now) == if library(midnight) > now then Some(library(midnight)) else None
  {
    forall midnight | midnight % DAY == 0 && now < midnight <= now + DAY ensures midnight == now / DAY * DAY + DAY {
      OneMidnight(now, midnight);
    }
  }

  lemma OneMidnight(now: int, midnight: int)
    requires midnight % DAY == 0 && now < midnight <= now + DAY
    ensures midnight == now / DAY * DAY + DAY
  {
  }

  /** The parsed expression as the stagger loop sees it. */
  function Cronned(library: int -> int): NextFn {
    (t: int) => CronNext(library, t)
  }

  /** Whatever the library answers, the guards let only later instants through. */
  lemma CronAdvances(library: int -> int)
    ensures Advances(Cronned(library))
  {
  }

  /** No answer of a cron expression lies at or before the instant asked about. */
  ghost predicate Advances(next: NextFn) {
    forall t :: next(t).Some? ==> next(t).value > t
  }

  lemma CronIsLeastAfter(library: int -> int, fires: int -> bool, zero: int)
    requires LibraryContract(library, fires, zero) && zero <= 0
    ensures LeastAfter(Cronned(library), fires, 0)
  {
    forall t | 0 <= t ensures IsLeastAfter(Cronned(library)(t), fires, t) {
      CronNextIsLeast(library, fires, zero, t);
    }
  }

  // ---------------------------------------------------------------- stagger

  /** StableStaggerOffsetMS; hash is the first 32 bits of the job id's digest. */
  function StaggerOffsetMs(hash: nat, staggerMs: int): (offset: int)
    ensures 0 <= offset && (staggerMs >= 1 ==> offset < staggerMs)
  {
    if staggerMs <= 1 then 0 else hash % staggerMs
  }

  const MAX_ATTEMPTS: nat := 4

  /** The remaining attempts of NextStaggeredCronRun's loop. */
  function Attempts(next: NextFn, off: int, now: int, cursor: int, left: nat): Option<int>
    decreases left
  {
    if left == 0 then None
    else
      match next(cursor)
      case None => None
      case Some(base) => if base + off > now then Some(base + off) else Attempts(next, off, now, base + MS, left - 1)
  }

  function StaggeredNext(next: NextFn, hash: nat, staggerMs: int, now: int): Option<int> {
    var off := StaggerOffsetMs(hash, staggerMs) * MS;
    if off <= 0 then next(now) else Attempts(next, off, now, now - off, MAX_ATTEMPTS)
  }

  method NextStaggeredCronRun(next: NextFn, hash: nat, staggerMs: int, now: int) returns (r: Option<int>)
    ensures r == StaggeredNext(next, hash, staggerMs, now)
  {
    if staggerMs <= 1 {
      return next(now);
    }
    var offset := StaggerOffsetMs(hash, staggerMs);
    if offset <= 0 {
      return next(now);
    }
    var off := offset * MS;
    var cursor := now - off;
    var attempt := 0;
    while attempt < MAX_ATTEMPTS
      invariant 0 <= attempt <= MAX_ATTEMPTS
      invariant Attempts(next, off, now, cursor, MAX_ATTEMPTS - attempt) == StaggeredNext(next, hash, staggerMs, now)
    {
      var baseNext := next(cursor);
      if baseNext.None? {
        return None;
      }
      var shifted := baseNext.value + off;
      if shifted > now {
        return Some(shifted);
      }
      cursor := baseNext.value + MS;
      attempt := attempt + 1;
    }
    return None;
  }

  /** The fires of a schedule moved later by off. */
  function Shifted(fires: int -> bool, off: int): int -> bool {
    (x: int) => fires(x - off)
  }

  /** The staggered schedule is the base schedule shifted by an offset in [0, stagger): the
      first attempt of the loop already decides. */
  lemma StaggerShiftsSchedule(next: NextFn, fires: int -> bool, lo: int, hash: nat, staggerMs: int, now: int)
    requires LeastAfter(next, fires, lo) && lo <= now - StaggerOffsetMs(hash, staggerMs) * MS
    ensures var off := StaggerOffsetMs(hash, staggerMs) * MS;
            IsLeastAfter(StaggeredNext(next, hash, staggerMs, now), Shifted(fires, off), now)
            && StaggeredNext(next, hash, staggerMs, now)
               == (match next(now - off) case None => None case Some(base) => Some(base + off))
  {
    var off := StaggerOffsetMs(hash, staggerMs) * MS;
    assert IsLeastAfter(next(now - off), fires, now - off);
    var r := StaggeredNext(next, hash, staggerMs, now);
    if off == 0 { assert IsLeastAfter(next(now), fires, now); }
    forall x | now < x && (r.Some? ==> x < r.value) ensures !Shifted(fires, off)(x) {
      assert now - off < x - off;
    }
  }

  /** Asking for the next instant k times over, each time from the last answer. */
  function Iterate(next: NextFn, t: int, k: nat): Option<int> {
    if k == 0 then Some(t)
    else
      match Iterate(next, t, k - 1)
      case None => None
      case Some(u) => next(u)
  }

  lemma {:induction false} IterateFront(next: NextFn, t: int, k: nat)
    requires k > 0
    ensures next(t).None? ==> Iterate(next, t, k) == None
    ensures next(t).Some? ==> Iterate(next, t, k) == Iterate(next, next(t).value, k - 1)
  {
    if k > 1 { IterateFront(next, t, k - 1); }
  }

  /** Iterating a least-fire-after function visits every later fire, in order and once. */
  lemma {:induction false} IterationMissesNothing(next: NextFn, fires: int -> bool, lo: int, t: int, f: int)
    returns (k: nat)
    requires LeastAfter(next, fires, lo) && fires(f) && lo <= t < f
    ensures k > 0 && Iterate(next, t, k) == Some(f)
    decreases f - t
  {
    assert IsLeastAfter(next(t), fires, t);
    var n := next(t).value;
    if n == f {
      k := 1;
      IterateFront(next, t, 1);
    } else {
      k := IterationMissesNothing(next, fires, lo, n, f);
      k := k + 1;
      IterateFront(next, t, k);
    }
  }

  lemma {:induction false} IterationAscends(next: NextFn, fires: int -> bool, lo: int, t: int, j: nat, k: nat)
    requires LeastAfter(next, fires, lo) && lo <= t && j < k && Iterate(next, t, k).Some?
    ensures Iterate(next, t, j).Some? && Iterate(next, t, j).value < Iterate(next, t, k).value
    ensures fires(Iterate(next, t, k).value)
    decreases k
  {
    var u := Iterate(next, t, k - 1);
    if k > 1 { IterationAscends(next, fires, lo, t, 0, k - 1); }
    assert IsLeastAfter(next(u.value), fires, u.value);
    if j < k - 1 { IterationAscends(next, fires, lo, t, j, k - 1); }
  }

  function Staggered(next: NextFn, hash: nat, staggerMs: int): NextFn {
    (t: int) => StaggeredNext(next, hash, staggerMs, t)
  }

  lemma StaggeredIsLeastAfter(next: NextFn, fires: int -> bool, lo: int, hash: nat, staggerMs: int)
    requires LeastAfter(next, fires, lo)
    ensures var off := StaggerOffsetMs(hash, staggerMs) * MS;
            LeastAfter(Staggered(next, hash, staggerMs), Shifted(fires, off), lo + off)
  {
    var off := StaggerOffsetMs(hash, staggerMs) * MS;
    forall t | lo + off <= t ensures IsLeastAfter(Staggered(next, hash, staggerMs)(t), Shifted(fires, off), t) {
      StaggerShiftsSchedule(next, fires, lo, hash, staggerMs, t);
    }
  }

  /** Iterating the staggered schedule from any instant reaches every shifted fire after it. */
  lemma StaggeredIterationSkipsNone(next: NextFn, fires: int -> bool, lo: int, hash: nat, staggerMs: int,
                                    t: int, f: int)
    returns (k: nat)
    requires LeastAfter(next, fires, lo) && fires(f)
    requires var off := StaggerOffsetMs(hash, staggerMs) * MS; lo + off <= t < f + off
    ensures k > 0
    ensures Iterate(Staggered(next, hash, staggerMs), t, k) == Some(f + StaggerOffsetMs(hash, staggerMs) * MS)
  {
    var off := StaggerOffsetMs(hash, staggerMs) * MS;
    StaggeredIsLeastAfter(next, fires, lo, hash, staggerMs);
    k := IterationMissesNothing(Staggered(next, hash, staggerMs), Shifted(fires, off), lo + off, t, f + off);
  }

  /** And it visits nothing else, each instant once and in ascending order. */
  lemma StaggeredIterationRepeatsNone(next: NextFn, fires: int -> bool, lo: int, hash: nat, staggerMs: int,
                                      t: int, j: nat, k: nat)
    requires LeastAfter(next, fires, lo) && lo + StaggerOffsetMs(hash, staggerMs) * MS <= t
    requires j < k && Iterate(Staggered(next, hash, staggerMs), t, k).Some?
    ensures var it := (n: nat) => Iterate(Staggered(next, hash, staggerMs), t, n);
            it(j).Some? && it(j).value < it(k).value
            && fires(it(k).value - StaggerOffsetMs(hash, staggerMs) * MS)
  {
    var off := StaggerOffsetMs(hash, staggerMs) * MS;
    StaggeredIsLeastAfter(next, fires, lo, hash, staggerMs);
    IterationAscends(Staggered(next, hash, staggerMs), Shifted(fires, off), lo + off, t, j, k);
  }

  /** For the code's own cron schedule, fallbacks included, over a library that keeps its contract:
      from any time at or after the offset, the staggered job runs at exactly the expression's
      fires moved by the offset, and reaches every one of them. */
  lemma StaggeredCronIsExact(library: int -> int, fires: int -> bool, zero: int, hash: nat, staggerMs: int,
                             t: int, f: int)
    returns (k: nat)
    requires LibraryContract(library, fires, zero) && zero <= 0 && fires(f)
    requires var off := StaggerOffsetMs(hash, staggerMs) * MS; off <= t < f + off
    ensures var off := StaggerOffsetMs(hash, staggerMs) * MS;
            var next := Staggered(Cronned(library), hash, staggerMs);
            IsLeastAfter(next(t), Shifted(fires, off), t) && k > 0 && Iterate(next, t, k) == Some(f + off)
  {
    CronIsLeastAfter(library, fires, zero);
    StaggerShiftsSchedule(Cronned(library), fires, 0, hash, staggerMs, t);
    k := StaggeredIterationSkipsNone(Cronned(library), fires, 0, hash, staggerMs, t, f);
  }

  // ---------------------------------------------------------------- a job's next instant

  /** A parsed schedule: None stands for a missing or malformed time or expression. */
  datatype Schedule =
    | At(instant: Option<int>)
    | Every(everyMs: int, anchorMs: int)
    | Cron(plain: NextFn, staggerMs: int, hash: nat)

  /** ComputeJobNextInstant. */
  function ComputeNext(s: Schedule, now: int): Option<int> {
    match s
    case At(t) => if t.Some? && t.value > now then t else None
    case Every(e, anchor) => if e < 1 then None else Some(EveryNextMs(e, anchor, UnixMilli(now)) * MS)
    case Cron(plain, stagger, hash) => if stagger > 1 then StaggeredNext(plain, hash, stagger, now) else plain(now)
  }

  lemma {:induction false} AttemptsAdvance(next: NextFn, off: int, now: int, cursor: int, left: nat)
    ensures Attempts(next, off, now, cursor, left).Some? ==> Attempts(next, off, now, cursor, left).value > now
    decreases left
  {
    if left > 0 && next(cursor).Some? { AttemptsAdvance(next, off, now, next(cursor).value + MS, left - 1); }
  }

  /** The next instant of a recurring job is never before now, and of a cron job always after. */
  lemma NextIsNotBefore(s: Schedule, now: int)
    requires !s.At? && ComputeNext(s, now).Some?
    requires s.Cron? ==> Advances(s.plain)
    ensures UnixMilli(ComputeNext(s, now).value) >= UnixMilli(now)
    ensures s.Cron? ==> ComputeNext(s, now).value > now
  {
    match s
    case Every(e, anchor) =>
      EveryIsLeastGridPoint(e, anchor, UnixMilli(now));
      assert UnixMilli(EveryNextMs(e, anchor, UnixMilli(now)) * MS) == EveryNextMs(e, anchor, UnixMilli(now));
    case Cron(plain, stagger, hash) =>
      var off := StaggerOffsetMs(hash, stagger) * MS;
      AttemptsAdvance(plain, off, now, now - off, MAX_ATTEMPTS);
  }

  /** The offset of a job: its hash modulo the stagger, in milliseconds, if it has a stagger. */
  function Offset(hash: nat, staggerMs: int): int {
    if staggerMs > 1 then hash % staggerMs * 1_000_000 else 0
  }

  /** A cron job's next instant is the least one after now of its expression's fires moved by its
      offset. */
  lemma CronJobNext(plain: NextFn, fires: int -> bool, lo: int, hash: nat, staggerMs: int, now: int)
    requires LeastAfter(plain, fires, lo) && lo <= now - Offset(hash, staggerMs)
    ensures IsLeastAfter(ComputeNext(Cron(plain, staggerMs, hash), now), Shifted(fires, Offset(hash, staggerMs)), now)
  {
    var off := StaggerOffsetMs(hash, staggerMs) * MS;
    assert off == Offset(hash, staggerMs);
    StaggerShiftsSchedule(plain, fires, lo, hash, staggerMs, now);
    if staggerMs <= 1 {
      assert IsLeastAfter(plain(now), fires, now);
      assert forall x :: Shifted(fires, 0)(x) == fires(x);
    }
  }

  /** A one-shot job's is its time while that lies ahead; an "every" job's is on its grid, and there
      is none for a period below a millisecond. */
  lemma OtherJobsNext(instant: Option<int>, everyMs: int, anchorMs: int, now: int)
    ensures ComputeNext(At(instant), now) == if instant.Some? && instant.value > now then instant else None
    ensures everyMs < 1 ==> ComputeNext(Every(everyMs, anchorMs), now) == None
    ensures everyMs >= 1 ==>
              ComputeNext(Every(everyMs, anchorMs), now).Some?
              && ComputeNext(Every(everyMs, anchorMs), now).value
                 == EveryNextMs(everyMs, anchorMs, now / 1_000_000) * 1_000_000
  {
  }
}
