/**
The two programs at the ends of a live link: the connection handler of internal/gateway/live.go
and the reader loop of cmd/navi/main.go, each refining the steps of LiveStream.
 */
module LiveConnection {

  import opened Wrappers
  import opened EventLog
  import opened LiveStream

  datatype Connect = Connect(afterSeq: int, replay: Option<bool>)

  /** chatMaxSeq. */
  function ChatMaxSeq(log: seq<Event>, q: Query): int {
    if log == [] then 0
    else
      var m, e := ChatMaxSeq(log[..|log| - 1], q), log[|log| - 1];
      if Matches(q, e) && e.num > m then e.num else m
  }

  function StartCursor(log: seq<Event>, q: Query, connect: Connect): int {
    if connect.replay == Some(false) then ChatMaxSeq(log, q) else connect.afterSeq
  }

  function FramesOf(events: seq<Event>): seq<Frame> {
    seq(|events|, i requires 0 <= i < |events| => EventFrame(events[i]))
  }

  class Handler {
    const q: Query
    var cursor: int
    var frames: seq<Frame> // written

    /** The handler up to its first replay. */
    constructor (q: Query, log: seq<Event>, connect: Connect)
      ensures this.q == q && cursor == StartCursor(log, q, connect) && frames == [Other]
    {
      this.q := q;
      var at := connect.afterSeq;
      if connect.replay.Some? && !connect.replay.value {
        at := ChatMaxSeq(log, q);
      }
      cursor := at;
      frames := [Other];
    }

    /** replayLiveEvents when the link takes only the next `writes` frames. */
    method ReplayLiveEvents(log: seq<Event>, writes: nat) returns (ok: bool)
      modifies this
      ensures var batch := Batch(log, q, old(cursor));
              var n := if writes < |batch| then writes else |batch|;
              frames == old(frames) + FramesOf(batch[..n])
              && cursor == (if n == 0 then old(cursor) else batch[n - 1].num)
              && (ok <==> n == |batch|)
    {
      var events := Batch(log, q, cursor);
      for i := 0 to |events|
        invariant i <= writes && frames == old(frames) + FramesOf(events[..i])
        invariant cursor == if i == 0 then old(cursor) else events[i - 1].num
      {
        if i == writes {
          return false;
        }
        frames := frames + [EventFrame(events[i])];
        cursor := events[i].num;
      }
      assert events[..|events|] == events;
      return true;
    }
  }

  /** n of the protocol's Write steps. */
  function Writes(link: Link, n: nat): Link
    requires link.server.Streaming? && n <= |link.server.batch|
    decreases n
  {
    if n == 0 then link else Writes(DoWrite(link), n - 1)
  }

  /** What the handler's loop does is the protocol's Fetch followed by Write steps. */
  lemma {:induction false} ReplayIsWrites(link: Link, n: nat)
    requires link.server.Streaming? && n <= |link.server.batch|
    ensures var batch := link.server.batch;
            Writes(link, n)
            == Link(Streaming(if n == 0 then link.server.cursor else batch[n - 1].num, batch[n..]),
                    link.frames + FramesOf(batch[..n]))
    decreases n
  {
    var batch := link.server.batch;
    if n == 0 {
      assert link.frames + FramesOf(batch[..0]) == link.frames;
    } else {
      ReplayIsWrites(DoWrite(link), n - 1);
      assert batch[1..][n - 1..] == batch[n..];
      assert [EventFrame(batch[0])] + FramesOf(batch[1..][..n - 1]) == FramesOf(batch[..n]);
    }
  }

  /** A connection that asks for no replay is sent exactly the matching events stored after it
      connected; any other is sent those after the seq it gave. */
  lemma {:induction false} NoReplayStartsNow(log: seq<Event>, later: seq<Event>, q: Query, connect: Connect)
    requires Ascending(log + later) && forall e :: e in log + later ==> e.num > 0
    ensures forall e :: e in Select(log + later, q, StartCursor(log, q, connect)) <==>
                          Matches(q, e) && if connect.replay == Some(false) then e in later
                                           else e in log + later && e.num > connect.afterSeq
  {
    SelectIsExact(log + later, q, StartCursor(log, q, connect));
    ChatMaxSeqBounds(log, q);
    forall e, f | e in log && f in later ensures e.num < f.num {
      var i :| 0 <= i < |log| && log[i] == e;
      var j :| 0 <= j < |later| && later[j] == f;
      assert (log + later)[i] == e && (log + later)[|log| + j] == f;
    }
  }

  lemma {:induction false} ChatMaxSeqBounds(log: seq<Event>, q: Query)
    ensures var m := ChatMaxSeq(log, q);
            (forall e :: e in log && Matches(q, e) ==> e.num <= m) && (m == 0 || exists e :: e in log && e.num == m)
  {
    if log != [] {
      var g, last := log[..|log| - 1], log[|log| - 1];
      ChatMaxSeqBounds(g, q);
      assert log == g + [last];
    }
  }

  // ---------------------------------------------------------------- the reader

  const BACKOFF_INITIAL_MS: nat := 1_000
  const BACKOFF_MAX_MS: nat := 30_000

  class LiveReader {
    var lastSeq: int
    var received: seq<Event>
    var backoffMs: nat

    /** Waits double from one second and stop at 32 s, the first value not below the maximum. */
    predicate BackoffOk()
      reads this
    {
      backoffMs in {1_000, 2_000, 4_000, 8_000, 16_000, 32_000}
    }

    constructor ()
      ensures BackoffOk() && backoffMs == BACKOFF_INITIAL_MS && Reader(lastSeq, received) == Reader(0, [])
    {
      lastSeq, received, backoffMs := 0, [], BACKOFF_INITIAL_MS;
    }

    method DialFailed() returns (waitMs: nat)
      requires BackoffOk()
      modifies this`backoffMs
      ensures BackoffOk() && waitMs == old(backoffMs)
      ensures backoffMs == if waitMs < BACKOFF_MAX_MS then 2 * waitMs else waitMs
    {
      waitMs := backoffMs;
      if backoffMs < BACKOFF_MAX_MS {
        backoffMs := backoffMs * 2;
      }
    }

    /** A dial that succeeds asks for everything after the last seq seen. */
    method DialSucceeded() returns (connect: Connect)
      modifies this`backoffMs
      ensures BackoffOk() && backoffMs == BACKOFF_INITIAL_MS && connect == Connect(lastSeq, None)
    {
      backoffMs := BACKOFF_INITIAL_MS;
      connect := Connect(lastSeq, None);
    }

    method OnFrame(frame: Frame)
      modifies this`lastSeq, this`received
      ensures Reader(lastSeq, received) == Take(old(Reader(lastSeq, received)), frame)
    {
      if frame.EventFrame? {
        if frame.ev.num > 0 {
          lastSeq := frame.ev.num;
        }
        received := received + [frame.ev];
      }
    }
  }
}
