/**
The live event stream between internal/gateway/live.go and the reader of cmd/navi/main.go.

The server reads the log in batches and writes one frame at a time; the reader remembers the
last seq it saw and sends it when it reconnects. A link can be cut at any step, and the frames
on it are lost. Appends to any chat, and retention runs, happen between any two steps.
 */
module LiveStream {

  import opened Wrappers
  import opened EventLog

  /** Other stands for responses and presence frames. */
  datatype Frame = EventFrame(ev: Event) | Other

  datatype Serving =
    | Asked(afterSeq: int)
    | Streaming(cursor: int, batch: seq<Event>) // batch: fetched and not yet written

  datatype Link = Link(server: Serving, frames: seq<Frame>)

  datatype Reader = Reader(lastSeq: int, received: seq<Event>)

  /** history is every row ever stored, pruned the seqs of those deleted. */
  datatype System = System(log: seq<Event>, history: seq<Event>, pruned: set<int>, link: Option<Link>, reader: Reader)

  datatype Step =
    | Store(id: string, chat: string, visibility: Visibility)
    | Retain(gone: set<int>)
    | Dial
    | Accept
    | Fetch
    | Write
    | WriteOther
    | Deliver
    | Cut

  function Init(start: int): System {
    System([], [], {}, None, Reader(start, []))
  }

  predicate Enabled(s: System, step: Step) {
    match step
    case Store(_, _, _) => true
    case Retain(_) => true
    case Dial => s.link.None?
    case Accept => s.link.Some? && s.link.value.server.Asked?
    case Fetch => s.link.Some? && s.link.value.server.Streaming? && s.link.value.server.batch == []
    case Write => s.link.Some? && s.link.value.server.Streaming? && s.link.value.server.batch != []
    case WriteOther => s.link.Some? && s.link.value.server.Streaming? && s.link.value.server.batch == []
    case Deliver => s.link.Some? && s.link.value.frames != []
    case Cut => s.link.Some?
  }

  /** The reader takes one frame. */
  function Take(r: Reader, f: Frame): Reader {
    match f
    case Other => r
    case EventFrame(ev) => Reader(if ev.num > 0 then ev.num else r.lastSeq, r.received + [ev])
  }

  function DoStore(s: System, id: string, chat: string, visibility: Visibility): System {
    var log := Append(s.log, id, chat, visibility);
    s.(log := log, history := if log == s.log then s.history else s.history + [log[|log| - 1]])
  }

  function RemovedBy(log: seq<Event>, gone: set<int>): set<int> {
    set e | e in log && e.num in gone :: e.num
  }

  function DoRetain(s: System, gone: set<int>): System {
    s.(log := Prune(s.log, gone), pruned := s.pruned + RemovedBy(s.log, gone))
  }

  function DoWrite(link: Link): Link
    requires link.server.Streaming? && link.server.batch != []
  {
    var ev := link.server.batch[0];
    Link(Streaming(ev.num, link.server.batch[1..]), link.frames + [EventFrame(ev)])
  }

  function Do(q: Query, s: System, step: Step): System
    requires Enabled(s, step)
  {
    match step
    case Store(id, chat, visibility) => DoStore(s, id, chat, visibility)
    case Retain(gone) => DoRetain(s, gone)
    case Dial => s.(link := Some(Link(Asked(s.reader.lastSeq), [])))
    case Accept =>
      s.(link := Some(Link(Streaming(s.link.value.server.afterSeq, []), [Other])))
    case Fetch =>
      var cursor := s.link.value.server.cursor;
      s.(link := Some(Link(Streaming(cursor, Batch(s.log, q, cursor)), s.link.value.frames)))
    case Write => s.(link := Some(DoWrite(s.link.value)))
    case WriteOther => s.(link := Some(s.link.value.(frames := s.link.value.frames + [Other])))
    case Deliver =>
      var frames := s.link.value.frames;
      s.(reader := Take(s.reader, frames[0]), link := Some(s.link.value.(frames := frames[1..])))
    case Cut => s.(link := None)
  }

  /** A run onwards from a state. */
  predicate CanDo(q: Query, s: System, steps: seq<Step>)
    decreases |steps|
  {
    steps == [] || (Enabled(s, steps[0]) && CanDo(q, Do(q, s, steps[0]), steps[1..]))
  }

  function DoAll(q: Query, s: System, steps: seq<Step>): System
    requires CanDo(q, s, steps)
    decreases |steps|
  {
    if steps == [] then s else DoAll(q, Do(q, s, steps[0]), steps[1..])
  }

  predicate IsRun(q: Query, start: int, steps: seq<Step>) {
    CanDo(q, Init(start), steps)
  }

  function After(q: Query, start: int, steps: seq<Step>): System
    requires IsRun(q, start, steps)
  {
    DoAll(q, Init(start), steps)
  }

  /** A retention query that leaves the newest row, see PruneKeepsNumberingIff; any other step. */
  predicate KeepsNewest(s: System, step: Step) {
    step.Retain? ==> MaxSeq(Prune(s.log, step.gone)) == MaxSeq(s.log)
  }

  /** A run onwards all of whose retention queries leave the newest row. */
  predicate Careful(q: Query, s: System, steps: seq<Step>)
    requires CanDo(q, s, steps)
    decreases |steps|
  {
    steps == [] || (KeepsNewest(s, steps[0]) && Careful(q, Do(q, s, steps[0]), steps[1..]))
  }

  // ---------------------------------------------------------------- what is owed to a reader

  /** The query's events with a < seq <= b, in seq order. */
  function Between(log: seq<Event>, q: Query, a: int, b: int): seq<Event> {
    if log == [] then []
    else
      var e := log[|log| - 1];
      Between(log[..|log| - 1], q, a, b) + if Matches(q, e) && a < e.num <= b then [e] else []
  }

  predicate Owed(q: Query, e: Event, a: int, b: int) {
    Matches(q, e) && a < e.num <= b
  }

  lemma {:induction false} BetweenIsExact(log: seq<Event>, q: Query, a: int, b: int)
    requires Ascending(log)
    ensures Ascending(Between(log, q, a, b))
    ensures forall e :: e in Between(log, q, a, b) <==> e in log && Owed(q, e, a, b)
  {
    if log != [] {
      var g, last := log[..|log| - 1], log[|log| - 1];
      BetweenIsExact(g, q, a, b);
      assert log == g + [last];
      assert forall e :: e in g ==> e.num < last.num;
    }
  }

  /** part is in order, holds only events owed from a to b, and lacks only pruned ones. */
  predicate Covers(h: seq<Event>, pruned: set<int>, q: Query, part: seq<Event>, a: int, b: int) {
    Ascending(part)
    && (forall e :: e in part ==> e in h && Owed(q, e, a, b))
    && (forall e :: e in h && Owed(q, e, a, b) ==> e in part || e.num in pruned)
  }

  lemma CoversConcat(h: seq<Event>, pruned: set<int>, q: Query, x: seq<Event>, y: seq<Event>, a: int, b: int, c: int)
    requires a <= b <= c && Covers(h, pruned, q, x, a, b) && Covers(h, pruned, q, y, b, c)
    ensures Covers(h, pruned, q, x + y, a, c)
  {
    forall i, j | 0 <= i < j < |x + y| ensures (x + y)[i].num < (x + y)[j].num {
      if i < |x| <= j { assert x[i] in x && y[j - |x|] in y; }
    }
    forall e | e in h && Owed(q, e, a, c) ensures e in x + y || e.num in pruned {
      assert Owed(q, e, a, b) || Owed(q, e, b, c);
    }
  }

  /** Cutting a covering part after its first event. */
  lemma CoversUncons(h: seq<Event>, pruned: set<int>, q: Query, x: seq<Event>, a: int, b: int)
    requires x != [] && Covers(h, pruned, q, x, a, b)
    ensures Covers(h, pruned, q, [x[0]], a, x[0].num) && Covers(h, pruned, q, x[1..], x[0].num, b)
    ensures x[0] in x && a < x[0].num <= b
  {
    assert x == [x[0]] + x[1..];
    forall e | e in x[1..] ensures e in x && e.num > x[0].num {}
    forall e | e in h && Owed(q, e, a, x[0].num) ensures e in [x[0]] || e.num in pruned {
      assert Owed(q, e, a, b);
    }
    forall e | e in h && Owed(q, e, x[0].num, b) ensures e in x[1..] || e.num in pruned {
      assert Owed(q, e, a, b);
    }
  }

  lemma CoversLater(h: seq<Event>, pruned: set<int>, q: Query, part: seq<Event>, a: int, b: int,
                    e: Event, more: set<int>)
    requires Covers(h, pruned, q, part, a, b) && (e.num > b || a >= b)
    ensures Covers(h + [e], pruned, q, part, a, b) && Covers(h, pruned + more, q, part, a, b)
  {
    forall x | x in h + [e] && Owed(q, x, a, b) ensures x in part || x.num in pruned {
      assert x in h;
    }
  }

  // ---------------------------------------------------------------- the invariant

  function EventsOf(frames: seq<Frame>): seq<Event> {
    if frames == [] then []
    else EventsOf(frames[..|frames| - 1]) + if frames[|frames| - 1].Other? then [] else [frames[|frames| - 1].ev]
  }

  lemma {:induction false} EventsOfCons(f: Frame, rest: seq<Frame>)
    ensures EventsOf([f] + rest) == EventsOf([f]) + EventsOf(rest)
    decreases |rest|
  {
    if rest == [] {
      assert [f] + rest == [f];
    } else {
      var front := rest[..|rest| - 1];
      EventsOfCons(f, front);
      assert [f] + rest == ([f] + front) + [rest[|rest| - 1]] && rest == front + [rest[|rest| - 1]];
      EventsOfLast([f] + front, rest[|rest| - 1]);
      EventsOfLast(front, rest[|rest| - 1]);
    }
  }

  lemma EventsOfFirst(frames: seq<Frame>)
    requires frames != []
    ensures EventsOf(frames) == EventsOf([frames[0]]) + EventsOf(frames[1..])
  {
    assert frames == [frames[0]] + frames[1..];
    EventsOfCons(frames[0], frames[1..]);
  }

  lemma EventsOfOne(f: Frame)
    ensures EventsOf([f]) == if f.Other? then [] else [f.ev]
  {
    assert [f][..0] == [];
  }

  lemma EventsOfLast(frames: seq<Frame>, f: Frame)
    ensures EventsOf(frames + [f]) == EventsOf(frames) + if f.Other? then [] else [f.ev]
  {
    assert (frames + [f])[..|frames|] == frames;
  }

  ghost predicate LogOk(log: seq<Event>, h: seq<Event>, pruned: set<int>) {
    Ascending(h) && Ascending(log) && MaxSeq(log) == MaxSeq(h)
    && (forall e :: e in h ==> e.num >= 1)
    && (forall e :: e in log <==> e in h && e.num !in pruned)
    && (forall n :: n in pruned ==> n <= MaxSeq(h))
  }

  /** A position a cursor can have: where the reader started, or the seq of a stored row. */
  predicate Reached(h: seq<Event>, start: int, n: int) {
    start <= n && (n == start || n <= MaxSeq(h))
  }

  predicate BatchOk(h: seq<Event>, pruned: set<int>, q: Query, batch: seq<Event>, cursor: int) {
    batch == [] || (batch[|batch| - 1].num <= MaxSeq(h) && Covers(h, pruned, q, batch, cursor, batch[|batch| - 1].num))
  }

  predicate LinkOk(h: seq<Event>, pruned: set<int>, q: Query, start: int, link: Link, lastSeq: int) {
    match link.server
    case Asked(after) => after == lastSeq && link.frames == []
    case Streaming(cursor, batch) =>
      lastSeq <= cursor && Reached(h, start, cursor)
      && Covers(h, pruned, q, EventsOf(link.frames), lastSeq, cursor)
      && BatchOk(h, pruned, q, batch, cursor)
  }

  predicate ReaderOk(h: seq<Event>, pruned: set<int>, q: Query, start: int, r: Reader) {
    Reached(h, start, r.lastSeq) && Covers(h, pruned, q, r.received, start, r.lastSeq)
  }

  ghost predicate Inv(q: Query, start: int, s: System) {
    LogOk(s.log, s.history, s.pruned)
    && ReaderOk(s.history, s.pruned, q, start, s.reader)
    && (s.link.Some? ==> LinkOk(s.history, s.pruned, q, start, s.link.value, s.reader.lastSeq))
  }

  // ---------------------------------------------------------------- every step keeps it

  lemma StoreAdds(s: System, id: string, chat: string, visibility: Visibility) returns (e: Event)
    requires LogOk(s.log, s.history, s.pruned) && !HasId(s.log, id)
    ensures e.num == MaxSeq(s.history) + 1
    ensures DoStore(s, id, chat, visibility) == s.(log := s.log + [e], history := s.history + [e])
    ensures MaxSeq(s.history + [e]) == MaxSeq(s.log + [e]) == e.num
  {
    e := Event(id, chat, visibility, MaxSeq(s.log) + 1);
    assert (s.log + [e])[..|s.log|] == s.log && (s.history + [e])[..|s.history|] == s.history;
  }

  lemma AscendingSnoc(s: seq<Event>, e: Event)
    requires Ascending(s) && forall x :: x in s ==> x.num < e.num
    ensures Ascending(s + [e])
  {
    forall i | 0 <= i < |s| ensures s[i].num < e.num { assert s[i] in s; }
  }

  lemma StoreKeepsLog(log: seq<Event>, h: seq<Event>, pruned: set<int>, e: Event)
    requires LogOk(log, h, pruned) && e.num == MaxSeq(h) + 1 == MaxSeq(h + [e]) == MaxSeq(log + [e])
    ensures LogOk(log + [e], h + [e], pruned)
  {
    MaxSeqBounds(log);
    MaxSeqBounds(h);
    AscendingSnoc(log, e);
    AscendingSnoc(h, e);
  }

  lemma LaterKeepsReader(h: seq<Event>, pruned: set<int>, q: Query, start: int, r: Reader, e: Event, more: set<int>)
    requires ReaderOk(h, pruned, q, start, r) && e.num == MaxSeq(h) + 1 == MaxSeq(h + [e])
    ensures ReaderOk(h + [e], pruned, q, start, r) && ReaderOk(h, pruned + more, q, start, r)
  {
    CoversLater(h, pruned, q, r.received, start, r.lastSeq, e, more);
  }

  lemma LaterKeepsLink(h: seq<Event>, pruned: set<int>, q: Query, start: int, link: Link, lastSeq: int,
                       e: Event, more: set<int>)
    requires LinkOk(h, pruned, q, start, link, lastSeq) && start <= lastSeq && e.num == MaxSeq(h) + 1 == MaxSeq(h + [e])
    ensures LinkOk(h + [e], pruned, q, start, link, lastSeq) && LinkOk(h, pruned + more, q, start, link, lastSeq)
  {
    if link.server.Streaming? {
      var cursor, batch := link.server.cursor, link.server.batch;
      CoversLater(h, pruned, q, EventsOf(link.frames), lastSeq, cursor, e, more);
      if batch != [] {
        CoversLater(h, pruned, q, batch, cursor, batch[|batch| - 1].num, e, more);
      }
    }
  }

  lemma StoreKeeps(q: Query, start: int, s: System, id: string, chat: string, visibility: Visibility)
    requires Inv(q, start, s)
    ensures Inv(q, start, DoStore(s, id, chat, visibility))
  {
    if !HasId(s.log, id) {
      var e := StoreAdds(s, id, chat, visibility);
      StoreKeepsLog(s.log, s.history, s.pruned, e);
      LaterKeepsReader(s.history, s.pruned, q, start, s.reader, e, {});
      if s.link.Some? {
        LaterKeepsLink(s.history, s.pruned, q, start, s.link.value, s.reader.lastSeq, e, {});
      }
    }
  }

  lemma RetainKeepsLog(log: seq<Event>, h: seq<Event>, pruned: set<int>, gone: set<int>)
    requires LogOk(log, h, pruned) && MaxSeq(Prune(log, gone)) == MaxSeq(log)
    ensures LogOk(Prune(log, gone), h, pruned + RemovedBy(log, gone))
  {
    PruneIsExact(log, gone);
    MaxSeqBounds(log);
    forall e ensures e in Prune(log, gone) <==> e in h && e.num !in pruned + RemovedBy(log, gone) {
      if e in h && e.num !in pruned && e.num !in RemovedBy(log, gone) { assert e in log && e.num !in gone; }
      if e in Prune(log, gone) && e.num in RemovedBy(log, gone) { assert false; }
    }
  }

  lemma RetainKeeps(q: Query, start: int, s: System, gone: set<int>)
    requires Inv(q, start, s) && KeepsNewest(s, Retain(gone))
    ensures Inv(q, start, DoRetain(s, gone))
  {
    var more := RemovedBy(s.log, gone);
    var e := Event("", "", User, MaxSeq(s.history) + 1);
    assert (s.history + [e])[..|s.history|] == s.history;
    RetainKeepsLog(s.log, s.history, s.pruned, gone);
    LaterKeepsReader(s.history, s.pruned, q, start, s.reader, e, more);
    if s.link.Some? {
      LaterKeepsLink(s.history, s.pruned, q, start, s.link.value, s.reader.lastSeq, e, more);
    }
  }

  lemma InPrefix(all: seq<Event>, n: nat, e: Event)
    requires Ascending(all) && 0 < n <= |all| && e in all && e.num <= all[n - 1].num
    ensures e in all[..n]
  {
    var i :| 0 <= i < |all| && all[i] == e;
    assert i < n && all[..n][i] == e;
  }

  /** A fetched batch covers the rows from the cursor to its last one. */
  lemma BatchCovers(log: seq<Event>, h: seq<Event>, pruned: set<int>, q: Query, cursor: int)
    requires LogOk(log, h, pruned)
    ensures BatchOk(h, pruned, q, Batch(log, q, cursor), cursor)
  {
    var all, batch := Select(log, q, cursor), Batch(log, q, cursor);
    SelectIsExact(log, q, cursor);
    assert batch == all[..|batch|];
    if batch != [] {
      MaxSeqBounds(h);
      assert batch[|batch| - 1] in all;
      PrefixCovers(log, h, pruned, q, all, |batch|, cursor);
    }
  }

  lemma PrefixCovers(log: seq<Event>, h: seq<Event>, pruned: set<int>, q: Query, all: seq<Event>, n: nat, cursor: int)
    requires 0 < n <= |all| && Ascending(all)
    requires forall e :: e in log <==> e in h && e.num !in pruned
    requires forall e :: e in all <==> e in log && Matches(q, e) && e.num > cursor
    ensures Covers(h, pruned, q, all[..n], cursor, all[n - 1].num)
  {
    var part, last := all[..n], all[n - 1];
    forall e | e in part ensures e in h && Owed(q, e, cursor, last.num) {
      assert e in all && e in log;
    }
    forall e | e in h && Owed(q, e, cursor, last.num) ensures e in part || e.num in pruned {
      if e.num !in pruned {
        assert e in all;
        InPrefix(all, n, e);
      }
    }
  }

  lemma FetchKeeps(q: Query, start: int, s: System)
    requires Inv(q, start, s) && Enabled(s, Fetch)
    ensures Inv(q, start, Do(q, s, Fetch))
  {
    BatchCovers(s.log, s.history, s.pruned, q, s.link.value.server.cursor);
  }

  lemma WriteKeepsLink(h: seq<Event>, pruned: set<int>, q: Query, start: int, link: Link, lastSeq: int)
    requires link.server.Streaming? && link.server.batch != [] && LinkOk(h, pruned, q, start, link, lastSeq)
    ensures LinkOk(h, pruned, q, start, DoWrite(link), lastSeq)
  {
    var cursor, batch := link.server.cursor, link.server.batch;
    var ev, last := batch[0], batch[|batch| - 1].num;
    CoversUncons(h, pruned, q, batch, cursor, last);
    CoversConcat(h, pruned, q, EventsOf(link.frames), [ev], lastSeq, cursor, ev.num);
    EventsOfLast(link.frames, EventFrame(ev));
  }

  /** Moving the first event owed from the link to the reader. */
  lemma CoversMove(h: seq<Event>, pruned: set<int>, q: Query, got: seq<Event>, coming: seq<Event>,
                   a: int, b: int, c: int)
    requires a <= b && coming != [] && Covers(h, pruned, q, got, a, b) && Covers(h, pruned, q, coming, b, c)
    ensures b < coming[0].num <= c && Covers(h, pruned, q, got + [coming[0]], a, coming[0].num)
    ensures Covers(h, pruned, q, coming[1..], coming[0].num, c)
  {
    CoversUncons(h, pruned, q, coming, b, c);
    CoversConcat(h, pruned, q, got, [coming[0]], a, b, coming[0].num);
  }

  lemma DeliverKeepsBoth(h: seq<Event>, pruned: set<int>, q: Query, start: int, link: Link, r: Reader)
    requires link.frames != [] && LinkOk(h, pruned, q, start, link, r.lastSeq) && ReaderOk(h, pruned, q, start, r)
    requires forall e :: e in h ==> e.num >= 1
    ensures var t := Take(r, link.frames[0]);
            ReaderOk(h, pruned, q, start, t)
            && LinkOk(h, pruned, q, start, link.(frames := link.frames[1..]), t.lastSeq)
  {
    var events, rest := EventsOf(link.frames), EventsOf(link.frames[1..]);
    EventsOfFirst(link.frames);
    EventsOfOne(link.frames[0]);
    if link.frames[0].EventFrame? {
      assert events[0] == link.frames[0].ev && events[1..] == rest;
      TakeKeeps(h, pruned, q, start, r, events, link.server.cursor);
    } else {
      assert events == rest;
    }
  }

  /** The reader takes the first of the events coming up to the cursor. */
  lemma TakeKeeps(h: seq<Event>, pruned: set<int>, q: Query, start: int, r: Reader, coming: seq<Event>, cursor: int)
    requires ReaderOk(h, pruned, q, start, r) && Reached(h, start, cursor) && forall e :: e in h ==> e.num >= 1
    requires coming != [] && Covers(h, pruned, q, coming, r.lastSeq, cursor)
    ensures var t := Take(r, EventFrame(coming[0]));
            ReaderOk(h, pruned, q, start, t) && t.lastSeq == coming[0].num <= cursor
            && Covers(h, pruned, q, coming[1..], t.lastSeq, cursor)
  {
    CoversMove(h, pruned, q, r.received, coming, start, r.lastSeq, cursor);
    assert coming[0] in coming;
  }

  lemma AcceptKeepsLink(h: seq<Event>, pruned: set<int>, q: Query, start: int, r: Reader)
    requires ReaderOk(h, pruned, q, start, r)
    ensures LinkOk(h, pruned, q, start, Link(Streaming(r.lastSeq, []), [Other]), r.lastSeq)
  {
    EventsOfOne(Other);
  }

  /** A retention query keeps the invariant exactly when it leaves the newest row. */
  lemma RetainKeepsIff(q: Query, start: int, s: System, gone: set<int>)
    requires Inv(q, start, s)
    ensures Inv(q, start, DoRetain(s, gone)) <==> KeepsNewest(s, Retain(gone))
  {
    if KeepsNewest(s, Retain(gone)) { RetainKeeps(q, start, s, gone); }
  }

  lemma StepKeeps(q: Query, start: int, s: System, step: Step)
    requires Inv(q, start, s) && Enabled(s, step) && KeepsNewest(s, step)
    ensures Inv(q, start, Do(q, s, step))
  {
    match step
    case Store(id, chat, visibility) => StoreKeeps(q, start, s, id, chat, visibility);
    case Retain(gone) => RetainKeeps(q, start, s, gone);
    case Dial =>
    case Accept => AcceptKeepsLink(s.history, s.pruned, q, start, s.reader);
    case Fetch => FetchKeeps(q, start, s);
    case Write => WriteKeepsLink(s.history, s.pruned, q, start, s.link.value, s.reader.lastSeq);
    case WriteOther => EventsOfLast(s.link.value.frames, Other);
    case Deliver => DeliverKeepsBoth(s.history, s.pruned, q, start, s.link.value, s.reader);
    case Cut =>
  }

  lemma {:induction false} DoAllKeepsInv(q: Query, start: int, s: System, steps: seq<Step>)
    requires Inv(q, start, s) && CanDo(q, s, steps) && Careful(q, s, steps)
    ensures Inv(q, start, DoAll(q, s, steps))
    decreases |steps|
  {
    if steps != [] {
      StepKeeps(q, start, s, steps[0]);
      DoAllKeepsInv(q, start, Do(q, s, steps[0]), steps[1..]);
    }
  }

  lemma RunKeepsInv(q: Query, start: int, steps: seq<Step>)
    requires IsRun(q, start, steps) && Careful(q, Init(start), steps)
    ensures Inv(q, start, After(q, start, steps))
  {
    DoAllKeepsInv(q, start, Init(start), steps);
  }

  // ---------------------------------------------------------------- the promises

  /** In every run, whatever is cut, lost, stored or pruned: the reader holds, in seq order and
      each once, events of its chat and stream with start < seq <= lastSeq, and lacks none that
      was not pruned; with nothing owed pruned it holds exactly those events. */
  lemma ReceivedIsExact(q: Query, start: int, steps: seq<Step>)
    requires IsRun(q, start, steps) && Careful(q, Init(start), steps)
    ensures var s := After(q, start, steps);
            var owed := Between(s.history, q, start, s.reader.lastSeq);
            Ascending(s.reader.received)
            && (forall e :: e in s.reader.received ==> e in owed)
            && (forall e :: e in owed && e.num !in s.pruned ==> e in s.reader.received)
            && ((forall e :: e in owed ==> e.num !in s.pruned) ==> s.reader.received == owed)
  {
    RunKeepsInv(q, start, steps);
    var s := After(q, start, steps);
    BetweenIsExact(s.history, q, start, s.reader.lastSeq);
    if forall e :: e in Between(s.history, q, start, s.reader.lastSeq) ==> e.num !in s.pruned {
      AscendingUnique(s.reader.received, Between(s.history, q, start, s.reader.lastSeq));
    }
  }

  // ---------------------------------------------------------------- every run, careful or not

  /** part is in order and lies above a, up to b. */
  predicate Within(part: seq<Event>, a: int, b: int) {
    Ascending(part) && forall e :: e in part ==> a < e.num <= b
  }

  predicate Above(part: seq<Event>, a: int) {
    Ascending(part) && forall e :: e in part ==> a < e.num
  }

  /** What even a retention query that removes the newest row leaves intact: rows ascend, and what
      is on its way to the reader lies above what it has seen. */
  predicate Ordered(s: System) {
    Above(s.log, 0)
    && (s.link.Some? ==>
          match s.link.value.server
          case Asked(after) => after == s.reader.lastSeq && s.link.value.frames == []
          case Streaming(cursor, batch) =>
            s.reader.lastSeq <= cursor && Within(EventsOf(s.link.value.frames), s.reader.lastSeq, cursor)
            && Above(batch, cursor) && Above(batch, 0) && Above(EventsOf(s.link.value.frames), 0))
  }

  lemma OrderedStore(log: seq<Event>, id: string, chat: string, visibility: Visibility)
    requires Above(log, 0)
    ensures Above(Append(log, id, chat, visibility), 0)
  {
    AppendAscends(log, id, chat, visibility);
    MaxSeqBounds(log);
  }

  lemma OrderedBatch(log: seq<Event>, q: Query, cursor: int)
    requires Above(log, 0)
    ensures Above(Batch(log, q, cursor), cursor) && Above(Batch(log, q, cursor), 0)
  {
    SelectIsExact(log, q, cursor);
    var all, batch := Select(log, q, cursor), Batch(log, q, cursor);
    assert batch == all[..|batch|];
    assert forall e :: e in batch ==> e in all;
  }

  lemma OrderedWrite(frames: seq<Frame>, batch: seq<Event>, lastSeq: int, cursor: int)
    requires batch != [] && lastSeq <= cursor && Within(EventsOf(frames), lastSeq, cursor)
    requires Above(batch, cursor) && Above(batch, 0) && Above(EventsOf(frames), 0)
    ensures var f := frames + [EventFrame(batch[0])];
            Within(EventsOf(f), lastSeq, batch[0].num) && Above(EventsOf(f), 0)
            && Above(batch[1..], batch[0].num) && Above(batch[1..], 0) && lastSeq <= batch[0].num
  {
    var ev := batch[0];
    assert ev in batch;
    EventsOfLast(frames, EventFrame(ev));
    AscendingSnoc(EventsOf(frames), ev);
    forall e | e in batch[1..] ensures ev.num < e.num && e in batch {}
  }

  lemma WithinTail(x: seq<Event>, a: int, b: int)
    requires x != [] && Within(x, a, b) && Above(x, 0)
    ensures Within(x[1..], x[0].num, b) && Above(x[1..], 0) && a < x[0].num <= b && 0 < x[0].num
  {
    assert x[0] in x;
    forall e | e in x[1..] ensures e in x && x[0].num < e.num {}
  }

  lemma OrderedDeliver(frames: seq<Frame>, r: Reader, cursor: int)
    requires frames != [] && r.lastSeq <= cursor
    requires Within(EventsOf(frames), r.lastSeq, cursor) && Above(EventsOf(frames), 0)
    ensures var t := Take(r, frames[0]);
            r.lastSeq <= t.lastSeq <= cursor && Within(EventsOf(frames[1..]), t.lastSeq, cursor)
            && Above(EventsOf(frames[1..]), 0)
            && (frames[0].EventFrame? ==> t.lastSeq == frames[0].ev.num > r.lastSeq)
  {
    EventsOfFirst(frames);
    EventsOfOne(frames[0]);
    var events, rest := EventsOf(frames), EventsOf(frames[1..]);
    if frames[0].EventFrame? {
      assert events[0] == frames[0].ev && events[1..] == rest;
      WithinTail(events, r.lastSeq, cursor);
    } else {
      assert events == rest;
    }
  }

  lemma OrderedStep(q: Query, s: System, step: Step)
    requires Ordered(s) && Enabled(s, step)
    ensures Ordered(Do(q, s, step))
  {
    match step
    case Store(id, chat, visibility) => OrderedStore(s.log, id, chat, visibility);
    case Retain(gone) => PruneIsExact(s.log, gone);
    case Accept => EventsOfOne(Other);
    case Fetch => OrderedBatch(s.log, q, s.link.value.server.cursor);
    case Write =>
      var l := s.link.value;
      OrderedWrite(l.frames, l.server.batch, s.reader.lastSeq, l.server.cursor);
    case WriteOther => EventsOfLast(s.link.value.frames, Other);
    case Deliver => OrderedDeliver(s.link.value.frames, s.reader, s.link.value.server.cursor);
    case _ =>
  }

  /** What a reader has received is never taken back, and its cursor never moves backwards. And
      what the cursor has passed without it is never received, whatever happens next. */
  lemma {:induction false} ReaderOnlyGrows(q: Query, s: System, steps: seq<Step>)
    requires Ordered(s) && CanDo(q, s, steps)
    ensures var r, t := s.reader, DoAll(q, s, steps).reader;
            r.received <= t.received && r.lastSeq <= t.lastSeq
            && forall e: Event :: e.num <= r.lastSeq && e in t.received ==> e in r.received
    ensures Ordered(DoAll(q, s, steps))
    decreases |steps|
  {
    if steps != [] {
      StepOnlyGrows(q, s, steps[0]);
      OrderedStep(q, s, steps[0]);
      ReaderOnlyGrows(q, Do(q, s, steps[0]), steps[1..]);
    }
  }

  lemma StepOnlyGrows(q: Query, s: System, step: Step)
    requires Ordered(s) && Enabled(s, step)
    ensures var r, t := s.reader, Do(q, s, step).reader;
            r.received <= t.received && r.lastSeq <= t.lastSeq
            && forall e: Event :: e.num <= r.lastSeq && e in t.received ==> e in r.received
  {
    if step.Deliver? {
      OrderedDeliver(s.link.value.frames, s.reader, s.link.value.server.cursor);
    }
  }

  // ---------------------------------------------------------------- who sees what

  predicate AllMatch(q: Query, events: seq<Event>) {
    forall e :: e in events ==> Matches(q, e)
  }

  predicate LinkMatches(q: Query, link: Link) {
    AllMatch(q, EventsOf(link.frames)) && (link.server.Streaming? ==> AllMatch(q, link.server.batch))
  }

  predicate OnlyMatching(q: Query, s: System) {
    AllMatch(q, s.reader.received) && (s.link.Some? ==> LinkMatches(q, s.link.value))
  }

  lemma BatchMatches(log: seq<Event>, q: Query, cursor: int)
    requires Ascending(log)
    ensures AllMatch(q, Batch(log, q, cursor))
  {
    SelectIsExact(log, q, cursor);
    assert forall e :: e in Batch(log, q, cursor) ==> e in Select(log, q, cursor);
  }

  lemma WriteMatches(q: Query, link: Link)
    requires link.server.Streaming? && link.server.batch != [] && LinkMatches(q, link)
    ensures LinkMatches(q, DoWrite(link))
  {
    EventsOfLast(link.frames, EventFrame(link.server.batch[0]));
    assert link.server.batch[0] in link.server.batch;
  }

  lemma OtherMatches(q: Query, link: Link)
    requires LinkMatches(q, link)
    ensures LinkMatches(q, link.(frames := link.frames + [Other]))
  {
    EventsOfLast(link.frames, Other);
  }

  lemma DeliverMatches(q: Query, link: Link, r: Reader)
    requires link.frames != [] && LinkMatches(q, link) && AllMatch(q, r.received)
    ensures AllMatch(q, Take(r, link.frames[0]).received) && LinkMatches(q, link.(frames := link.frames[1..]))
  {
    var first, rest := EventsOf([link.frames[0]]), EventsOf(link.frames[1..]);
    EventsOfFirst(link.frames);
    EventsOfOne(link.frames[0]);
    forall e | e in first || e in rest ensures Matches(q, e) { assert e in EventsOf(link.frames); }
  }

  lemma OnlyMatchingStep(q: Query, s: System, step: Step)
    requires Ordered(s) && OnlyMatching(q, s) && Enabled(s, step)
    ensures OnlyMatching(q, Do(q, s, step))
  {
    match step
    case Accept => EventsOfOne(Other);
    case Fetch => BatchMatches(s.log, q, s.link.value.server.cursor);
    case Write => WriteMatches(q, s.link.value);
    case WriteOther => OtherMatches(q, s.link.value);
    case Deliver => DeliverMatches(q, s.link.value, s.reader);
    case _ =>
  }

  lemma {:induction false} OnlyMatchingRun(q: Query, s: System, steps: seq<Step>)
    requires Ordered(s) && OnlyMatching(q, s) && CanDo(q, s, steps)
    ensures OnlyMatching(q, DoAll(q, s, steps))
    decreases |steps|
  {
    if steps != [] {
      OrderedStep(q, s, steps[0]);
      OnlyMatchingStep(q, s, steps[0]);
      OnlyMatchingRun(q, Do(q, s, steps[0]), steps[1..]);
    }
  }

  /** In every run, whatever retention does, a reader gets events of its chat only: on the audit
      stream of any visibility, on the operator stream no audit event, on any other user events. */
  lemma ReaderSeesOnlyItsStream(q: Query, start: int, steps: seq<Step>)
    requires IsRun(q, start, steps)
    ensures forall e :: e in After(q, start, steps).reader.received ==>
              e.chat == q.chat
              && (q.stream != "audit" ==> e.visibility != Audit)
              && (q.stream != "audit" && q.stream != "operator" ==> e.visibility == User)
  {
    OnlyMatchingRun(q, Init(start), steps);
    forall e | e in After(q, start, steps).reader.received ensures e.chat == q.chat && Shown(q.stream, e.visibility) {
      MatchesIff(q, e);
    }
  }

  // ---------------------------------------------------------------- catching up

  /** Nothing on the link, nothing fetched, nothing left to fetch. */
  predicate Quiet(q: Query, s: System) {
    s.link.Some? && s.link.value.frames == [] && s.link.value.server.Streaming?
    && s.link.value.server.batch == [] && Select(s.log, q, s.link.value.server.cursor) == []
  }

  /** A quiet link means the reader has every stored event of its chat and stream after its start. */
  lemma QuietIsComplete(q: Query, start: int, s: System)
    requires Inv(q, start, s) && Quiet(q, s)
    ensures forall e :: e in s.log && Matches(q, e) && e.num > start ==> e in s.reader.received
  {
    var cursor := s.link.value.server.cursor;
    SelectIsExact(s.log, q, cursor);
    assert EventsOf(s.link.value.frames) == [];
    forall e | e in s.log && Matches(q, e) && e.num > start ensures e in s.reader.received {
      assert e in s.history && e.num !in s.pruned;
      assert e !in Select(s.log, q, cursor) && !Owed(q, e, s.reader.lastSeq, cursor);
      assert Owed(q, e, start, s.reader.lastSeq);
    }
  }

  lemma {:induction false} SelectShrinks(log: seq<Event>, q: Query, a: int, b: int)
    requires a <= b
    ensures |Select(log, q, b)| <= |Select(log, q, a)|
    ensures (exists e :: e in log && Owed(q, e, a, b)) ==> |Select(log, q, b)| < |Select(log, q, a)|
  {
    if log != [] {
      var g, last := log[..|log| - 1], log[|log| - 1];
      SelectShrinks(g, q, a, b);
      assert log == g + [last];
    }
  }

  /** How far the server has read: what it fetched last, or its cursor. */
  function ReadUpTo(server: Serving): int {
    match server
    case Asked(after) => after
    case Streaming(cursor, batch) => if batch == [] then cursor else batch[|batch| - 1].num
  }

  function Phase(s: System): nat {
    if s.link.None? then 2 else if s.link.value.server.Asked? then 1 else 0
  }

  function Unread(q: Query, s: System): nat {
    if s.link.None? then 0 else |Select(s.log, q, ReadUpTo(s.link.value.server))|
  }

  function Unwritten(s: System): nat {
    if s.link.Some? && s.link.value.server.Streaming? then |s.link.value.server.batch| else 0
  }

  function InFlight(s: System): nat {
    if s.link.Some? then |s.link.value.frames| else 0
  }

  /** The next move of a link that is left alone. */
  function NextMove(s: System): Step {
    if s.link.None? then Dial
    else if s.link.value.server.Asked? then Accept
    else if s.link.value.frames != [] then Deliver
    else if s.link.value.server.batch != [] then Write
    else Fetch
  }

  lemma FetchMakesProgress(q: Query, s: System)
    requires Ascending(s.log) && Enabled(s, Fetch) && !Quiet(q, s) && s.link.value.frames == []
    ensures Unread(q, Do(q, s, Fetch)) < Unread(q, s)
  {
    var cursor := s.link.value.server.cursor;
    var batch := Batch(s.log, q, cursor);
    SelectIsExact(s.log, q, cursor);
    assert Select(s.log, q, cursor) != [] && batch != [];
    var last := batch[|batch| - 1];
    assert last in Select(s.log, q, cursor);
    assert last in s.log && Owed(q, last, cursor, last.num);
    SelectShrinks(s.log, q, cursor, last.num);
  }

  /** t is closer to quiet than s. */
  predicate Closer(q: Query, t: System, s: System) {
    Phase(t) < Phase(s)
    || (Phase(t) == Phase(s)
        && (Unread(q, t) < Unread(q, s)
            || (Unread(q, t) == Unread(q, s)
                && (Unwritten(t) < Unwritten(s)
                    || (Unwritten(t) == Unwritten(s) && InFlight(t) < InFlight(s))))))
  }

  lemma MoveMakesProgress(q: Query, s: System)
    requires Ascending(s.log) && !Quiet(q, s)
    ensures Enabled(s, NextMove(s)) && Do(q, s, NextMove(s)).log == s.log && Closer(q, Do(q, s, NextMove(s)), s)
  {
    if NextMove(s).Fetch? { FetchMakesProgress(q, s); }
  }

  /** Steps of the link and its two ends only. */
  predicate LinkMoves(steps: seq<Step>) {
    forall i :: 0 <= i < |steps| ==> steps[i] in {Dial, Accept, Fetch, Write, Deliver}
  }

  lemma {:induction false} ReachQuiet(q: Query, s: System) returns (more: seq<Step>)
    requires Ascending(s.log)
    ensures LinkMoves(more) && CanDo(q, s, more) && Careful(q, s, more)
    ensures Quiet(q, DoAll(q, s, more)) && DoAll(q, s, more).log == s.log
    decreases Phase(s), Unread(q, s), Unwritten(s), InFlight(s)
  {
    if Quiet(q, s) {
      more := [];
    } else {
      MoveMakesProgress(q, s);
      var rest := ReachQuiet(q, Do(q, s, NextMove(s)));
      more := [NextMove(s)] + rest;
      assert more[1..] == rest;
    }
  }

  /** From every state that a run can reach, a link left alone brings the reader everything
      stored for its chat and stream after its start. */
  lemma CatchUp(q: Query, start: int, steps: seq<Step>) returns (more: seq<Step>)
    requires IsRun(q, start, steps) && Careful(q, Init(start), steps)
    ensures LinkMoves(more) && CanDo(q, After(q, start, steps), more)
    ensures var s, t := After(q, start, steps), DoAll(q, After(q, start, steps), more);
            t.log == s.log && forall e :: e in t.log && Matches(q, e) && e.num > start ==> e in t.reader.received
  {
    RunKeepsInv(q, start, steps);
    var s := After(q, start, steps);
    more := ReachQuiet(q, s);
    DoAllKeepsInv(q, start, s, more);
    QuietIsComplete(q, start, DoAll(q, s, more));
  }

  /** So it brings an audit reader every event of its chat after its start, an operator reader every
      user and operator event, and any other reader every user event. */
  lemma CatchUpShowsAll(q: Query, start: int, steps: seq<Step>) returns (more: seq<Step>)
    requires IsRun(q, start, steps) && Careful(q, Init(start), steps)
    ensures LinkMoves(more) && CanDo(q, After(q, start, steps), more)
    ensures var s, t := After(q, start, steps), DoAll(q, After(q, start, steps), more);
            t.log == s.log
            && forall e :: e in t.log && e.chat == q.chat && e.num > start
                           && (e.visibility == User || q.stream == "audit"
                               || (q.stream == "operator" && e.visibility == Operator))
                           ==> e in t.reader.received
  {
    more := CatchUp(q, start, steps);
    forall e: Event ensures Matches(q, e) <==> e.chat == q.chat && Shown(q.stream, e.visibility) {
      MatchesIff(q, e);
    }
  }

  // ---------------------------------------------------------------- retention and numbering

  /** How far has been read for the reader: by a server on its link, else by itself. */
  function Reach(s: System): int {
    if s.link.None? then s.reader.lastSeq else ReadUpTo(s.link.value.server)
  }

  predicate OnLink(s: System, e: Event) {
    s.link.Some? && (e in EventsOf(s.link.value.frames)
                     || (s.link.value.server.Streaming? && e in s.link.value.server.batch))
  }

  /** The reader has e, or e is on its way, or e is still to be read. */
  predicate Coming(s: System, e: Event) {
    e in s.reader.received || OnLink(s, e) || e.num > Reach(s)
  }

  lemma FetchReaches(log: seq<Event>, q: Query, cursor: int, e: Event)
    requires Ascending(log) && e in log && Matches(q, e)
    ensures var batch := Batch(log, q, cursor);
            e.num > cursor <==> e in batch || e.num > ReadUpTo(Streaming(cursor, batch))
  {
    SelectIsExact(log, q, cursor);
    var all, batch := Select(log, q, cursor), Batch(log, q, cursor);
    assert batch == all[..|batch|];
    if batch != [] {
      var last := batch[|batch| - 1];
      assert last in all;
      if e in all && e.num <= last.num { InPrefix(all, |batch|, e); }
    }
  }

  lemma WriteReaches(link: Link, e: Event)
    requires link.server.Streaming? && link.server.batch != []
    ensures ReadUpTo(DoWrite(link).server) == ReadUpTo(link.server)
    ensures e in EventsOf(DoWrite(link).frames) || e in DoWrite(link).server.batch
            <==> e in EventsOf(link.frames) || e in link.server.batch
  {
    var batch := link.server.batch;
    EventsOfLast(link.frames, EventFrame(batch[0]));
    assert batch == [batch[0]] + batch[1..];
  }

  lemma DeliverReaches(frames: seq<Frame>, r: Reader, e: Event)
    requires frames != []
    ensures e in Take(r, frames[0]).received || e in EventsOf(frames[1..])
            <==> e in r.received || e in EventsOf(frames)
  {
    EventsOfFirst(frames);
    EventsOfOne(frames[0]);
  }

  /** A link left alone neither loses an event nor brings one that was passed over. */
  lemma ComingStep(q: Query, s: System, step: Step, e: Event)
    requires Ordered(s) && Enabled(s, step) && step in {Dial, Accept, Fetch, Write, Deliver}
    requires e in s.log && Matches(q, e)
    ensures Coming(Do(q, s, step), e) <==> Coming(s, e)
    ensures Do(q, s, step).log == s.log
  {
    match step
    case Dial =>
    case Accept => EventsOfOne(Other);
    case Fetch => FetchReaches(s.log, q, s.link.value.server.cursor, e);
    case Write => WriteReaches(s.link.value, e);
    case Deliver => DeliverReaches(s.link.value.frames, s.reader, e);
  }

  lemma {:induction false} ComingStays(q: Query, s: System, steps: seq<Step>, e: Event)
    requires Ordered(s) && CanDo(q, s, steps) && LinkMoves(steps) && e in s.log && Matches(q, e)
    ensures Coming(DoAll(q, s, steps), e) <==> Coming(s, e)
    ensures DoAll(q, s, steps).log == s.log
    decreases |steps|
  {
    if steps != [] {
      ComingStep(q, s, steps[0], e);
      OrderedStep(q, s, steps[0]);
      ComingStays(q, Do(q, s, steps[0]), steps[1..], e);
    }
  }

  lemma QuietHasCome(q: Query, s: System, e: Event)
    requires Quiet(q, s) && Ascending(s.log) && e in s.log && Matches(q, e)
    ensures Coming(s, e) <==> e in s.reader.received
  {
    SelectIsExact(s.log, q, s.link.value.server.cursor);
    assert e !in Select(s.log, q, s.link.value.server.cursor);
  }

  lemma InvIsOrdered(q: Query, start: int, s: System)
    requires Inv(q, start, s)
    ensures Ordered(s)
  {
  }

  /** An event that was never stored before is nowhere yet. */
  lemma NewEventIsNowhere(q: Query, start: int, s: System, e: Event)
    requires Inv(q, start, s) && forall x :: x in s.history ==> x.id != e.id
    ensures e !in s.reader.received && !OnLink(s, e) && !HasId(s.log, e.id)
  {
    forall i | 0 <= i < |s.log| ensures s.log[i].id != e.id { assert s.log[i] in s.history; }
  }

  /** Storing under an id that no stored row has. */
  lemma StoresRow(s: System, id: string, chat: string, visibility: Visibility)
    requires !HasId(s.log, id)
    ensures var e := Event(id, chat, visibility, MaxSeq(s.log) + 1);
            var t := DoStore(s, id, chat, visibility);
            t.log == s.log + [e] && t.link == s.link && t.reader == s.reader
  {
  }

  /** After any retention query, let the next event be stored for the reader's chat and stream and
      the link be left alone until it is quiet. Then the reader has the event exactly when the
      newest row that was left is not below what has been read for it: by the server on its link,
      whose cursor runs ahead of the frames it has sent, or by the reader itself without a link. */
  lemma NextEventIsReadIff(q: Query, start: int, s: System, gone: set<int>, id: string, visibility: Visibility,
                           steps: seq<Step>)
    requires Inv(q, start, s) && visibility in VisibilitiesForStream(q.stream)
    requires forall x :: x in s.history ==> x.id != id
    requires var t := DoStore(DoRetain(s, gone), id, q.chat, visibility);
             CanDo(q, t, steps) && LinkMoves(steps) && Quiet(q, DoAll(q, t, steps))
    ensures var kept := Prune(s.log, gone);
            var t := DoStore(DoRetain(s, gone), id, q.chat, visibility);
            Event(id, q.chat, visibility, MaxSeq(kept) + 1) in DoAll(q, t, steps).reader.received
            <==> MaxSeq(kept) >= Reach(s)
  {
    var e := Event(id, q.chat, visibility, MaxSeq(Prune(s.log, gone)) + 1);
    var t := DoStore(DoRetain(s, gone), id, q.chat, visibility);
    AfterStore(q, start, s, gone, e);
    ComingStays(q, t, steps, e);
    QuietHasCome(q, DoAll(q, t, steps), e);
  }

  lemma AfterStore(q: Query, start: int, s: System, gone: set<int>, e: Event)
    requires Inv(q, start, s) && (forall x :: x in s.history ==> x.id != e.id)
    requires e.num == MaxSeq(Prune(s.log, gone)) + 1
    ensures var t := DoStore(DoRetain(s, gone), e.id, e.chat, e.visibility);
            Ordered(t) && e in t.log && (Coming(t, e) <==> e.num > Reach(s))
  {
    var r := DoRetain(s, gone);
    NewEventIsNowhere(q, start, s, e);
    StillNoId(s.log, gone, e.id);
    StoresRow(r, e.id, e.chat, e.visibility);
    InvIsOrdered(q, start, s);
    OrderedStep(q, s, Retain(gone));
    OrderedStep(q, r, Store(e.id, e.chat, e.visibility));
  }

  lemma StillNoId(log: seq<Event>, gone: set<int>, id: string)
    requires Ascending(log) && !HasId(log, id)
    ensures !HasId(Prune(log, gone), id)
  {
    PruneIsExact(log, gone);
    var kept := Prune(log, gone);
    forall i | 0 <= i < |kept| ensures kept[i].id != id {
      assert kept[i] in log;
    }
  }

  /** A run in which that happens: the reader has received the only event, a retention query
      removes it, and the next event is stored under the same number. It is of the reader's chat
      and stream and after its start, and the reader never gets it. */
  lemma RetentionLosesEvent(q: Query, id1: string, id2: string) returns (steps: seq<Step>, e: Event)
    requires id1 != id2
    ensures CanDo(q, Init(0), steps) && Ordered(DoAll(q, Init(0), steps))
    ensures var s := DoAll(q, Init(0), steps);
            s.log == [e] && Matches(q, e) && 0 < e.num <= s.reader.lastSeq && e !in s.reader.received
  {
    var first := Event(id1, q.chat, User, 1);
    e := Event(id2, q.chat, User, 1);
    steps := SendFirst(q, first);
    steps := Snoc(q, Init(0), steps, Deliver);
    DeliverOther(q, first);
    steps := Snoc(q, Init(0), steps, Deliver);
    DeliverFirst(q, first);
    steps := Snoc(q, Init(0), steps, Retain({1}));
    steps := Snoc(q, Init(0), steps, Store(id2, q.chat, User));
    StoreAgain(q, first, id2);
    ReaderOnlyGrows(q, Init(0), steps);
  }

  lemma {:induction false} Snoc(q: Query, s: System, x: seq<Step>, step: Step) returns (y: seq<Step>)
    requires CanDo(q, s, x) && Enabled(DoAll(q, s, x), step)
    ensures y == x + [step] && CanDo(q, s, y) && DoAll(q, s, y) == Do(q, DoAll(q, s, x), step)
    decreases |x|
  {
    y := x + [step];
    if x == [] {
      assert y[0] == step && y[1..] == [];
    } else {
      var rest := Snoc(q, Do(q, s, x[0]), x[1..], step);
      assert y[0] == x[0] && y[1..] == rest;
    }
  }

  /** The log holds one event, and the link is as given. */
  function With1(first: Event, cursor: int, batch: seq<Event>, frames: seq<Frame>, r: Reader): System {
    System([first], [first], {}, Some(Link(Streaming(cursor, batch), frames)), r)
  }

  lemma SendFirst(q: Query, first: Event) returns (steps: seq<Step>)
    requires first == Event(first.id, q.chat, User, 1)
    ensures CanDo(q, Init(0), steps)
    ensures DoAll(q, Init(0), steps) == With1(first, 1, [], [Other, EventFrame(first)], Reader(0, []))
  {
    StoreFirst(first);
    steps := Snoc(q, Init(0), [], Store(first.id, q.chat, User));
    steps := Snoc(q, Init(0), steps, Dial);
    steps := Snoc(q, Init(0), steps, Accept);
    assert DoAll(q, Init(0), steps) == With1(first, 0, [], [Other], Reader(0, []));
    steps := Snoc(q, Init(0), steps, Fetch);
    FetchFirst(q, first);
    steps := Snoc(q, Init(0), steps, Write);
    assert [first][1..] == [] && [Other] + [EventFrame(first)] == [Other, EventFrame(first)];
  }

  lemma StoreFirst(first: Event)
    requires first.num == 1
    ensures DoStore(Init(0), first.id, first.chat, first.visibility)
         == System([first], [first], {}, None, Reader(0, []))
  {
    assert !HasId([], first.id) && MaxSeq([]) == 0;
    assert Append([], first.id, first.chat, first.visibility) == [first];
  }

  lemma FetchFirst(q: Query, first: Event)
    requires first == Event(first.id, q.chat, User, 1)
    ensures Batch([first], q, 0) == [first]
  {
    assert [first][..0] == [] && Select([], q, 0) == [];
  }

  lemma DeliverOther(q: Query, first: Event)
    ensures var s := With1(first, 1, [], [Other, EventFrame(first)], Reader(0, []));
            Do(q, s, Deliver) == With1(first, 1, [], [EventFrame(first)], Reader(0, []))
  {
    assert [Other, EventFrame(first)][1..] == [EventFrame(first)];
  }

  lemma DeliverFirst(q: Query, first: Event)
    requires first.num == 1
    ensures var s := With1(first, 1, [], [EventFrame(first)], Reader(0, []));
            Do(q, s, Deliver) == With1(first, 1, [], [], Reader(1, [first]))
  {
    assert [EventFrame(first)][1..] == [] && [] + [first] == [first];
  }

  lemma StoreAgain(q: Query, first: Event, id2: string)
    requires first.num == 1 && first.id != id2
    ensures var s := DoRetain(With1(first, 1, [], [], Reader(1, [first])), {1});
            s.log == [] && DoStore(s, id2, q.chat, User).log == [Event(id2, q.chat, User, 1)]
            && DoStore(s, id2, q.chat, User).reader == Reader(1, [first])
  {
    assert [first][..0] == [] && Prune([first], {1}) == [];
    assert !HasId([], id2) && MaxSeq([]) == 0;
    assert Append([], id2, q.chat, User) == [Event(id2, q.chat, User, 1)];
  }
}
