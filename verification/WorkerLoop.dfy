/**
The worker's loop while messages keep arriving (runLoop and Enqueue in
internal/connectors/worker.go, Dispatch, StopOne and StopAll in internal/connectors/manager.go):
a bounded queue that may be closed, a loop that serves it, drains it once its context is
cancelled and returns, and dispatches that look the worker up first and send afterwards.
 */
module WorkerLoop {

  import opened ConnectorWorker

  datatype Phase = Serving | Draining | Returned

  /** found: dispatches that hold the worker and have not sent; panicked: those that sent on a
      closed queue. */
  datatype Loop = Loop(
    queue: seq<string>,
    closed: bool,
    phase: Phase,
    accepted: seq<string>,
    processed: seq<string>,
    listed: bool,
    found: set<nat>,
    panicked: set<nat>)

  datatype Step =
    | Find(d: nat)                                 // Dispatch finds the worker in the manager's map
    | Offer(d: nat, msg: string, lateCancel: bool) // its Enqueue
    | Take                                         // the next message is received and processed
    | Close
    | Unlist                                       // the worker leaves the manager's map
    | Cancel                                       // the loop sees its context done
    | Leave                                        // the queue is closed and empty, or empty while draining

  const FRESH_LOOP: Loop := Loop([], false, Serving, [], [], true, {}, {})

  predicate Enabled(s: Loop, step: Step) {
    match step
    case Find(d) => s.listed && d !in s.found && d !in s.panicked
    case Offer(d, _, _) => d in s.found
    case Take => s.phase != Returned && s.queue != []
    case Close => !s.closed
    case Unlist => s.listed
    case Cancel => s.phase == Serving
    case Leave => s.queue == [] && (s.phase == Draining || (s.phase == Serving && s.closed))
  }

  predicate Accepts(s: Loop, step: Step) {
    step.Offer? && !s.closed && |s.queue| < QUEUE_SIZE && !step.lateCancel
  }

  function Do(s: Loop, step: Step): Loop
    requires Enabled(s, step)
  {
    match step
    case Find(d) => s.(found := s.found + {d})
    case Offer(d, msg, _) =>
      var t := s.(found := s.found - {d});
      if s.closed then t.(panicked := s.panicked + {d})
      else if Accepts(s, step) then t.(queue := s.queue + [msg], accepted := s.accepted + [msg])
      else t
    case Take => s.(queue := s.queue[1..], processed := s.processed + [s.queue[0]])
    case Close => s.(closed := true)
    case Unlist => s.(listed := false)
    case Cancel => s.(phase := Draining)
    case Leave => s.(phase := Returned)
  }

  predicate IsRun(steps: seq<Step>)
    decreases |steps|, 0
  {
    steps == [] || (IsRun(steps[..|steps| - 1]) && Enabled(After(steps[..|steps| - 1]), steps[|steps| - 1]))
  }

  function After(steps: seq<Step>): Loop
    requires IsRun(steps)
    decreases |steps|, 1
  {
    if steps == [] then FRESH_LOOP else Do(After(steps[..|steps| - 1]), steps[|steps| - 1])
  }

  /** However messages arrive, they are processed in the order accepted, each once: the queue holds
      exactly those accepted and not yet processed, and never more than 64. */
  lemma {:induction false} ServesInOrder(steps: seq<Step>)
    requires IsRun(steps)
    ensures var s := After(steps); s.accepted == s.processed + s.queue && |s.queue| <= QUEUE_SIZE
  {
    if steps != [] {
      var s := After(steps[..|steps| - 1]);
      ServesInOrder(steps[..|steps| - 1]);
      if steps[|steps| - 1].Take? {
        assert s.processed + s.queue == s.processed + [s.queue[0]] + s.queue[1..];
      }
    }
  }

  /** No message is accepted at position m or later. */
  predicate NoneAccepted(steps: seq<Step>, m: nat)
    requires IsRun(steps)
  {
    |steps| <= m || (NoneAccepted(steps[..|steps| - 1], m) && !Accepts(After(steps[..|steps| - 1]), steps[|steps| - 1]))
  }

  /** Once the loop has returned it processes nothing more. Everything accepted before that was
      processed; everything accepted is processed exactly when nothing was accepted afterwards. */
  lemma {:induction false} ProcessedIff(steps: seq<Step>, m: nat)
    requires IsRun(steps) && m < |steps| && steps[m] == Leave && IsRun(steps[..m])
    ensures var s := After(steps);
            s.phase == Returned && s.processed == After(steps[..m]).accepted && s.processed <= s.accepted
            && (s.processed == s.accepted <==> NoneAccepted(steps, m + 1))
    decreases |steps|
  {
    var n := |steps| - 1;
    var g := steps[..n];
    if m == n {
      ServesInOrder(g);
      assert After(g).processed + [] == After(g).processed;
    } else {
      assert g[..m] == steps[..m] && g[m] == steps[m];
      ProcessedIff(g, m);
    }
  }

  /** The loop alone can lose a message that way: its context ends while the queue is open, it
      drains and returns, and a message offered afterwards is accepted and stays in the queue. */
  lemma LateMessageIsLost(msg: string) returns (steps: seq<Step>)
    ensures IsRun(steps) && After(steps).phase == Returned
    ensures After(steps).accepted == [msg] && After(steps).processed == []
  {
    var s1 := Extend([], Cancel);
    var s2 := Extend(s1, Leave);
    var s3 := Extend(s2, Find(0));
    steps := Extend(s3, Offer(0, msg, false));
  }

  lemma Extend(steps: seq<Step>, step: Step) returns (more: seq<Step>)
    requires IsRun(steps) && Enabled(After(steps), step)
    ensures more == steps + [step] && IsRun(more) && After(more) == Do(After(steps), step)
  {
    more := steps + [step];
    assert more[..|steps|] == steps;
  }

  /** A queue that was closed first loses nothing: StopOne and StopAll close it before they cancel. */
  lemma {:induction false} ClosedQueueIsServed(steps: seq<Step>)
    requires IsRun(steps) && After(steps).phase == Returned
    requires forall m :: 0 <= m < |steps| && steps[m] == Leave && IsRun(steps[..m]) ==> After(steps[..m]).closed
    ensures After(steps).processed == After(steps).accepted
  {
    var m := LeftAt(steps);
    ClosedStays(steps, m);
    ProcessedIff(steps, m);
  }

  lemma {:induction false} LeftAt(steps: seq<Step>) returns (m: nat)
    requires IsRun(steps) && After(steps).phase == Returned
    ensures m < |steps| && steps[m] == Leave && IsRun(steps[..m])
  {
    var n := |steps| - 1;
    if steps[n] == Leave {
      m := n;
    } else {
      m := LeftAt(steps[..n]);
      assert steps[..n][..m] == steps[..m];
    }
  }

  lemma {:induction false} ClosedStays(steps: seq<Step>, m: nat)
    requires IsRun(steps) && m < |steps| && steps[m] == Leave && IsRun(steps[..m]) && After(steps[..m]).closed
    ensures After(steps).closed && NoneAccepted(steps, m + 1)
    decreases |steps|
  {
    var n := |steps| - 1;
    if m < n {
      assert steps[..n][..m] == steps[..m];
      ClosedStays(steps[..n], m);
    }
  }

  // ---------------------------------------------------------------- sending on a closed queue

  /** Dispatch d sends after the queue was closed. */
  predicate SendsLate(steps: seq<Step>, d: nat)
    requires IsRun(steps)
  {
    steps != []
    && (SendsLate(steps[..|steps| - 1], d)
        || (steps[|steps| - 1].Offer? && steps[|steps| - 1].d == d && Close in steps[..|steps| - 1]))
  }

  /** A dispatch panics exactly when it found the worker and sends after the queue was closed. */
  lemma {:induction false} PanicsIff(steps: seq<Step>, d: nat)
    requires IsRun(steps)
    ensures After(steps).closed <==> Close in steps
    ensures d in After(steps).panicked <==> SendsLate(steps, d)
  {
    if steps != [] {
      var n := |steps| - 1;
      PanicsIff(steps[..n], d);
      assert steps == steps[..n] + [steps[n]];
    }
  }

  /** Every way on from a state of a closed queue. */
  predicate CanDo(s: Loop, steps: seq<Step>)
    decreases |steps|
  {
    steps == [] || (Enabled(s, steps[0]) && CanDo(Do(s, steps[0]), steps[1..]))
  }

  function DoAll(s: Loop, steps: seq<Step>): Loop
    requires CanDo(s, steps)
    decreases |steps|
  {
    if steps == [] then s else DoAll(Do(s, steps[0]), steps[1..])
  }

  lemma {:induction false} FoundHaveNotPanicked(run: seq<Step>)
    requires IsRun(run)
    ensures After(run).found !! After(run).panicked
  {
    if run != [] { FoundHaveNotPanicked(run[..|run| - 1]); }
  }

  /** In every run, once the queue is closed another dispatch can still panic exactly while the
      worker is listed or some dispatch holds it. */
  lemma PanicAheadIff(run: seq<Step>)
    requires IsRun(run) && After(run).closed
    ensures var s := After(run);
            (exists steps :: CanDo(s, steps) && DoAll(s, steps).panicked != s.panicked) <==> s.listed || s.found != {}
  {
    var s := After(run);
    FoundHaveNotPanicked(run);
    if s.found != {} {
      var d :| d in s.found;
      PanicNow(s, d);
    } else if s.listed {
      PanicLater(s);
    } else {
      forall steps | CanDo(s, steps) ensures DoAll(s, steps).panicked == s.panicked {
        NoPanicAhead(s, steps);
      }
    }
  }

  lemma PanicLater(s: Loop)
    requires s.closed && s.listed && s.found == {}
    ensures exists steps :: CanDo(s, steps) && DoAll(s, steps).panicked != s.panicked
  {
    var d := Unused(s.panicked);
    PanicNow(Do(s, Find(d)), d);
    var steps := [Find(d)] + [Offer(d, "", false)];
    assert steps[0] == Find(d) && steps[1..] == [Offer(d, "", false)];
    assert CanDo(s, steps) && d in DoAll(s, steps).panicked;
  }

  lemma PanicNow(s: Loop, d: nat)
    requires s.closed && d in s.found
    ensures var steps := [Offer(d, "", false)];
            CanDo(s, steps) && d in DoAll(s, steps).panicked
            && (d !in s.panicked ==> DoAll(s, steps).panicked != s.panicked)
  {
    var steps := [Offer(d, "", false)];
    assert steps[1..] == [] && DoAll(s, steps) == Do(s, steps[0]);
  }

  lemma Unused(ids: set<nat>) returns (d: nat)
    ensures d !in ids
  {
    d := Above(ids);
    assert !(d in ids && d < d);
  }

  lemma {:induction false} Above(ids: set<nat>) returns (d: nat)
    ensures forall x :: x in ids ==> x < d
    decreases |ids|
  {
    if ids == {} {
      d := 0;
    } else {
      var x :| x in ids;
      var e := Above(ids - {x});
      d := if x < e then e else x + 1;
      forall y | y in ids ensures y < d {
        assert y == x || y in ids - {x};
      }
    }
  }

  lemma {:induction false} NoPanicAhead(s: Loop, steps: seq<Step>)
    requires s.closed && !s.listed && s.found == {} && CanDo(s, steps)
    ensures DoAll(s, steps).panicked == s.panicked
    decreases |steps|
  {
    if steps != [] { NoPanicAhead(Do(s, steps[0]), steps[1..]); }
  }

  /** StopAll closes the queue while the worker is listed: a dispatch that starts only then panics. */
  lemma StopAllMeetsDispatch(msg: string) returns (steps: seq<Step>)
    ensures IsRun(steps) && steps == [Close, Find(0), Offer(0, msg, false)] && After(steps).panicked == {0}
  {
    var s1 := Extend([], Close);
    var s2 := Extend(s1, Find(0));
    steps := Extend(s2, Offer(0, msg, false));
  }

  /** StopOne takes the worker off the list first: only a dispatch that had found it before panics. */
  lemma StopOneMeetsDispatch(msg: string) returns (steps: seq<Step>)
    ensures IsRun(steps) && steps == [Find(0), Unlist, Close, Offer(0, msg, false)] && After(steps).panicked == {0}
  {
    var s1 := Extend([], Find(0));
    var s2 := Extend(s1, Unlist);
    var s3 := Extend(s2, Close);
    steps := Extend(s3, Offer(0, msg, false));
  }
}
