/**
What one call can do to an artifact's head over a whole run, other calls interleaving: the row
it read, the step at which it read it, and what happened to the row since.
 */
module ArtifactCalls {

  import opened Wrappers
  import opened ArtifactProtocol
  import opened ArtifactInvariant
  import opened ArtifactTheorems

  /** The call that takes a step. */
  function Caller(step: Step): Option<nat> {
    match step
    case Create(_, _, _, _) => None
    case _ => Some(step.w)
  }

  predicate ReadsRow(step: Step, w: nat) {
    (step.Read? || step.Reread? || step.StartSave? || step.StartBranch?) && step.w == w
  }

  /** The position of call w's latest read of an artifacts row, or -1. */
  function LastRead(steps: seq<Step>, w: nat): (m: int)
    ensures -1 <= m < |steps| && (m >= 0 ==> ReadsRow(steps[m], w))
  {
    if steps == [] then -1
    else if ReadsRow(steps[|steps| - 1], w) then |steps| - 1
    else LastRead(steps[..|steps| - 1], w)
  }

  // ---------------------------------------------------------------- calls and their snapshots

  /** The row a request found is the base it expects, if it expects one. */
  predicate MeetsExpectation(req: Request, row: Artifact) {
    req.expected == "" || row.current == req.expected
  }

  predicate RowRead(step: Step, st: Store, a: Id, snap: Artifact) {
    step.Read? && a == step.artifact && a in st.artifacts && snap == st.artifacts[a]
  }

  /** The entry is the operation that was asked for. */
  ghost predicate Performs(req: Request, e: Entry) {
    match req
    case Update(edit, _) => e.Updated? && e.edit == edit
    case Restore(target, _) => e.Restored? && e.target == target
  }

  ghost predicate Prepares(step: Step, st: Store, a: Id, snap: Artifact, e: Entry) {
    RowRead(step, st, a, snap) && MeetsExpectation(step.req, snap) && Performs(step.req, e)
  }

  /** What a call's phase says about the step that read its row, and the row read then. */
  ghost predicate FromRead(wr: Writer, step: Step, st: Store) {
    match wr
    case Checking(a, req, snap) => RowRead(step, st, a, snap) && req == step.req
    case Reading(a, req, snap) => RowRead(step, st, a, snap) && req == step.req && MeetsExpectation(req, snap)
    case Loaded(a, snap, e, _) => Prepares(step, st, a, snap, e)
    case Stored(a, snap, e, _) => Prepares(step, st, a, snap, e)
    case Inserted(a, snap, e, _) => Prepares(step, st, a, snap, e)
    case Branching(a, snap, base, b) =>
      step.StartBranch? && a in st.artifacts && snap == st.artifacts[a] && b == step.branch
      && base == BranchBase(snap, step.wanted)
    case Saving(a, row) =>
      a in st.artifacts
      && if step.StartBranch?
         then row == Artifact(step.branch, BranchBase(st.artifacts[a], step.wanted), st.artifacts[a].number)
         else row == st.artifacts[a]
    case Done(committed) =>
      committed && step.Read? && step.artifact in st.artifacts
      && MeetsExpectation(step.req, st.artifacts[step.artifact])
    case _ => true
  }

  predicate Snapshot(wr: Writer) {
    !wr.Lost? && !wr.RolledBack? && (wr.Done? ==> wr.committed)
  }

  /** A read step itself. */
  lemma ReadStarts(s: System, step: Step, w: nat)
    requires Enabled(s, step) && ReadsRow(step, w)
    ensures w in Do(s, step).writers && FromRead(Do(s, step).writers[w], step, s.store)
  {
  }

  /** Any other step of the call keeps the snapshot or ends the phases that have one. */
  lemma SnapshotKept(s: System, step: Step, w: nat, read: Step, st: Store)
    requires Enabled(s, step) && !ReadsRow(step, w) && w in Do(s, step).writers
    requires w in s.writers && Snapshot(s.writers[w]) ==> FromRead(s.writers[w], read, st)
    ensures w in s.writers
    ensures Snapshot(Do(s, step).writers[w]) ==> Snapshot(s.writers[w]) && FromRead(Do(s, step).writers[w], read, st)
  {
  }

  /** In every run a call's snapshot is the row its latest read found. */
  lemma {:induction false} SnapshotIsRead(steps: seq<Step>, w: nat)
    requires IsRun(steps) && w in After(steps).writers && Snapshot(After(steps).writers[w])
    ensures var m := LastRead(steps, w);
            0 <= m < |steps| && ReadsRow(steps[m], w) && IsRun(steps[..m])
            && FromRead(After(steps).writers[w], steps[m], After(steps[..m]).store)
    decreases |steps|
  {
    var n := |steps| - 1;
    var g, last := steps[..n], steps[n];
    if ReadsRow(last, w) {
      ReadStarts(After(g), last, w);
    } else {
      SnapshotOfPrefix(After(g), last, w);
      SnapshotIsRead(g, w);
      var m := LastRead(g, w);
      assert g[..m] == steps[..m] && g[m] == steps[m];
      SnapshotKept(After(g), last, w, steps[m], After(steps[..m]).store);
    }
  }

  lemma SnapshotOfPrefix(s: System, step: Step, w: nat)
    requires Enabled(s, step) && !ReadsRow(step, w) && w in Do(s, step).writers && Snapshot(Do(s, step).writers[w])
    ensures w in s.writers && Snapshot(s.writers[w])
  {
  }

  // ---------------------------------------------------------------- what moves a row

  predicate SavesRow(s: System, step: Step, a: Id) {
    step.SaveRow? && step.w in s.writers && s.writers[step.w].Saving? && s.writers[step.w].artifact == a
  }

  predicate CommitsTo(s: System, step: Step, a: Id) {
    step.Advance? && step.w in s.writers && s.writers[step.w].Inserted? && s.writers[step.w].artifact == a
    && HeadIs(s.store, a, s.writers[step.w].snap)
  }

  /** Only a full-row save or a won compare-and-set changes a row, and the latter counts up. */
  lemma StepRow(s: System, step: Step, a: Id)
    requires Enabled(s, step) && a in s.store.artifacts
    ensures a in Do(s, step).store.artifacts
    ensures !SavesRow(s, step, a) && !CommitsTo(s, step, a) ==>
              Do(s, step).store.artifacts[a] == s.store.artifacts[a]
    ensures CommitsTo(s, step, a) ==> Do(s, step).store.artifacts[a].number == s.store.artifacts[a].number + 1
  {
  }

  /** No full-row save of a at position m or later. */
  predicate NoSaves(steps: seq<Step>, m: nat, a: Id)
    requires IsRun(steps)
  {
    |steps| <= m
    || (NoSaves(steps[..|steps| - 1], m, a) && !SavesRow(After(steps[..|steps| - 1]), steps[|steps| - 1], a))
  }

  /** No commit to a at position m or later. */
  predicate NoCommits(steps: seq<Step>, m: nat, a: Id)
    requires IsRun(steps)
  {
    |steps| <= m
    || (NoCommits(steps[..|steps| - 1], m, a) && !CommitsTo(After(steps[..|steps| - 1]), steps[|steps| - 1], a))
  }

  function Row(steps: seq<Step>, a: Id): Artifact
    requires IsRun(steps) && a in After(steps).store.artifacts
  {
    After(steps).store.artifacts[a]
  }

  /** Without a full-row save in between, a row is what it was exactly when no commit came
      between, and exactly when its number is. */
  lemma {:induction false} RowWithoutSaves(steps: seq<Step>, m: nat, a: Id)
    requires IsRun(steps) && m <= |steps| && IsRun(steps[..m]) && a in After(steps[..m]).store.artifacts
    ensures a in After(steps).store.artifacts
    ensures NoSaves(steps, m, a) ==>
              Row(steps[..m], a).number <= Row(steps, a).number
              && (Row(steps[..m], a) == Row(steps, a) <==> NoCommits(steps, m, a))
              && (Row(steps[..m], a).number == Row(steps, a).number <==> NoCommits(steps, m, a))
    decreases |steps|
  {
    if m == |steps| {
      assert steps[..m] == steps;
    } else {
      var n := |steps| - 1;
      var g := steps[..n];
      assert g[..m] == steps[..m];
      RowWithoutSaves(g, m, a);
      StepRow(After(g), steps[n], a);
    }
  }

  // ---------------------------------------------------------------- winning

  /** Optimistic concurrency, exactly: as long as nobody saves the full row, a prepared call's
      compare-and-set succeeds if and only if no other call committed to the artifact since the
      call read it; with full-row saves, if and only if version and number are again those read. */
  lemma WinsIffUndisturbed(steps: seq<Step>, w: nat)
    requires IsRun(steps) && w in After(steps).writers && After(steps).writers[w].Inserted?
    ensures var a := After(steps).writers[w].artifact;
            var m := LastRead(steps, w);
            0 <= m < |steps| && steps[m].Read? && steps[m].w == w
            && IsRun(steps[..m]) && a in After(steps[..m]).store.artifacts && a in After(steps).store.artifacts
            && (DoAdvance(After(steps), w).writers[w] == Done(true)
                <==> Row(steps[..m], a).current == Row(steps, a).current
                     && Row(steps[..m], a).number == Row(steps, a).number)
            && (NoSaves(steps, m, a) ==>
                  (DoAdvance(After(steps), w).writers[w] == Done(true) <==> NoCommits(steps, m, a)))
  {
    SnapshotIsRead(steps, w);
    RowWithoutSaves(steps, LastRead(steps, w), After(steps).writers[w].artifact);
  }

  // ---------------------------------------------------------------- what a commit is

  /** A call about to win its compare-and-set performs the operation that was asked for, and if
      that named an expected base, the head it replaces is that base. In a safe run the version row
      it commits carries the branch read, the next number, the replaced head as parent, and as base
      the restore's target or else that head. */
  lemma CommitIsAsAsked(steps: seq<Step>, w: nat)
    requires IsRun(steps) && w in After(steps).writers && After(steps).writers[w].Inserted?
    requires HeadIs(After(steps).store, After(steps).writers[w].artifact, After(steps).writers[w].snap)
    ensures var s, wr, m := After(steps), After(steps).writers[w], LastRead(steps, w);
            0 <= m < |steps| && steps[m].Read? && steps[m].w == w && steps[m].artifact == wr.artifact
            && Performs(steps[m].req, wr.entry)
            && (steps[m].req.expected != "" ==> s.store.artifacts[wr.artifact].current == steps[m].req.expected)
    ensures SafeRun(steps) ==>
              var s, wr, m := After(steps), After(steps).writers[w], LastRead(steps, w);
              IsRun(steps[..m]) && wr.artifact in After(steps[..m]).store.artifacts
              && wr.artifact in s.log && s.log[wr.artifact] != []
              && HeadOf(s.log[wr.artifact]) == s.store.artifacts[wr.artifact].current
              && wr.entry.id in s.store.versions
              && var read, head := Row(steps[..m], wr.artifact), s.store.artifacts[wr.artifact];
                 s.store.versions[wr.entry.id]
                 == Version(wr.artifact, read.branch, head.number + 1, head.current,
                            if steps[m].req.Restore? then steps[m].req.target else head.current)
  {
    SnapshotIsRead(steps, w);
    if SafeRun(steps) {
      RunKeepsInv(steps);
      CommitRow(After(steps), w);
    }
  }

  lemma CommitRow(s: System, w: nat)
    requires Inv(s) && w in s.writers && s.writers[w].Inserted?
    requires HeadIs(s.store, s.writers[w].artifact, s.writers[w].snap)
    ensures var wr := s.writers[w];
            wr.artifact in s.log && s.log[wr.artifact] != []
            && HeadOf(s.log[wr.artifact]) == s.store.artifacts[wr.artifact].current
            && wr.entry.id in s.store.versions
            && s.store.versions[wr.entry.id]
               == Version(wr.artifact, wr.snap.branch, wr.snap.number + 1, wr.snap.current,
                          if wr.entry.Restored? then wr.entry.target else wr.snap.current)
  {
    assert WriterOk(s, w, s.writers[w]);
    assert HistoryOk(s.store, s.writers[w].artifact, s.log[s.writers[w].artifact]);
  }

  lemma {:induction false} LogOnlyGrows(steps: seq<Step>, n: nat, a: Id)
    requires IsRun(steps) && n <= |steps| && IsRun(steps[..n]) && a in After(steps[..n]).log
    ensures a in After(steps).log && After(steps[..n]).log[a] <= After(steps).log[a]
    decreases |steps|
  {
    if n == |steps| {
      assert steps[..n] == steps;
    } else {
      var g := steps[..|steps| - 1];
      assert g[..n] == steps[..n];
      LogOnlyGrows(g, n, a);
      LogStep(After(g), steps[|steps| - 1], a);
    }
  }

  lemma LogStep(s: System, step: Step, a: Id)
    requires Enabled(s, step) && a in s.log
    ensures a in Do(s, step).log && s.log[a] <= Do(s, step).log[a]
  {
  }

  lemma WinIsLogged(s: System, w: nat, a: Id)
    requires CommitsTo(s, Advance(w), a) && a in s.log
    ensures a in Do(s, Advance(w)).log && Do(s, Advance(w)).log[a] == s.log[a] + [s.writers[w].entry]
  {
  }

  /** In h the entry e stands right after the version that was expected, if one was. */
  ghost predicate StandsAfter(h: seq<Entry>, n: nat, e: Entry, expected: Id) {
    0 < n < |h| && h[n] == e && (expected != "" ==> HeadOf(h[..n]) == expected)
  }

  lemma StandsInLonger(h: seq<Entry>, e: Entry, longer: seq<Entry>, expected: Id)
    requires h != [] && h + [e] <= longer && (expected != "" ==> HeadOf(h) == expected)
    ensures StandsAfter(longer, |h|, e, expected)
  {
    assert longer[..|h|] == h && longer[|h|] == (h + [e])[|h|];
  }

  /** Every entry an update or a restore ever committed, seen in the final history of a safe run:
      it is the operation asked for, and stands right after the version its call expected, whenever
      it expected one. */
  lemma CommittedAsExpected(steps: seq<Step>, k: nat, w: nat, a: Id)
    requires IsRun(steps) && SafeRun(steps) && k < |steps| && steps[k] == Advance(w) && IsRun(steps[..k])
    requires CommitsTo(After(steps[..k]), Advance(w), a)
    ensures var e, m := After(steps[..k]).writers[w].entry, LastRead(steps[..k], w);
            0 <= m < k && steps[m].Read? && steps[m].w == w && steps[m].artifact == a && Performs(steps[m].req, e)
            && a in After(steps[..k]).log && a in After(steps).log
            && StandsAfter(After(steps).log[a], |After(steps[..k]).log[a]|, e, steps[m].req.expected)
  {
    var g := steps[..k];
    RunPrefix(steps, k);
    CommitIsAsAsked(g, w);
    WinIsLogged(After(g), w, a);
    StepAt(steps, k);
    LogOnlyGrows(steps, k + 1, a);
    var m := LastRead(g, w);
    assert g[m] == steps[m];
    StandsInLonger(After(g).log[a], After(g).writers[w].entry, After(steps).log[a], steps[m].req.expected);
  }

  /** A call that names a base which is not the head it reads never commits. */
  lemma StaleNeverCommits(steps: seq<Step>, m: nat, w: nat)
    requires IsRun(steps) && m < |steps| && steps[m].Read? && steps[m].w == w && IsRun(steps[..m])
    requires steps[m].artifact in After(steps[..m]).store.artifacts && steps[m].req.expected != ""
    requires Row(steps[..m], steps[m].artifact).current != steps[m].req.expected
    ensures w in After(steps).writers && After(steps).writers[w] != Done(true)
  {
    StepAt(steps, m);
    CallsStay(steps, m + 1, w);
    if After(steps).writers[w] == Done(true) {
      SnapshotIsRead(steps, w);
      ReadOnce(steps, m, w);
    }
  }

  lemma {:induction false} CallsStay(steps: seq<Step>, n: nat, w: nat)
    requires IsRun(steps) && n <= |steps| && IsRun(steps[..n]) && w in After(steps[..n]).writers
    ensures w in After(steps).writers
    decreases |steps|
  {
    if n == |steps| {
      assert steps[..n] == steps;
    } else {
      var g := steps[..|steps| - 1];
      assert g[..n] == steps[..n];
      CallsStay(g, n, w);
      CallStays(After(g), steps[|steps| - 1], w);
    }
  }

  lemma CallStays(s: System, step: Step, w: nat)
    requires Enabled(s, step) && w in s.writers
    ensures w in Do(s, step).writers
  {
  }

  /** A call reads once at its start; only the loser of a compare-and-set reads again. */
  lemma {:induction false} ReadOnce(steps: seq<Step>, m: nat, w: nat)
    requires IsRun(steps) && m < |steps| && steps[m].Read? && steps[m].w == w
    ensures var l := LastRead(steps, w);
            m <= l < |steps| && (steps[l].Read? ==> l == m)
    decreases |steps|
  {
    var n := |steps| - 1;
    if m < n {
      var g := steps[..n];
      assert g[m] == steps[m];
      if ReadsRow(steps[n], w) {
        StepAt(steps, m);
        assert g[..m + 1] == steps[..m + 1];
        CallsStay(g, m + 1, w);
      } else {
        ReadOnce(g, m, w);
      }
    }
  }

  // ---------------------------------------------------------------- the branch column

  /** A commit keeps the branch it finds exactly when the branch is the one its call read, and
      only a full-row save of the artifact since then can have changed it. */
  lemma CommitKeepsBranchIff(steps: seq<Step>, w: nat)
    requires IsRun(steps) && w in After(steps).writers && After(steps).writers[w].Inserted?
    requires HeadIs(After(steps).store, After(steps).writers[w].artifact, After(steps).writers[w].snap)
    ensures var a := After(steps).writers[w].artifact;
            var m := LastRead(steps, w);
            0 <= m < |steps| && steps[m].Read? && steps[m].w == w
            && IsRun(steps[..m]) && a in After(steps[..m]).store.artifacts
            && (DoAdvance(After(steps), w).store.artifacts[a].branch == Row(steps, a).branch
                <==> Row(steps[..m], a).branch == Row(steps, a).branch)
            && (NoSaves(steps, m, a) ==> Row(steps[..m], a) == Row(steps, a))
  {
    SnapshotIsRead(steps, w);
    RowWithoutSaves(steps, LastRead(steps, w), After(steps).writers[w].artifact);
  }

  // ---------------------------------------------------------------- full-row saves

  /** A full-row save other than a branch switch leaves the head where it finds it exactly when
      the row is the one its call read: without another save in between, exactly when there was
      no commit in between. */
  lemma SaveKeepsHeadIff(steps: seq<Step>, w: nat)
    requires IsRun(steps) && w in After(steps).writers && After(steps).writers[w].Saving?
    requires LastRead(steps, w) >= 0 ==> !steps[LastRead(steps, w)].StartBranch?
    ensures var a := After(steps).writers[w].artifact;
            var m := LastRead(steps, w);
            0 <= m < |steps| && ReadsRow(steps[m], w) && IsRun(steps[..m])
            && a in After(steps[..m]).store.artifacts && a in After(steps).store.artifacts
            && (DoSaveRow(After(steps), w).store.artifacts == After(steps).store.artifacts
                <==> Row(steps[..m], a) == Row(steps, a))
            && (NoSaves(steps, m, a) ==>
                  ((DoSaveRow(After(steps), w).store.artifacts == After(steps).store.artifacts)
                   <==> NoCommits(steps, m, a)))
  {
    SnapshotIsRead(steps, w);
    var s, m := After(steps), LastRead(steps, w);
    var a := s.writers[w].artifact;
    RowWithoutSaves(steps, m, a);
    SaveIsNoChange(s.store.artifacts, a, s.writers[w].row);
  }

  lemma SaveIsNoChange(rows: map<Id, Artifact>, a: Id, row: Artifact)
    requires a in rows
    ensures rows[a := row] == rows <==> rows[a] == row
  {
    assert rows[a := row][a] == row;
  }

  // ---------------------------------------------------------------- losers

  /** Past its compare-and-set a losing call holds its version until it rolls back. */
  predicate LostOrOver(wr: Writer, a: Id, v: Id) {
    wr == Lost(a, v) || wr.RolledBack? || wr.Saving? || wr.Done?
  }

  lemma LostStep(s: System, step: Step, w: nat, a: Id, v: Id)
    requires Enabled(s, step) && w in s.writers && LostOrOver(s.writers[w], a, v)
    ensures w in Do(s, step).writers && LostOrOver(Do(s, step).writers[w], a, v)
    ensures Do(s, step).writers[w].Lost? ==> s.writers[w].Lost? && Caller(step) != Some(w)
  {
  }

  /** Between losing and rolling back a call takes no step, however long that lasts. */
  lemma {:induction false} LostMeanwhile(steps: seq<Step>, m: nat, w: nat, a: Id, v: Id)
    requires IsRun(steps) && m <= |steps| && IsRun(steps[..m])
    requires w in After(steps[..m]).writers && LostOrOver(After(steps[..m]).writers[w], a, v)
    ensures w in After(steps).writers && LostOrOver(After(steps).writers[w], a, v)
    ensures After(steps).writers[w].Lost? ==>
              After(steps[..m]).writers[w].Lost? && forall k :: m <= k < |steps| ==> Caller(steps[k]) != Some(w)
    decreases |steps|
  {
    if m == |steps| {
      assert steps[..m] == steps;
    } else {
      var n := |steps| - 1;
      var g := steps[..n];
      assert g[..m] == steps[..m];
      LostMeanwhile(g, m, w, a, v);
      LostStep(After(g), steps[n], w, a, v);
      forall k | m <= k < n ensures g[k] == steps[k] {}
    }
  }

  /** The compare-and-set of w finds another head and changes nothing stored. */
  ghost predicate Loses(s: System, s': System, w: nat) {
    Enabled(s, Advance(w)) && !HeadIs(s.store, s.writers[w].artifact, s.writers[w].snap)
    && s'.store == s.store && s'.log == s.log
  }

  /** From s to s' exactly the row of v went, for good. */
  ghost predicate RemovesOnly(s: System, s': System, v: Id) {
    s'.store == s.store.(versions := s.store.versions - {v}) && s'.log == s.log && Gone(s', v)
  }

  lemma AdvanceSettles(s: System, w: nat)
    requires Enabled(s, Advance(w))
    ensures var wr := s.writers[w];
            var t := Do(s, Advance(w));
            LostOrOver(t.writers[w], wr.artifact, wr.entry.id)
            && (t.writers[w].Lost? <==> Loses(s, t, w))
  {
  }

  lemma RollbackRemoves(s: System, w: nat)
    requires Drawn(s) && Enabled(s, Rollback(w))
    ensures RemovesOnly(s, Do(s, Rollback(w)), s.writers[w].id)
  {
    var v := s.writers[w].id;
    var t := Do(s, Rollback(w));
    assert DrawnBy(s, w, s.writers[w]);
    forall u | u in t.writers ensures !Holds(t.writers[u], v) {
      if u != w { assert DrawnBy(s, u, s.writers[u]); }
    }
  }

  /** One step of a run, seen from its prefixes. */
  lemma StepAt(steps: seq<Step>, k: nat)
    requires IsRun(steps) && k < |steps|
    ensures IsRun(steps[..k]) && IsRun(steps[..k + 1]) && Enabled(After(steps[..k]), steps[k])
    ensures After(steps[..k + 1]) == Do(After(steps[..k]), steps[k])
  {
    RunPrefix(steps, k + 1);
    assert steps[..k + 1][..k] == steps[..k];
  }

  /** Over every run: a call that is to roll back lost its compare-and-set, which changed nothing
      stored, and since then, whatever other calls did, it took no step and still holds the
      version it prepared. */
  lemma LoserWaits(steps: seq<Step>, m: nat, w: nat)
    requires IsRun(steps) && m < |steps| && steps[m] == Advance(w) && Enabled(After(steps), Rollback(w))
    ensures IsRun(steps[..m]) && IsRun(steps[..m + 1]) && Loses(After(steps[..m]), After(steps[..m + 1]), w)
    ensures var wr := After(steps[..m]).writers[w];
            After(steps).writers[w] == Lost(wr.artifact, wr.entry.id)
            && forall k :: m < k < |steps| ==> Caller(steps[k]) != Some(w)
  {
    StepAt(steps, m);
    var wr := After(steps[..m]).writers[w];
    AdvanceSettles(After(steps[..m]), w);
    LostMeanwhile(steps, m + 1, w, wr.artifact, wr.entry.id);
  }

  /** Rolling back then removes exactly that version's row, moves no head, and the version never
      comes back, whatever happens next. */
  lemma LoserLeavesNoRow(steps: seq<Step>, n: nat, w: nat)
    requires IsRun(steps) && n < |steps| && steps[n] == Rollback(w)
    ensures IsRun(steps[..n]) && IsRun(steps[..n + 1]) && Enabled(After(steps[..n]), Rollback(w))
    ensures var v := After(steps[..n]).writers[w].id;
            RemovesOnly(After(steps[..n]), After(steps[..n + 1]), v) && Gone(After(steps), v)
  {
    StepAt(steps, n);
    RunKeepsDrawn(steps[..n]);
    RollbackRemoves(After(steps[..n]), w);
    RolledBackForever(steps, n + 1, After(steps[..n]).writers[w].id);
  }

  /** Until it marks the conflict, no step of a call that lost has moved any head. */
  lemma LoserMovesNoHead(steps: seq<Step>, k: nat, w: nat)
    requires IsRun(steps) && k < |steps| && Caller(steps[k]) == Some(w)
    requires w in After(steps).writers && (After(steps).writers[w].Lost? || After(steps).writers[w].RolledBack?)
    ensures IsRun(steps[..k]) && IsRun(steps[..k + 1])
    ensures After(steps[..k + 1]).store.artifacts == After(steps[..k]).store.artifacts
  {
    StepAt(steps, k);
    var s := After(steps[..k]);
    if Do(s, steps[k]).store.artifacts != s.store.artifacts {
      MovesThenDone(s, steps[k], w);
      DoneStays(steps, k + 1, w);
    }
  }

  lemma MovesThenDone(s: System, step: Step, w: nat)
    requires Enabled(s, step) && Caller(step) == Some(w) && Do(s, step).store.artifacts != s.store.artifacts
    ensures w in Do(s, step).writers && Do(s, step).writers[w].Done?
  {
  }

  lemma {:induction false} DoneStays(steps: seq<Step>, m: nat, w: nat)
    requires IsRun(steps) && m <= |steps| && IsRun(steps[..m])
    requires w in After(steps[..m]).writers && After(steps[..m]).writers[w].Done?
    ensures w in After(steps).writers && After(steps).writers[w].Done?
    decreases |steps|
  {
    if m == |steps| {
      assert steps[..m] == steps;
    } else {
      var g := steps[..|steps| - 1];
      assert g[..m] == steps[..m];
      DoneStays(g, m, w);
      DoneStep(After(g), steps[|steps| - 1], w);
    }
  }

  lemma DoneStep(s: System, step: Step, w: nat)
    requires Enabled(s, step) && w in s.writers && s.writers[w].Done?
    ensures w in Do(s, step).writers && Do(s, step).writers[w].Done?
  {
  }
}
