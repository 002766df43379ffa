/** Runs without branch switches: full-row saves that are fresh leave every head where it is. */
module ArtifactStraight {

  import opened Wrappers
  import opened ArtifactProtocol
  import opened ArtifactInvariant
  import opened ArtifactTheorems

  /** The row's version is the commit its number says. */
  predicate OnLine(h: seq<Entry>, row: Artifact) {
    1 <= row.number <= |Committed(h)| && row.current == Committed(h)[row.number - 1]
  }

  /** Every full-row save in the history installed the version that was head already. */
  ghost predicate MovesStay(h: seq<Entry>) {
    forall i :: 0 < i < |h| && h[i].Moved? ==> h[i].id == HeadOf(h[..i])
  }

  /** The row a call holds. */
  function Held(wr: Writer): Option<(Id, Artifact)> {
    match wr
    case Checking(a, _, snap) => Some((a, snap))
    case Reading(a, _, snap) => Some((a, snap))
    case Loaded(a, snap, _, _) => Some((a, snap))
    case Stored(a, snap, _, _) => Some((a, snap))
    case Inserted(a, snap, _, _) => Some((a, snap))
    case Saving(a, row) => Some((a, row))
    case _ => None
  }

  ghost predicate HeldOnLine(s: System, wr: Writer) {
    !wr.Branching?
    && (Held(wr).Some? ==> Held(wr).value.0 in s.log && OnLine(s.log[Held(wr).value.0], Held(wr).value.1))
  }

  ghost predicate LogsStraight(s: System) {
    forall a :: a in s.log ==> a in s.store.artifacts && OnLine(s.log[a], s.store.artifacts[a]) && MovesStay(s.log[a])
  }

  ghost predicate Straight(s: System) {
    LogsStraight(s) && forall w :: w in s.writers ==> HeldOnLine(s, s.writers[w])
  }

  /** Histories only grow. */
  ghost predicate LogsGrow(s: System, s': System) {
    forall a :: a in s.log ==> a in s'.log && Committed(s.log[a]) <= Committed(s'.log[a])
  }

  lemma HeldGrows(s: System, s': System, wr: Writer)
    requires HeldOnLine(s, wr) && LogsGrow(s, s')
    ensures HeldOnLine(s', wr)
  {
  }

  predicate Reads(step: Step) {
    step.Read? || step.Reread? || step.StartSave?
  }

  /** A reading step takes the stored row. */
  lemma ReadStep(s: System, step: Step)
    requires Enabled(s, step) && Reads(step)
    ensures var wr := Do(s, step).writers[step.w];
            !wr.Branching?
            && (Held(wr).Some? ==> Held(wr).value.0 in s.store.artifacts
                                   && Held(wr).value.1 == s.store.artifacts[Held(wr).value.0])
  {
  }

  /** Any other step of a call keeps its row or gives it up. */
  lemma KeepStep(s: System, step: Step)
    requires Enabled(s, step) && !step.StartBranch? && !step.Create? && !Reads(step) && !s.writers[step.w].Branching?
    ensures var wr := Do(s, step).writers[step.w];
            !wr.Branching? && (Held(wr).Some? ==> Held(wr) == Held(s.writers[step.w]))
  {
  }

  /** What a step leaves its own call with. */
  lemma OwnStep(s: System, step: Step, w: nat)
    requires LogsStraight(s) && s.log.Keys == s.store.artifacts.Keys && Enabled(s, step)
    requires !step.StartBranch? && !step.Create? && step.w == w && (w in s.writers ==> HeldOnLine(s, s.writers[w]))
    ensures w in Do(s, step).writers && HeldOnLine(s, Do(s, step).writers[w])
  {
    if Reads(step) { ReadStep(s, step); } else { KeepStep(s, step); }
  }

  lemma OthersStay(s: System, step: Step, w: nat)
    requires Enabled(s, step) && w in Do(s, step).writers && (step.Create? || step.w != w)
    ensures w in s.writers && Do(s, step).writers[w] == s.writers[w]
  {
  }

  lemma MovesExtend(h: seq<Entry>, e: Entry)
    requires MovesStay(h) && h != [] && (e.Moved? ==> e.id == HeadOf(h))
    ensures MovesStay(h + [e])
  {
    var h' := h + [e];
    forall i | 0 < i < |h'| && h'[i].Moved? ensures h'[i].id == HeadOf(h'[..i]) {
      assert h'[..i] == if i < |h| then h[..i] else h;
    }
  }

  lemma GrowsAt(s: System, step: Step)
    requires Inv(s) && Enabled(s, step)
    ensures LogsGrow(s, Do(s, step))
  {
    if step.Advance? { assert WriterOk(s, step.w, s.writers[step.w]); }
    forall a | a in s.log ensures a in Do(s, step).log && Committed(s.log[a]) <= Committed(Do(s, step).log[a]) {
      LogStays(s, step, a);
    }
  }

  lemma CreateStraight(s: System, a: Id, b: Id, v: Id, content: string)
    requires LogsStraight(s) && a !in s.log
    ensures LogsStraight(DoCreate(s, a, b, v, content))
  {
    var h := [Created(v, content)];
    assert h[..0] == [] && Committed(h) == [v];
  }

  lemma AdvanceStraight(s: System, w: nat)
    requires LogsStraight(s) && w in s.writers && s.writers[w].Inserted? && WriterOk(s, w, s.writers[w])
    requires var a := s.writers[w].artifact; a in s.log && HistoryOk(s.store, a, s.log[a])
    ensures LogsStraight(DoAdvance(s, w))
  {
    var wr := s.writers[w];
    var h := s.log[wr.artifact];
    HistoryGrowsByOne(h, wr.entry);
    MovesExtend(h, wr.entry);
  }

  /** A fresh save of a row that is on line saves the head there is. */
  lemma SaveRowStraight(s: System, w: nat)
    requires LogsStraight(s) && w in s.writers && s.writers[w].Saving? && HeldOnLine(s, s.writers[w])
    requires FreshSave(s, w)
    requires var a := s.writers[w].artifact; RowOk(s.store.artifacts[a], s.log[a])
    ensures LogsStraight(DoSaveRow(s, w))
  {
    var wr := s.writers[w];
    var h := s.log[wr.artifact];
    SavesHead(s.store.artifacts[wr.artifact], wr.row, h);
    HistoryGrowsByOne(h, Moved(wr.row.current));
    MovesExtend(h, Moved(wr.row.current));
    assert OnLine(h + [Moved(wr.row.current)], wr.row);
  }

  lemma SavesHead(stored: Artifact, row: Artifact, h: seq<Entry>)
    requires RowOk(stored, h) && OnLine(h, stored) && OnLine(h, row) && row.number == stored.number
    ensures row.current == HeadOf(h) && h != []
  {
  }

  lemma LogsStep(s: System, step: Step)
    requires Inv(s) && Straight(s) && Enabled(s, step) && Safe(s, step) && !step.StartBranch?
    ensures LogsStraight(Do(s, step))
  {
    match step
    case Create(a, b, v, content) => CreateStraight(s, a, b, v, content);
    case Advance(w) =>
      assert WriterOk(s, w, s.writers[w]);
      assert HistoryOk(s.store, s.writers[w].artifact, s.log[s.writers[w].artifact]);
      AdvanceStraight(s, w);
    case SaveRow(w) =>
      assert HeldOnLine(s, s.writers[w]);
      assert HistoryOk(s.store, s.writers[w].artifact, s.log[s.writers[w].artifact]);
      SaveRowStraight(s, w);
    case _ =>
  }

  lemma StepStaysStraight(s: System, step: Step)
    requires Inv(s) && Straight(s) && Enabled(s, step) && Safe(s, step) && !step.StartBranch?
    ensures Straight(Do(s, step))
  {
    LogsStep(s, step);
    GrowsAt(s, step);
    KeysMatch(s);
    forall w | w in Do(s, step).writers ensures HeldOnLine(Do(s, step), Do(s, step).writers[w]) {
      HeldStep(s, step, w);
    }
  }

  lemma KeysMatch(s: System)
    requires Inv(s)
    ensures s.log.Keys == s.store.artifacts.Keys
  {
  }

  lemma HeldStep(s: System, step: Step, w: nat)
    requires Straight(s) && s.log.Keys == s.store.artifacts.Keys && Enabled(s, step) && !step.StartBranch?
    requires LogsGrow(s, Do(s, step)) && w in Do(s, step).writers
    ensures HeldOnLine(Do(s, step), Do(s, step).writers[w])
  {
    if step.Create? || step.w != w {
      OthersStay(s, step, w);
    } else {
      OwnStep(s, step, w);
    }
    HeldGrows(s, Do(s, step), Do(s, step).writers[w]);
  }

  predicate NoBranching(steps: seq<Step>) {
    forall i :: 0 <= i < |steps| ==> !steps[i].StartBranch?
  }

  /** In every safe run without branch switches the head is the latest commit, every row a call
      holds is a point of the commit order, and every full-row save, be it a conflict mark, an
      archive or a lifecycle change, leaves the head where it is. */
  lemma {:induction false} RunIsStraight(steps: seq<Step>)
    requires IsRun(steps) && SafeRun(steps) && NoBranching(steps)
    ensures Straight(After(steps))
  {
    if steps != [] {
      var g := steps[..|steps| - 1];
      RunIsStraight(g);
      RunKeepsInv(g);
      StepStaysStraight(After(g), steps[|steps| - 1]);
    }
  }
}
