/**
Runs of the artifact protocol in which something a caller would expect does not hold, for every
choice of identifiers and texts.
 */
module ArtifactWitnesses {

  import opened Wrappers
  import opened ArtifactProtocol
  import opened ArtifactInvariant
  import opened ArtifactTheorems

  // ---------------------------------------------------------------- building runs

  lemma Extend(steps: seq<Step>, step: Step)
    requires IsRun(steps) && Enabled(After(steps), step)
    ensures IsRun(steps + [step]) && After(steps + [step]) == Do(After(steps), step)
    ensures SafeRun(steps) && Safe(After(steps), step) ==> SafeRun(steps + [step])
  {
    assert (steps + [step])[..|steps|] == steps;
  }

  /** An append, as prepareContentForOperation computes it. */
  function AppendEdit(text: string): Edit {
    (base: string) => Ok(base + text)
  }

  /** The names a scenario uses: an artifact with its first branch, version and content, and an
      addition. */
  datatype Scene = Scene(a: Id, main: Id, v1: Id, x: string, y: string)

  function Head1(c: Scene): Artifact {
    Artifact(c.main, c.v1, 1)
  }

  function Created1(c: Scene): System {
    DoCreate(EMPTY, c.a, c.main, c.v1, c.x)
  }

  function Append(c: Scene): Request {
    Update(AppendEdit(c.y), "")
  }

  /** The store after CreateArtifact, then call 0 reading the head for an append. */
  lemma ReadForAppend(c: Scene) returns (steps: seq<Step>)
    requires c.v1 != ""
    ensures IsRun(steps) && SafeRun(steps)
    ensures After(steps) == SetWriter(Created1(c), 0, Reading(c.a, Append(c), Head1(c)))
  {
    Extend([], Create(c.a, c.main, c.v1, c.x));
    steps := [] + [Create(c.a, c.main, c.v1, c.x)];
    Extend(steps, Read(0, c.a, Append(c)));
    steps := steps + [Read(0, c.a, Append(c))];
  }

  function Prepared(s: System, w: nat, a: Id, snap: Artifact, e: Entry, content: string): System {
    System(
      s.store.(versions := s.store.versions[e.id := NewVersion(a, snap, e)],
               blobs := s.store.blobs[BlobKey(a, e.id) := content]),
      s.writers[w := Inserted(a, snap, e, content)],
      s.owner[e.id := Owner(a, w)],
      s.log)
  }

  /** A reading call whose content can be computed prepares its version undisturbed. */
  lemma Prepare(before: seq<Step>, w: nat, v: Id, readOk: bool) returns (steps: seq<Step>)
    requires IsRun(before) && Enabled(After(before), Load(w, v, readOk))
    requires AfterLoad(After(before), After(before).writers[w], v, readOk).Loaded?
    ensures IsRun(steps) && before <= steps && (SafeRun(before) ==> SafeRun(steps))
    ensures var s := After(before);
            var l := AfterLoad(s, s.writers[w], v, readOk);
            After(steps) == Prepared(s, w, l.artifact, l.snap, l.entry, l.content)
  {
    var s := After(before);
    Extend(before, Load(w, v, readOk));
    var s1 := before + [Load(w, v, readOk)];
    Extend(s1, Put(w));
    var s2 := s1 + [Put(w)];
    Extend(s2, Insert(w));
    steps := s2 + [Insert(w)];
    Overwrite(s.writers, w, After(s1).writers[w], After(s2).writers[w]);
    Overwrite(s.writers, w, After(s2).writers[w], After(steps).writers[w]);
  }

  /** A call that finds its head moved loses and rolls back. */
  lemma Lose(before: seq<Step>, w: nat) returns (steps: seq<Step>)
    requires IsRun(before) && w in After(before).writers && After(before).writers[w].Inserted?
    requires !HeadIs(After(before).store, After(before).writers[w].artifact, After(before).writers[w].snap)
    ensures IsRun(steps) && before <= steps && (SafeRun(before) ==> SafeRun(steps))
    ensures var s := After(before);
            var wr := s.writers[w];
            After(steps) == s.(writers := s.writers[w := RolledBack(wr.artifact)],
                               store := s.store.(versions := s.store.versions - {wr.entry.id}))
  {
    Extend(before, Advance(w));
    var lost := before + [Advance(w)];
    Extend(lost, Rollback(w));
    steps := lost + [Rollback(w)];
    var s := After(before);
    Overwrite(s.writers, w, After(lost).writers[w], After(steps).writers[w]);
  }

  /** A commit that nobody disturbs. */
  lemma Win(before: seq<Step>, w: nat) returns (steps: seq<Step>)
    requires IsRun(before) && w in After(before).writers && After(before).writers[w].Inserted?
    requires HeadIs(After(before).store, After(before).writers[w].artifact, After(before).writers[w].snap)
    ensures IsRun(steps) && before <= steps && (SafeRun(before) ==> SafeRun(steps))
    ensures After(steps) == Won(After(before), w)
  {
    Extend(before, Advance(w));
    steps := before + [Advance(w)];
  }

  function Won(s: System, w: nat): System
    requires w in s.writers && s.writers[w].Inserted?
  {
    var wr := s.writers[w];
    s.(writers := s.writers[w := Done(true)],
       store := SaveHead(s.store, wr.artifact, Artifact(wr.snap.branch, wr.entry.id, wr.snap.number + 1)),
       log := s.log[wr.artifact := History(s, wr.artifact) + [wr.entry]])
  }

  function Switched(s: System, w: nat, a: Id, row: Artifact): System {
    s.(writers := s.writers[w := Done(false)], store := SaveHead(s.store, a, row),
       log := s.log[a := History(s, a) + [Moved(row.current)]])
  }

  /** A branch switch that nobody disturbs. */
  lemma Branch(before: seq<Step>, w: nat, a: Id, wanted: Id, b: Id) returns (steps: seq<Step>)
    requires IsRun(before) && w !in After(before).writers
    requires a in After(before).store.artifacts && a in After(before).log
    requires BelongsTo(After(before).store, BranchBase(After(before).store.artifacts[a], wanted), a)
    ensures IsRun(steps) && before <= steps
    ensures var s := After(before);
            var row := s.store.artifacts[a];
            var base := BranchBase(row, wanted);
            After(steps) == Switched(s, w, a, Artifact(b, base, row.number))
            && (SafeRun(before) && base in Committed(s.log[a]) ==> SafeRun(steps))
  {
    var s := After(before);
    Extend(before, StartBranch(w, a, wanted, b));
    var s1 := before + [StartBranch(w, a, wanted, b)];
    Extend(s1, Check(w));
    var s2 := s1 + [Check(w)];
    Extend(s2, SaveRow(w));
    steps := s2 + [SaveRow(w)];
    Overwrite(s.writers, w, After(s1).writers[w], After(s2).writers[w]);
    Overwrite(s.writers, w, After(s2).writers[w], Done(false));
  }

  lemma Overwrite(m: map<nat, Writer>, w: nat, x: Writer, y: Writer)
    ensures m[w := x][w := y] == m[w := y]
  {
  }

  /** What reading for the append and loading it prepares. */
  lemma LoadsAppend(s: System, w: nat, c: Scene, v: Id, readOk: bool)
    requires w in s.writers && s.writers[w] == Reading(c.a, Append(c), Head1(c))
    requires ReadContent(s.store, c.v1) == Some(c.x)
    ensures Enabled(s, Load(w, v, readOk)) <==> v !in s.owner && v != ""
    ensures AfterLoad(s, s.writers[w], v, readOk)
         == Loaded(c.a, Head1(c), Updated(v, AppendEdit(c.y), readOk), (if readOk then c.x else "") + c.y)
  {
  }

  /** Call 0 has prepared its append, the first version still being the head. */
  lemma AppendReady(c: Scene, v2: Id, readOk: bool) returns (steps: seq<Step>)
    requires c.v1 != "" && v2 != "" && v2 != c.v1
    ensures IsRun(steps) && SafeRun(steps)
    ensures var content := (if readOk then c.x else "") + c.y;
            After(steps) == Prepared(Created1(c), 0, c.a, Head1(c), Updated(v2, AppendEdit(c.y), readOk), content)
  {
    var read := ReadForAppend(c);
    LoadsAppend(After(read), 0, c, v2, readOk);
    steps := Prepare(read, 0, v2, readOk);
    Overwrite(Created1(c).writers, 0, After(read).writers[0], After(steps).writers[0]);
  }

  // ---------------------------------------------------------------- full-row saves

  /** A lifecycle change that read its row before a commit and saves it after: the head goes
      back to the old version although the update was reported as committed. */
  lemma StaleSaveUndoesCommit(c: Scene, v2: Id) returns (steps: seq<Step>)
    requires c.v1 != "" && v2 != "" && v2 != c.v1
    ensures IsRun(steps)
    ensures var s := After(steps);
            c.a in s.store.artifacts && s.store.artifacts[c.a] == Head1(c)
            && 0 in s.writers && s.writers[0] == Done(true)
            && c.a in s.log && v2 in Committed(s.log[c.a])
            && !Inv(s)
  {
    var won := CommitUnderSave(c, v2);
    Extend(won, SaveRow(1));
    steps := won + [SaveRow(1)];
    var h := After(won).log[c.a];
    HistoryGrowsByOne(h, Moved(c.v1));
    NotInv(After(steps), c.a);
  }

  /** Call 0 commits v2 while call 1 holds the row it read before. */
  lemma CommitUnderSave(c: Scene, v2: Id) returns (steps: seq<Step>)
    requires c.v1 != "" && v2 != "" && v2 != c.v1
    ensures IsRun(steps)
    ensures var s := After(steps);
            0 in s.writers && s.writers[0] == Done(true) && 1 in s.writers && s.writers[1] == Saving(c.a, Head1(c))
            && c.a in s.log && Committed(s.log[c.a]) == [c.v1, v2]
  {
    var ready := AppendReady(c, v2, true);
    Extend(ready, StartSave(1, c.a));
    steps := Win(ready + [StartSave(1, c.a)], 0);
    TwoCommits(Created(c.v1, c.x), Updated(v2, AppendEdit(c.y), true));
    assert After(steps).log[c.a] == [Created(c.v1, c.x), Updated(v2, AppendEdit(c.y), true)];
  }

  lemma NotInv(s: System, a: Id)
    requires a in s.log && a in s.store.artifacts && !RowOk(s.store.artifacts[a], s.log[a])
    ensures !Inv(s)
  {
    assert !HistoryOk(s.store, a, s.log[a]);
  }

  lemma TwoCommits(first: Entry, second: Entry)
    requires !first.Moved? && !second.Moved? && first.id != second.id
    ensures Committed([first, second]) == [first.id, second.id]
  {
    assert [first][..0] == [] && Committed([first]) == [first.id];
    HistoryGrowsByOne([first], second);
    assert [first] + [second] == [first, second];
  }

  /** A branch switch to a version row that is written but not committed: when its writer then
      loses and rolls back, the head names a version that no longer exists. */
  lemma BranchFromUncommittedDangles(c: Scene, v2: Id, b: Id) returns (steps: seq<Step>)
    requires c.v1 != "" && v2 != "" && v2 != c.v1
    ensures IsRun(steps)
    ensures var s := After(steps);
            c.a in s.store.artifacts && s.store.artifacts[c.a].current == v2
            && v2 !in s.store.versions && ReadContent(s.store, v2) == None
  {
    var ready := AppendReady(c, v2, true);
    var switched := Branch(ready, 1, c.a, v2, b);
    steps := Lose(switched, 0);
  }

  /** Call 1 has committed v2, and call 0, which had read the same head, lost and rolled back. */
  lemma TwoWriters(c: Scene, v2: Id, v3: Id) returns (steps: seq<Step>)
    requires c.v1 != "" && v2 != "" && v3 != "" && c.v1 != v2 && c.v1 != v3 && v2 != v3
    ensures IsRun(steps) && SafeRun(steps)
    ensures var s := After(steps);
            c.a in s.store.artifacts && s.store.artifacts[c.a] == Artifact(c.main, v2, 2)
            && 0 in s.writers && s.writers[0] == RolledBack(c.a) && 2 !in s.writers
            && BelongsTo(s.store, c.v1, c.a)
            && c.a in s.log && s.log[c.a] == [Created(c.v1, c.x), Updated(v2, AppendEdit(c.y), true)]
  {
    var won := FirstWins(c, v2);
    LoadsAppend(After(won), 0, c, v3, true);
    var second := Prepare(won, 0, v3, true);
    steps := Lose(second, 0);
  }

  /** Both calls have read the first head, and call 1 has committed v2. */
  lemma FirstWins(c: Scene, v2: Id) returns (steps: seq<Step>)
    requires c.v1 != "" && v2 != "" && c.v1 != v2
    ensures IsRun(steps) && SafeRun(steps)
    ensures var s := After(steps);
            c.a in s.store.artifacts && s.store.artifacts[c.a] == Artifact(c.main, v2, 2)
            && 0 in s.writers && s.writers[0] == Reading(c.a, Append(c), Head1(c)) && 2 !in s.writers
            && BelongsTo(s.store, c.v1, c.a) && ReadContent(s.store, c.v1) == Some(c.x)
            && s.owner.Keys == {c.v1, v2}
            && c.a in s.log && s.log[c.a] == [Created(c.v1, c.x), Updated(v2, AppendEdit(c.y), true)]
  {
    var first := FirstReady(c, v2);
    steps := Win(first, 1);
  }

  lemma FirstReady(c: Scene, v2: Id) returns (steps: seq<Step>)
    requires c.v1 != "" && v2 != "" && c.v1 != v2
    ensures IsRun(steps) && SafeRun(steps)
    ensures var r := Reading(c.a, Append(c), Head1(c));
            var both := Created1(c).(writers := map[0 := r, 1 := r]);
            After(steps) == Prepared(both, 1, c.a, Head1(c), Updated(v2, AppendEdit(c.y), true), c.x + c.y)
  {
    var both := BothReading(c);
    LoadsAppend(After(both), 1, c, v2, true);
    steps := Prepare(both, 1, v2, true);
  }

  lemma BothReading(c: Scene) returns (steps: seq<Step>)
    requires c.v1 != ""
    ensures IsRun(steps) && SafeRun(steps)
    ensures var r := Reading(c.a, Append(c), Head1(c));
            After(steps) == Created1(c).(writers := map[0 := r, 1 := r])
  {
    var read := ReadForAppend(c);
    Extend(read, Read(1, c.a, Append(c)));
    steps := read + [Read(1, c.a, Append(c))];
  }

  /** A loser's conflict mark undoes a branch switch, although every save is fresh: it re-reads
      the row, a switch to branch b completes, and its save puts the row back. */
  lemma ConflictMarkUndoesBranchSwitch(c: Scene, v2: Id, v3: Id, b: Id)
    returns (switched: seq<Step>, steps: seq<Step>)
    requires c.v1 != "" && v2 != "" && v3 != "" && c.v1 != v2 && c.v1 != v3 && v2 != v3
    ensures IsRun(switched) && IsRun(steps) && SafeRun(steps) && switched <= steps
    ensures var rows := After(switched).store.artifacts; c.a in rows && rows[c.a] == Artifact(b, c.v1, 2)
    ensures var rows := After(steps).store.artifacts; c.a in rows && rows[c.a] == Artifact(c.main, v2, 2)
  {
    var start := TwoWriters(c, v2, v3);
    var h := After(start).log[c.a];
    TwoCommits(h[0], h[1]);
    Extend(start, Reread(0));
    switched := Branch(start + [Reread(0)], 2, c.a, c.v1, b);
    HistoryGrowsByOne(h, Moved(c.v1));
    assert After(switched).log[c.a] == h + [Moved(c.v1)];
    Extend(switched, SaveRow(0));
    steps := switched + [SaveRow(0)];
  }

  /** The compare-and-set looks at version id and number but writes the branch of its snapshot:
      a switch to a new branch at the current head is undone by a commit already under way. */
  lemma CommitUndoesBranchSwitch(c: Scene, v2: Id, b: Id) returns (switched: seq<Step>, steps: seq<Step>)
    requires c.v1 != "" && v2 != "" && v2 != c.v1
    ensures IsRun(switched) && IsRun(steps) && SafeRun(steps) && switched <= steps
    ensures var rows := After(switched).store.artifacts; c.a in rows && rows[c.a] == Artifact(b, c.v1, 1)
    ensures var rows := After(steps).store.artifacts; c.a in rows && rows[c.a] == Artifact(c.main, v2, 2)
  {
    var ready := AppendReady(c, v2, true);
    assert [Created(c.v1, c.x)][..0] == [] && Committed([Created(c.v1, c.x)]) == [c.v1];
    switched := Branch(ready, 1, c.a, "", b);
    steps := Win(switched, 0);
  }

  // ---------------------------------------------------------------- content

  /** When the base version cannot be read the code goes on with empty content, so an append
      commits only the addition. */
  lemma FailedReadDropsBase(c: Scene, v2: Id) returns (steps: seq<Step>)
    requires c.v1 != "" && v2 != "" && v2 != c.v1
    ensures IsRun(steps) && SafeRun(steps)
    ensures var s := After(steps);
            0 in s.writers && s.writers[0] == Done(true)
            && c.a in s.store.artifacts && s.store.artifacts[c.a].current == v2
            && ReadContent(s.store, c.v1) == Some(c.x) && ReadContent(s.store, v2) == Some(c.y)
  {
    var ready := AppendReady(c, v2, false);
    assert "" + c.y == c.y;
    steps := Win(ready, 0);
  }

  /** A restore that nobody disturbs, up to its version row. */
  lemma PrepareRestore(before: seq<Step>, w: nat, a: Id, target: Id, v: Id) returns (steps: seq<Step>)
    requires IsRun(before) && w !in After(before).writers && v !in After(before).owner && v != ""
    requires a in After(before).store.artifacts && BelongsTo(After(before).store, target, a)
    requires ReadContent(After(before).store, target).Some?
    ensures IsRun(steps) && before <= steps && (SafeRun(before) ==> SafeRun(steps))
    ensures var s := After(before);
            var content := ReadContent(s.store, target).value;
            After(steps) == Prepared(s, w, a, s.store.artifacts[a], Restored(v, target, content), content)
  {
    var s := After(before);
    var checked := ReadForRestore(before, w, a, target);
    steps := Prepare(checked, w, v, true);
    Overwrite(s.writers, w, After(checked).writers[w], After(steps).writers[w]);
  }

  lemma ReadForRestore(before: seq<Step>, w: nat, a: Id, target: Id) returns (steps: seq<Step>)
    requires IsRun(before) && w !in After(before).writers
    requires a in After(before).store.artifacts && BelongsTo(After(before).store, target, a)
    ensures IsRun(steps) && before <= steps && (SafeRun(before) ==> SafeRun(steps))
    ensures var s := After(before);
            After(steps) == SetWriter(s, w, Reading(a, Restore(target, ""), s.store.artifacts[a]))
  {
    var s := After(before);
    Extend(before, Read(w, a, Restore(target, "")));
    var read := before + [Read(w, a, Restore(target, ""))];
    Extend(read, Check(w));
    steps := read + [Check(w)];
    Overwrite(s.writers, w, After(read).writers[w], After(steps).writers[w]);
  }

  /** A restore may name a version that is written and not committed: it commits that content,
      and when the version's own call then loses and rolls back, the head holds an update that
      is in no history. No save is involved, and replaying the history gives no such content. */
  lemma RestoreKeepsRolledBackUpdate(c: Scene, v2: Id, v3: Id) returns (steps: seq<Step>)
    requires c.v1 != "" && v2 != "" && v3 != "" && c.v1 != v2 && c.v1 != v3 && v2 != v3
    ensures IsRun(steps) && SafeRun(steps)
    ensures var s := After(steps);
            c.a in s.store.artifacts && s.store.artifacts[c.a].current == v3
            && ReadContent(s.store, v3) == Some(c.x + c.y) && v2 !in s.store.versions
            && c.a in s.log && s.log[c.a] == [Created(c.v1, c.x), Restored(v3, v2, c.x + c.y)]
            && v2 !in Committed(s.log[c.a]) && v3 !in Replay(s.log[c.a])
  {
    var restored := RestoreUncommitted(c, v2, v3);
    steps := Lose(restored, 0);
    NotReplayed(c.v1, v2, v3, c.x, c.x + c.y);
  }

  /** Call 1 has restored the version that call 0 has written and not committed. */
  lemma RestoreUncommitted(c: Scene, v2: Id, v3: Id) returns (steps: seq<Step>)
    requires c.v1 != "" && v2 != "" && v3 != "" && c.v1 != v2 && c.v1 != v3 && v2 != v3
    ensures IsRun(steps) && SafeRun(steps)
    ensures var s := After(steps);
            c.a in s.store.artifacts && s.store.artifacts[c.a] == Artifact(c.main, v3, 2)
            && 0 in s.writers
            && s.writers[0] == Inserted(c.a, Head1(c), Updated(v2, AppendEdit(c.y), true), c.x + c.y)
            && ReadContent(s.store, v3) == Some(c.x + c.y)
            && c.a in s.log && s.log[c.a] == [Created(c.v1, c.x), Restored(v3, v2, c.x + c.y)]
  {
    var ready := AppendReady(c, v2, true);
    var prepared := PrepareRestore(ready, 1, c.a, v2, v3);
    steps := Win(prepared, 1);
  }

  lemma NotReplayed(v1: Id, v2: Id, v3: Id, x: string, y: string)
    requires v1 != v2 && v1 != v3 && v2 != v3
    ensures var h := [Created(v1, x), Restored(v3, v2, y)];
            v2 !in Committed(h) && v3 !in Replay(h)
  {
    var h := [Created(v1, x), Restored(v3, v2, y)];
    var g := [Created(v1, x)];
    assert h[..1] == g && g[..0] == [];
    assert Committed(g) == [v1] && Replay(g) == map[v1 := x];
  }
}
