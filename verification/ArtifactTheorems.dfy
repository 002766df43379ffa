/** What whole runs of the artifact protocol guarantee. */
module ArtifactTheorems {

  import opened Wrappers
  import opened ArtifactProtocol
  import opened ArtifactInvariant

  /** A run all of whose full-row saves are fresh. */
  predicate SafeRun(steps: seq<Step>)
    requires IsRun(steps)
  {
    steps == [] || (SafeRun(steps[..|steps| - 1]) && Safe(After(steps[..|steps| - 1]), steps[|steps| - 1]))
  }

  lemma {:induction false} RunKeepsInv(steps: seq<Step>)
    requires IsRun(steps) && SafeRun(steps)
    ensures Inv(After(steps))
  {
    if steps != [] {
      RunKeepsInv(steps[..|steps| - 1]);
      StepKeeps(After(steps[..|steps| - 1]), steps[|steps| - 1]);
    }
  }

  // ---------------------------------------------------------------- no lost update

  ghost predicate Distinct(c: seq<Id>) {
    forall i, j :: 0 <= i < j < |c| ==> c[i] != c[j]
  }

  lemma CommittedDistinct(st: Store, a: Id, c: seq<Id>)
    requires VersionsOk(st, a, c)
    ensures Distinct(c)
  {
    forall i, j | 0 <= i < j < |c| ensures c[i] != c[j] {
      assert VersionAt(st, a, c, i) && VersionAt(st, a, c, j);
    }
  }

  lemma DistinctPrefix(h: seq<Entry>)
    requires h != [] && Distinct(Committed(h))
    ensures var g := h[..|h| - 1];
            Distinct(Committed(g)) && (!h[|h| - 1].Moved? ==> h[|h| - 1].id !in Committed(g))
  {
    var g := h[..|h| - 1];
    assert Committed(g) <= Committed(h);
    forall x, y | 0 <= x < y < |Committed(g)| ensures Committed(g)[x] != Committed(g)[y] {
      assert Committed(h)[x] == Committed(g)[x] && Committed(h)[y] == Committed(g)[y];
    }
    if !h[|h| - 1].Moved? {
      assert Committed(h)[|Committed(g)|] == h[|h| - 1].id;
    }
  }

  lemma {:induction false} ContentsStable(h: seq<Entry>, i: nat, v: Id)
    requires i <= |h| && v in Committed(h[..i]) && Distinct(Committed(h))
    ensures v in Committed(h)
    ensures v in Contents(h[..i]) ==> v in Contents(h) && Contents(h)[v] == Contents(h[..i])[v]
    decreases |h|
  {
    if i == |h| {
      assert h[..i] == h;
    } else {
      var g := h[..|h| - 1];
      assert g[..i] == h[..i];
      DistinctPrefix(h);
      ContentsStable(g, i, v);
    }
  }

  lemma {:induction false} ContentsCover(h: seq<Entry>, v: Id)
    requires v in Committed(h)
    ensures v in Contents(h)
  {
    var g := h[..|h| - 1];
    if v in Committed(g) { ContentsCover(g, v); }
  }

  lemma EntryCommits(h: seq<Entry>, i: nat)
    requires i < |h| && !h[i].Moved?
    ensures h[i].id in Committed(h[..i + 1])
    ensures h[..i + 1][..i] == h[..i]
  {
    assert h[..i + 1][..i] == h[..i];
    assert h[..i + 1][i] == h[i];
  }

  /** Each committed update is its edit applied to the stored content of the version that was
      head just before it (or to "" when the code's read of that version failed). */
  lemma {:induction false} CommittedUpdateUsesPreviousHead(steps: seq<Step>, a: Id, i: nat)
    requires IsRun(steps) && SafeRun(steps) && a in After(steps).log
    requires i < |After(steps).log[a]| && After(steps).log[a][i].Updated?
    ensures i > 0
    ensures var s := After(steps);
            var e := s.log[a][i];
            var base := HeadOf(s.log[a][..i]);
            ReadContent(s.store, e.id).Some? && ReadContent(s.store, base).Some?
            && e.edit(if e.readOk then ReadContent(s.store, base).value else "")
               == Ok(ReadContent(s.store, e.id).value)
  {
    var s := After(steps);
    var h := s.log[a];
    RunKeepsInv(steps);
    assert HistoryOk(s.store, a, h);
    CommittedDistinct(s.store, a, Committed(h));
    assert h[i] != h[0];
    EntryCommits(h, i);
    var base := HeadOf(h[..i]);
    ContentsCover(h[..i], base);
    ContentsCover(h[..i + 1], h[i].id);
    ContentsStable(h, i, base);
    ContentsStable(h, i + 1, h[i].id);
    CommittedHasRow(s.store, a, h, base);
    CommittedHasRow(s.store, a, h, h[i].id);
    assert Given(h, i).0(Given(h, i).1).Ok?;
  }

  // ---------------------------------------------------------------- restores

  /** The restore at position i named a version that was committed by then. */
  predicate TargetCommitted(h: seq<Entry>, i: nat)
    requires i < |h| && h[i].Restored?
  {
    h[i].target in Committed(h[..i])
  }

  ghost predicate TargetsCommitted(h: seq<Entry>) {
    forall i :: 0 <= i < |h| && h[i].Restored? ==> TargetCommitted(h, i)
  }

  /** A restore of a committed version recorded what that version contains. */
  ghost predicate RestoresMatch(h: seq<Entry>) {
    forall i :: 0 <= i < |h| && h[i].Restored? && TargetCommitted(h, i) ==> RestoreMatches(h, i)
  }

  predicate RestoreMatches(h: seq<Entry>, i: nat)
    requires i < |h| && h[i].Restored?
  {
    h[i].target in Contents(h[..i]) && Contents(h[..i])[h[i].target] == h[i].content
  }

  lemma RestoresDoMatch(st: Store, a: Id, h: seq<Entry>)
    requires HistoryOk(st, a, h) && Distinct(Committed(h))
    ensures RestoresMatch(h)
  {
    forall i | 0 <= i < |h| && h[i].Restored? && TargetCommitted(h, i) ensures RestoreMatches(h, i) {
      ContentsCover(h[..i], h[i].target);
      ContentsStable(h, i, h[i].target);
      assert HasBlob(st, a, h[i].target, h[i].content);
    }
  }

  lemma PrefixFacts(h: seq<Entry>)
    requires h != []
    ensures var g := h[..|h| - 1];
            (RestoresMatch(h) ==> RestoresMatch(g))
            && (TargetsCommitted(h) <==>
                  TargetsCommitted(g) && (h[|h| - 1].Restored? ==> h[|h| - 1].target in Committed(g)))
  {
    var g := h[..|h| - 1];
    forall i | 0 <= i < |g| ensures g[..i] == h[..i] && g[i] == h[i] {}
    if RestoresMatch(h) {
      forall i | 0 <= i < |g| && g[i].Restored? && TargetCommitted(g, i) ensures RestoreMatches(g, i) {
        assert TargetCommitted(h, i) && RestoreMatches(h, i);
      }
    }
    if TargetsCommitted(h) {
      forall i | 0 <= i < |g| && g[i].Restored? ensures TargetCommitted(g, i) { assert TargetCommitted(h, i); }
      assert h[|h| - 1].Restored? ==> TargetCommitted(h, |h| - 1);
    }
    if TargetsCommitted(g) && (h[|h| - 1].Restored? ==> h[|h| - 1].target in Committed(g)) {
      forall i | 0 <= i < |h| && h[i].Restored? ensures TargetCommitted(h, i) {
        if i < |g| { assert TargetCommitted(g, i); }
      }
    }
  }

  /** Where the history determines a content it is the one recorded. */
  lemma {:induction false} ReplayAgrees(h: seq<Entry>)
    requires RestoresMatch(h) && Distinct(Committed(h))
    ensures forall v :: v in Replay(h) ==> v in Committed(h) && v in Contents(h) && Replay(h)[v] == Contents(h)[v]
  {
    if h != [] {
      var g, last := h[..|h| - 1], h[|h| - 1];
      PrefixFacts(h);
      DistinctPrefix(h);
      ReplayAgrees(g);
      if last.Restored? && last.target in Replay(g) {
        assert TargetCommitted(h, |h| - 1) && RestoreMatches(h, |h| - 1);
      }
    }
  }

  ghost predicate AllReplayed(h: seq<Entry>) {
    forall v :: v in Committed(h) ==> v in Replay(h)
  }

  /** The history determines every committed content exactly when every restore named a
      committed version. */
  lemma {:induction false} ReplayedIff(h: seq<Entry>)
    requires RestoresMatch(h) && Distinct(Committed(h)) && HeadsOk(h) && (h != [] ==> h[0].Created?)
    ensures AllReplayed(h) <==> TargetsCommitted(h)
  {
    if h != [] {
      var g, last := h[..|h| - 1], h[|h| - 1];
      PrefixFacts(h);
      DistinctPrefix(h);
      HeadsPrefix(h);
      assert g != [] ==> g[0] == h[0];
      ReplayedIff(g);
      ReplayAgrees(g);
      LastReplayed(h);
    }
  }

  lemma HeadsPrefix(h: seq<Entry>)
    requires h != [] && HeadsOk(h)
    ensures var g := h[..|h| - 1]; HeadsOk(g) && (g != [] ==> HeadOf(g) in Committed(g))
  {
    var g := h[..|h| - 1];
    forall i | 0 < i <= |g| ensures HeadOf(g[..i]) in Committed(g[..i]) {
      assert g[..i] == h[..i];
    }
    assert g[..|g|] == g;
  }

  /** One more entry: it is determined if what it rests on is. */
  lemma LastReplayed(h: seq<Entry>)
    requires h != [] && h[0].Created?
    requires var g := h[..|h| - 1];
             (forall v :: v in Replay(g) ==> v in Committed(g)) && (g != [] ==> HeadOf(g) in Committed(g))
             && (!h[|h| - 1].Moved? ==> h[|h| - 1].id !in Committed(g))
    ensures var g, last := h[..|h| - 1], h[|h| - 1];
            AllReplayed(h) <==> AllReplayed(g) && (last.Restored? ==> last.target in Committed(g))
  {
    var g, last := h[..|h| - 1], h[|h| - 1];
    if AllReplayed(h) {
      forall v | v in Committed(g) ensures v in Replay(g) { assert v in Committed(h) && v in Replay(h); }
      if last.Restored? { assert last.id in Committed(h) && last.id in Replay(h) && last.id !in Replay(g); }
    }
    if AllReplayed(g) && (last.Restored? ==> last.target in Committed(g)) {
      forall v | v in Committed(h) ensures v in Replay(h) {
        if v in Committed(g) { assert v in Replay(g); }
      }
    }
  }

  lemma HistoryReplays(st: Store, a: Id, h: seq<Entry>)
    requires HistoryOk(st, a, h)
    ensures Distinct(Committed(h)) && RestoresMatch(h) && (AllReplayed(h) <==> TargetsCommitted(h))
    ensures forall v :: v in Replay(h) ==> ReadContent(st, v) == Some(Replay(h)[v])
  {
    CommittedDistinct(st, a, Committed(h));
    RestoresDoMatch(st, a, h);
    ReplayedIff(h);
    ReplayAgrees(h);
    forall v | v in Replay(h) ensures ReadContent(st, v) == Some(Replay(h)[v]) {
      CommittedHasRow(st, a, h, v);
    }
  }

  /** The stored contents are the committed operations applied in commit order. What the history
      replays to is what is stored; it replays every commit, the head among them, exactly when
      every restore named a version that was committed. */
  lemma HeadContentIsReplay(steps: seq<Step>, a: Id)
    requires IsRun(steps) && SafeRun(steps) && a in After(steps).store.artifacts
    ensures var s := After(steps);
            a in s.log
            && (forall v :: v in Replay(s.log[a]) ==> ReadContent(s.store, v) == Some(Replay(s.log[a])[v]))
            && (AllReplayed(s.log[a]) <==> TargetsCommitted(s.log[a]))
            && s.store.artifacts[a].current in Committed(s.log[a])
  {
    var s := After(steps);
    RunKeepsInv(steps);
    assert HistoryOk(s.store, a, s.log[a]);
    HistoryReplays(s.store, a, s.log[a]);
  }

  /** A committed restore carries the content its target had when it was read. That is what
      replaying the history before it gives for the target exactly when the target was a
      committed version. */
  lemma RestoreReplaysTargetIff(steps: seq<Step>, a: Id, i: nat)
    requires IsRun(steps) && SafeRun(steps) && a in After(steps).log
    requires i < |After(steps).log[a]| && After(steps).log[a][i].Restored?
    ensures var s := After(steps);
            var h := s.log[a];
            var e := h[i];
            ReadContent(s.store, e.id) == Some(e.content) && HasBlob(s.store, a, e.target, e.content)
            && (TargetCommitted(h, i) ==> ReadContent(s.store, e.target) == Some(e.content))
            && (RestoreMatches(h, i) <==> TargetCommitted(h, i))
            && (TargetsCommitted(h[..i]) ==>
                  (e.target in Replay(h[..i]) && Replay(h[..i])[e.target] == e.content <==> TargetCommitted(h, i)))
  {
    var s := After(steps);
    RunKeepsInv(steps);
    assert HistoryOk(s.store, a, s.log[a]);
    RestoreCarries(s.store, a, s.log[a], i);
    RestoreMatchesIff(s.store, a, s.log[a], i);
  }

  lemma RestoreCarries(st: Store, a: Id, h: seq<Entry>, i: nat)
    requires HistoryOk(st, a, h) && i < |h| && h[i].Restored?
    ensures ReadContent(st, h[i].id) == Some(h[i].content) && HasBlob(st, a, h[i].target, h[i].content)
    ensures TargetCommitted(h, i) ==> ReadContent(st, h[i].target) == Some(h[i].content)
  {
    CommittedDistinct(st, a, Committed(h));
    EntryCommits(h, i);
    ContentsCover(h[..i + 1], h[i].id);
    ContentsStable(h, i + 1, h[i].id);
    CommittedHasRow(st, a, h, h[i].id);
    if TargetCommitted(h, i) {
      ContentsStable(h, i, h[i].target);
      CommittedHasRow(st, a, h, h[i].target);
    }
  }

  lemma RestoreMatchesIff(st: Store, a: Id, h: seq<Entry>, i: nat)
    requires HistoryOk(st, a, h) && i < |h| && h[i].Restored?
    ensures RestoreMatches(h, i) <==> TargetCommitted(h, i)
    ensures TargetsCommitted(h[..i]) ==>
              (h[i].target in Replay(h[..i]) && Replay(h[..i])[h[i].target] == h[i].content <==> TargetCommitted(h, i))
  {
    CommittedDistinct(st, a, Committed(h));
    RestoresDoMatch(st, a, h);
    PrefixReplays(h, i);
    ContentsWithin(h[..i]);
  }

  /** Restoring what was the head before any number of later operations brings its content back. */
  lemma RestoreUndoes(steps: seq<Step>, a: Id, j: nat, i: nat)
    requires IsRun(steps) && SafeRun(steps) && a in After(steps).log
    requires 0 < j <= i < |After(steps).log[a]| && After(steps).log[a][i].Restored?
    requires After(steps).log[a][i].target == HeadOf(After(steps).log[a][..j])
    ensures var s := After(steps);
            var h := s.log[a];
            ReadContent(s.store, h[i].id).Some?
            && ReadContent(s.store, h[i].id) == ReadContent(s.store, HeadOf(h[..j]))
  {
    var s := After(steps);
    var h := s.log[a];
    RunKeepsInv(steps);
    assert HistoryOk(s.store, a, h);
    assert HeadOf(h[..j]) in Committed(h[..j]);
    CommittedGrows(h, j, i);
    RestoreReplaysTargetIff(steps, a, i);
  }

  lemma {:induction false} CommittedGrows(h: seq<Entry>, j: nat, i: nat)
    requires j <= i <= |h|
    ensures Committed(h[..j]) <= Committed(h[..i])
    decreases i
  {
    if j < i {
      CommittedGrows(h, j, i - 1);
      assert h[..i][..i - 1] == h[..i - 1];
    }
  }

  lemma {:induction false} ContentsWithin(h: seq<Entry>)
    ensures forall v :: v in Contents(h) ==> v in Committed(h)
  {
    if h != [] { ContentsWithin(h[..|h| - 1]); }
  }

  lemma {:induction false} PrefixReplays(h: seq<Entry>, i: nat)
    requires i <= |h| && RestoresMatch(h) && Distinct(Committed(h)) && HeadsOk(h) && (h != [] ==> h[0].Created?)
    ensures AllReplayed(h[..i]) <==> TargetsCommitted(h[..i])
    ensures forall v :: v in Replay(h[..i]) ==>
              v in Committed(h[..i]) && v in Contents(h[..i]) && Replay(h[..i])[v] == Contents(h[..i])[v]
    decreases |h|
  {
    if i == |h| {
      assert h[..i] == h;
      ReplayedIff(h);
      ReplayAgrees(h);
    } else {
      var g := h[..|h| - 1];
      PrefixFacts(h);
      DistinctPrefix(h);
      HeadsPrefix(h);
      assert g[..i] == h[..i] && (g != [] ==> g[0] == h[0]);
      PrefixReplays(g, i);
    }
  }

  // ---------------------------------------------------------------- numbering and ancestry

  /** Committed version numbers are exactly 1..HeadVersionNumber, each used once: the i-th of
      the HeadVersionNumber distinct commits carries number i + 1. */
  lemma NumbersAreExact(steps: seq<Step>, a: Id)
    requires IsRun(steps) && SafeRun(steps) && a in After(steps).log
    ensures var s := After(steps);
            var c := Committed(s.log[a]);
            a in s.store.artifacts && |c| == s.store.artifacts[a].number && Distinct(c)
            && forall i :: 0 <= i < |c| ==> c[i] in s.store.versions && s.store.versions[c[i]].number == i + 1
  {
    var s := After(steps);
    var c := Committed(s.log[a]);
    RunKeepsInv(steps);
    assert HistoryOk(s.store, a, s.log[a]);
    CommittedDistinct(s.store, a, c);
    forall i | 0 <= i < |c| ensures c[i] in s.store.versions && s.store.versions[c[i]].number == i + 1 {
      assert VersionAt(s.store, a, c, i);
    }
  }

  /** The k-th version above v along parent_version_id. */
  function Ancestor(st: Store, v: Id, k: nat): Id
    decreases k
  {
    if k == 0 then v
    else if v in st.versions then Ancestor(st, st.versions[v].parent, k - 1)
    else ""
  }

  lemma {:induction false} ClimbsToRoot(st: Store, a: Id, c: seq<Id>, i: nat) returns (k: nat)
    requires VersionsOk(st, a, c) && i < |c|
    ensures k <= i && Ancestor(st, c[i], k) == c[0]
    decreases i
  {
    assert VersionAt(st, a, c, i);
    if i == 0 {
      k := 0;
    } else {
      var j :| 0 <= j < i && c[j] == st.versions[c[i]].parent;
      var up := ClimbsToRoot(st, a, c, j);
      k := up + 1;
    }
  }

  lemma FirstCommit(h: seq<Entry>)
    requires h != [] && h[0].Created?
    ensures Committed(h) != [] && Committed(h)[0] == h[0].id
  {
    if |h| > 1 {
      assert h[..|h| - 1][0] == h[0];
      FirstCommit(h[..|h| - 1]);
    }
  }

  /** History is a tree rooted at the creation version: every committed version but the first
      has a committed parent with a smaller number, and climbs to the creation version. */
  lemma HistoryIsATree(steps: seq<Step>, a: Id, v: Id)
    requires IsRun(steps) && SafeRun(steps) && a in After(steps).log && v in Committed(After(steps).log[a])
    ensures var s := After(steps);
            var c := Committed(s.log[a]);
            var ver := s.store.versions;
            s.log[a] != [] && s.log[a][0].Created? && v in ver
            && (v != s.log[a][0].id ==>
                  ver[v].parent in c && ver[v].parent in ver && ver[ver[v].parent].number < ver[v].number)
            && exists k :: 0 <= k < ver[v].number && Ancestor(s.store, v, k) == s.log[a][0].id
  {
    var s := After(steps);
    var c := Committed(s.log[a]);
    RunKeepsInv(steps);
    assert HistoryOk(s.store, a, s.log[a]);
    FirstCommit(s.log[a]);
    var i :| 0 <= i < |c| && c[i] == v;
    assert VersionAt(s.store, a, c, i);
    if i > 0 {
      var j :| 0 <= j < i && c[j] == s.store.versions[v].parent;
      assert VersionAt(s.store, a, c, j);
    }
    var k := ClimbsToRoot(s.store, a, c, i);
  }

  // ---------------------------------------------------------------- losers and immutability

  /** Ids held by calls are the ones they drew, and unwritten ones have no blob yet.
      This much holds on every run, with or without fresh saves. */
  ghost predicate Drawn(s: System) {
    (forall k :: k in s.store.blobs ==> k.version in s.owner)
    && (forall v :: v in s.store.versions ==> v in s.owner)
    && (forall w :: w in s.writers ==> DrawnBy(s, w, s.writers[w]))
  }

  ghost predicate DrawnBy(s: System, w: int, wr: Writer) {
    ((wr.Loaded? || wr.Stored? || wr.Inserted?) ==> wr.entry.id in s.owner && s.owner[wr.entry.id].call == w)
    && (wr.Lost? ==> wr.id in s.owner && s.owner[wr.id].call == w)
    && (wr.Loaded? ==> BlobKey(wr.artifact, wr.entry.id) !in s.store.blobs)
  }

  /** Blobs are kept, and only drawn ids are written. */
  lemma DrawnStore(s: System, step: Step)
    requires Drawn(s) && Enabled(s, step)
    ensures var st, st' := s.store, Do(s, step).store;
            (forall k :: k in st.blobs ==> k in st'.blobs && st'.blobs[k] == st.blobs[k])
            && (forall k :: k in st'.blobs ==> k.version in Do(s, step).owner)
            && (forall v :: v in st'.versions ==> v in Do(s, step).owner)
  {
    if step.Put? || step.Insert? { assert DrawnBy(s, step.w, s.writers[step.w]); }
  }

  /** A step changes the phase of its own call only, and writes only the blob that call drew. */
  lemma OtherCall(s: System, step: Step, w: nat)
    requires Enabled(s, step) && (step.Create? || step.w != w)
    ensures w in Do(s, step).writers <==> w in s.writers
    ensures w in s.writers ==> Do(s, step).writers[w] == s.writers[w]
    ensures forall v :: v in s.owner ==> v in Do(s, step).owner && Do(s, step).owner[v] == s.owner[v]
  {
  }

  /** The id whose blob a step writes. */
  function Writes(s: System, step: Step): Option<Id>
    requires Enabled(s, step)
  {
    match step
    case Create(_, _, v, _) => Some(v)
    case Put(w) => Some(s.writers[w].entry.id)
    case _ => None
  }

  lemma NewBlobs(s: System, step: Step)
    requires Enabled(s, step)
    ensures forall k :: k in Do(s, step).store.blobs && k !in s.store.blobs ==> Writes(s, step) == Some(k.version)
  {
  }

  lemma DrawnOther(s: System, step: Step, w: nat)
    requires Drawn(s) && Enabled(s, step) && w in s.writers && (step.Create? || step.w != w)
    ensures w in Do(s, step).writers && DrawnBy(Do(s, step), w, Do(s, step).writers[w])
  {
    OtherCall(s, step, w);
    NewBlobs(s, step);
    assert DrawnBy(s, w, s.writers[w]);
    if step.Put? { assert DrawnBy(s, step.w, s.writers[step.w]); }
  }

  lemma DrawnOwn(s: System, step: Step)
    requires Drawn(s) && Enabled(s, step) && !step.Create?
    ensures step.w in Do(s, step).writers && DrawnBy(Do(s, step), step.w, Do(s, step).writers[step.w])
  {
    if step.w in s.writers { assert DrawnBy(s, step.w, s.writers[step.w]); }
  }

  lemma DrawnWriter(s: System, step: Step, w: nat)
    requires Drawn(s) && Enabled(s, step) && w in Do(s, step).writers
    ensures DrawnBy(Do(s, step), w, Do(s, step).writers[w])
  {
    if step.Create? || step.w != w {
      OtherCall(s, step, w);
      DrawnOther(s, step, w);
    } else {
      DrawnOwn(s, step);
    }
  }

  lemma DrawnStep(s: System, step: Step)
    requires Drawn(s) && Enabled(s, step)
    ensures Drawn(Do(s, step))
    ensures forall k :: k in s.store.blobs ==>
              k in Do(s, step).store.blobs && Do(s, step).store.blobs[k] == s.store.blobs[k]
  {
    DrawnStore(s, step);
    forall w | w in Do(s, step).writers ensures DrawnBy(Do(s, step), w, Do(s, step).writers[w]) {
      DrawnWriter(s, step, w);
    }
  }

  lemma {:induction false} RunKeepsDrawn(steps: seq<Step>)
    requires IsRun(steps)
    ensures Drawn(After(steps))
  {
    if steps != [] {
      RunKeepsDrawn(steps[..|steps| - 1]);
      DrawnStep(After(steps[..|steps| - 1]), steps[|steps| - 1]);
    }
  }

  lemma {:induction false} RunPrefix(steps: seq<Step>, n: nat)
    requires IsRun(steps) && n <= |steps|
    ensures IsRun(steps[..n]) && (SafeRun(steps) ==> SafeRun(steps[..n]))
    decreases |steps|
  {
    if n == |steps| {
      assert steps[..n] == steps;
    } else {
      RunPrefix(steps[..|steps| - 1], n);
      assert steps[..|steps| - 1][..n] == steps[..n];
    }
  }

  /** Stored content never changes: on every run, safe or not, a blob once written keeps its value. */
  lemma {:induction false} BlobsAreImmutable(steps: seq<Step>, n: nat, k: BlobKey)
    requires IsRun(steps) && n <= |steps| && IsRun(steps[..n]) && k in After(steps[..n]).store.blobs
    ensures k in After(steps).store.blobs && After(steps).store.blobs[k] == After(steps[..n]).store.blobs[k]
    decreases |steps|
  {
    if n == |steps| {
      assert steps[..n] == steps;
    } else {
      var g := steps[..|steps| - 1];
      assert g[..n] == steps[..n];
      BlobsAreImmutable(g, n, k);
      RunKeepsDrawn(g);
      DrawnStep(After(g), steps[|steps| - 1]);
    }
  }

  /** From s to s' a's commits only grew, and commit v has the same row and readable content. */
  ghost predicate KeepsCommit(s: System, s': System, a: Id, v: Id) {
    a in s.log && a in s'.log && Committed(s.log[a]) <= Committed(s'.log[a])
    && v in s.store.versions && v in s'.store.versions && s'.store.versions[v] == s.store.versions[v]
    && ReadContent(s.store, v).Some? && ReadContent(s'.store, v) == ReadContent(s.store, v)
  }

  lemma KeepsCommitThen(s: System, t: System, u: System, a: Id, v: Id)
    requires KeepsCommit(s, t, a, v) && KeepsCommit(t, u, a, v)
    ensures KeepsCommit(s, u, a, v)
  {
  }

  lemma CommitIsReadable(s: System, a: Id, v: Id)
    requires Inv(s) && a in s.log && v in Committed(s.log[a])
    ensures KeepsCommit(s, s, a, v)
  {
    assert HistoryOk(s.store, a, s.log[a]);
    CommittedHasRow(s.store, a, s.log[a], v);
  }

  /** A committed version row, and what reading it returns, is the same in every later state. */
  lemma {:induction false} CommitsAreForever(steps: seq<Step>, n: nat, a: Id, v: Id)
    requires IsRun(steps) && SafeRun(steps) && n <= |steps| && IsRun(steps[..n])
    requires a in After(steps[..n]).log && v in Committed(After(steps[..n]).log[a])
    ensures KeepsCommit(After(steps[..n]), After(steps), a, v)
    decreases |steps|
  {
    if n == |steps| {
      assert steps[..n] == steps;
      RunKeepsInv(steps);
      CommitIsReadable(After(steps), a, v);
    } else {
      var g := steps[..|steps| - 1];
      assert g[..n] == steps[..n];
      CommitsAreForever(g, n, a, v);
      RunKeepsInv(g);
      RunKeepsDrawn(g);
      CommitStaysOneStep(After(g), steps[|steps| - 1], a, v);
      KeepsCommitThen(After(steps[..n]), After(g), After(steps), a, v);
    }
  }

  lemma LogStays(s: System, step: Step, a: Id)
    requires Enabled(s, step) && a in s.log
    requires step.Advance? ==> s.writers[step.w].entry.id !in Committed(History(s, s.writers[step.w].artifact))
    ensures a in Do(s, step).log && Committed(s.log[a]) <= Committed(Do(s, step).log[a])
  {
    if step.Advance? {
      LogGrows(s, s.writers[step.w].artifact, s.writers[step.w].entry, a);
    } else if step.SaveRow? {
      LogGrows(s, s.writers[step.w].artifact, Moved(s.writers[step.w].row.current), a);
    }
  }

  /** One artifact's history grows by an entry that commits a new id or none. */
  lemma LogGrows(s: System, b: Id, e: Entry, a: Id)
    requires a in s.log && (!e.Moved? ==> e.id !in Committed(History(s, b)))
    ensures Committed(s.log[a]) <= Committed(s.log[b := History(s, b) + [e]][a])
  {
    HistoryGrowsByOne(History(s, b), e);
  }

  lemma RowStays(s: System, step: Step, v: Id)
    requires Enabled(s, step) && v in s.store.versions && v in s.owner
    requires step.Insert? ==> s.writers[step.w].entry.id != v
    requires step.Rollback? ==> s.writers[step.w].id != v
    ensures v in Do(s, step).store.versions && Do(s, step).store.versions[v] == s.store.versions[v]
  {
  }

  lemma ActsOnUncommitted(s: System, step: Step, a: Id, v: Id)
    requires Inv(s) && Enabled(s, step) && a in s.log && v in Committed(s.log[a])
    requires step.Insert? || step.Rollback? || step.Advance?
    ensures step.Insert? ==> s.writers[step.w].entry.id != v
    ensures step.Rollback? ==> s.writers[step.w].id != v
    ensures step.Advance? ==> s.writers[step.w].entry.id !in Committed(History(s, s.writers[step.w].artifact))
  {
    assert WriterOk(s, step.w, s.writers[step.w]);
    assert HistoryOk(s.store, a, s.log[a]);
    CommittedHasRow(s.store, a, s.log[a], v);
  }

  lemma CommitStaysOneStep(s: System, step: Step, a: Id, v: Id)
    requires Inv(s) && Drawn(s) && Enabled(s, step) && a in s.log && v in Committed(s.log[a])
    ensures KeepsCommit(s, Do(s, step), a, v)
  {
    assert HistoryOk(s.store, a, s.log[a]);
    CommittedHasRow(s.store, a, s.log[a], v);
    if step.Insert? || step.Rollback? || step.Advance? { ActsOnUncommitted(s, step, a, v); }
    LogStays(s, step, a);
    RowStays(s, step, v);
    DrawnStep(s, step);
  }

  /** A version id that was drawn, has no row and belongs to no call any more. */
  ghost predicate Gone(s: System, v: Id) {
    v in s.owner && v !in s.store.versions && forall w :: w in s.writers ==> !Holds(s.writers[w], v)
  }

  /** A rolled-back version never comes back, whatever happens next. */
  lemma {:induction false} RolledBackForever(steps: seq<Step>, n: nat, v: Id)
    requires IsRun(steps) && n <= |steps| && IsRun(steps[..n]) && Gone(After(steps[..n]), v)
    ensures Gone(After(steps), v)
    decreases |steps|
  {
    if n == |steps| {
      assert steps[..n] == steps;
    } else {
      var g := steps[..|steps| - 1];
      assert g[..n] == steps[..n];
      RolledBackForever(g, n, v);
      GoneOneStep(After(g), steps[|steps| - 1], v);
    }
  }

  lemma GoneOneStep(s: System, step: Step, v: Id)
    requires Gone(s, v) && Enabled(s, step)
    ensures Gone(Do(s, step), v)
  {
    var s' := Do(s, step);
    if step.Insert? { assert Holds(s.writers[step.w], s.writers[step.w].entry.id); }
    forall w | w in s'.writers ensures !Holds(s'.writers[w], v) {
      if w in s.writers { assert !Holds(s.writers[w], v); }
    }
  }
}
