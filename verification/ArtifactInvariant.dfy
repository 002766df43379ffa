/**
What every reachable state of the artifact protocol satisfies, and exactly which steps
can break it.
 */
module ArtifactInvariant {

  import opened Wrappers
  import opened ArtifactProtocol

  // ---------------------------------------------------------------- the invariant

  /** Version c[i] carries number i + 1 and hangs below an earlier commit. */
  predicate VersionAt(st: Store, a: Id, c: seq<Id>, i: nat)
    requires i < |c|
  {
    c[i] in st.versions
    && st.versions[c[i]].artifact == a
    && st.versions[c[i]].number == i + 1
    && (if i == 0 then st.versions[c[i]].parent == "" else st.versions[c[i]].parent in c[..i])
  }

  ghost predicate VersionsOk(st: Store, a: Id, c: seq<Id>) {
    forall i :: 0 <= i < |c| ==> VersionAt(st, a, c, i)
  }

  predicate HasBlob(st: Store, a: Id, v: Id, content: string) {
    BlobKey(a, v) in st.blobs && st.blobs[BlobKey(a, v)] == content
  }

  ghost predicate ContentsOk(st: Store, a: Id, h: seq<Entry>) {
    forall v :: v in Committed(h) ==> v in Contents(h) && HasBlob(st, a, v, Contents(h)[v])
  }

  ghost predicate RestoresOk(st: Store, a: Id, h: seq<Entry>) {
    forall i :: 0 <= i < |h| && h[i].Restored? ==> HasBlob(st, a, h[i].target, h[i].content)
  }

  /** Every committed update's edit succeeded on the content it was given. */
  ghost predicate EditsOk(h: seq<Entry>) {
    forall i :: 0 <= i < |h| && h[i].Updated? ==> Given(h, i).0(Given(h, i).1).Ok?
  }

  /** The edit of entry i and its input: the content of the head just before it. */
  function Given(h: seq<Entry>, i: nat): (Edit, string)
    requires i < |h| && h[i].Updated?
  {
    (h[i].edit, if h[i].readOk then Lookup(Contents(h[..i]), h[..i]) else "")
  }

  /** At every point of the history the head was a committed version. */
  ghost predicate HeadsOk(h: seq<Entry>) {
    forall i :: 0 < i <= |h| ==> HeadOf(h[..i]) in Committed(h[..i])
  }

  /** The head columns agree with the history. */
  predicate RowOk(row: Artifact, h: seq<Entry>) {
    h != [] && row.number == |Committed(h)| && row.current == HeadOf(h) && HeadOf(h) in Committed(h)
  }

  ghost predicate HistoryOk(st: Store, a: Id, h: seq<Entry>) {
    a in st.artifacts && RowOk(st.artifacts[a], h) && h[0].Created?
    && VersionsOk(st, a, Committed(h)) && ContentsOk(st, a, h) && RestoresOk(st, a, h) && EditsOk(h) && HeadsOk(h)
  }

  predicate SnapOk(s: System, a: Id, snap: Artifact) {
    a in s.log && snap.current in Committed(s.log[a]) && snap.number <= |Committed(s.log[a])|
  }

  /** The content a call is about to commit is the one its entry promises. */
  ghost predicate PendingOk(s: System, w: int, a: Id, snap: Artifact, e: Entry, content: string)
    requires SnapOk(s, a, snap)
  {
    e.id in s.owner && s.owner[e.id] == Owner(a, w)
    && match e
       case Updated(_, edit, readOk) =>
         (readOk ==> snap.current in Contents(s.log[a]))
         && edit(if readOk then Contents(s.log[a])[snap.current] else "") == Ok(content)
       case Restored(_, target, c) => c == content && HasBlob(s.store, a, target, c)
       case _ => false
  }

  ghost predicate WriterOk(s: System, w: int, wr: Writer) {
    match wr
    case Checking(a, req, snap) => SnapOk(s, a, snap)
    case Branching(a, snap, _, _) => a in s.log
    case Reading(a, req, snap) =>
      SnapOk(s, a, snap) && (req.Restore? ==> req.target in s.owner && s.owner[req.target].artifact == a)
    case Loaded(a, snap, e, content) =>
      SnapOk(s, a, snap) && PendingOk(s, w, a, snap, e, content)
      && e.id !in s.store.versions && BlobKey(a, e.id) !in s.store.blobs
    case Stored(a, snap, e, content) =>
      SnapOk(s, a, snap) && PendingOk(s, w, a, snap, e, content)
      && e.id !in s.store.versions && HasBlob(s.store, a, e.id, content)
    case Inserted(a, snap, e, content) =>
      SnapOk(s, a, snap) && PendingOk(s, w, a, snap, e, content)
      && e.id in s.store.versions && s.store.versions[e.id] == NewVersion(a, snap, e)
      && HasBlob(s.store, a, e.id, content) && e.id !in Committed(s.log[a])
    case Lost(a, v) => a in s.log && v in s.owner && s.owner[v] == Owner(a, w) && v !in Committed(s.log[a])
    case RolledBack(a) => a in s.log
    case Saving(a, _) => a in s.log
    case Done(_) => true
  }

  predicate Holds(wr: Writer, v: Id) {
    match wr
    case Loaded(_, _, e, _) => e.id == v
    case Stored(_, _, e, _) => e.id == v
    case Inserted(_, _, e, _) => e.id == v
    case Lost(_, id) => id == v
    case _ => false
  }

  ghost predicate StoreOk(s: System) {
    s.log.Keys == s.store.artifacts.Keys
    && (forall v :: v in s.store.versions ==> v in s.owner && s.owner[v].artifact == s.store.versions[v].artifact)
    && (forall k :: k in s.store.blobs ==> k.version in s.owner && s.owner[k.version].artifact == k.artifact)
    && "" !in s.owner
  }

  ghost predicate Inv(s: System) {
    StoreOk(s)
    && (forall a :: a in s.log ==> HistoryOk(s.store, a, s.log[a]))
    && (forall w :: w in s.writers ==> WriterOk(s, w, s.writers[w]))
  }

  // ---------------------------------------------------------------- framing

  lemma HistoryFrame(st: Store, st': Store, a: Id, h: seq<Entry>)
    requires HistoryOk(st, a, h)
    requires a in st'.artifacts && st'.artifacts[a] == st.artifacts[a]
    requires forall v :: v in Committed(h) ==>
               v in st.versions && v in st'.versions && st'.versions[v] == st.versions[v]
    requires forall k :: k in st.blobs ==> k in st'.blobs && st'.blobs[k] == st.blobs[k]
    ensures HistoryOk(st', a, h)
  {
    forall i | 0 <= i < |Committed(h)| ensures VersionAt(st', a, Committed(h), i) {
      assert VersionAt(st, a, Committed(h), i);
      assert Committed(h)[i] in Committed(h);
    }
  }

  /** Extending a history by a commit whose version row and blob are already there. */
  lemma CommitExtends(st: Store, st': Store, a: Id, h: seq<Entry>, e: Entry, snap: Artifact, content: string)
    requires HistoryOk(st, a, h)
    requires HeadIs(st, a, snap)
    requires !e.Moved? && !e.Created? && e.id !in Committed(h)
    requires e.id in st.versions && st.versions[e.id] == NewVersion(a, snap, e)
    requires HasBlob(st, a, e.id, content)
    requires e.Updated? ==> e.edit(if e.readOk then Contents(h)[snap.current] else "") == Ok(content)
    requires e.Restored? ==> e.content == content && HasBlob(st, a, e.target, content)
    requires st' == SaveHead(st, a, Artifact(snap.branch, e.id, snap.number + 1))
    ensures HistoryOk(st', a, h + [e])
  {
    var h' := h + [e];
    assert h'[..|h'| - 1] == h;
    var c, c' := Committed(h), Committed(h');
    assert c' == c + [e.id];
    forall i | 0 <= i < |c'| ensures VersionAt(st', a, c', i) {
      if i < |c| {
        assert VersionAt(st, a, c, i);
        assert c'[..i] == c[..i];
      } else {
        assert c'[..i] == c;
      }
    }
    assert Contents(h') == Contents(h)[e.id := content];
    EditsExtend(h, e);
    HeadsExtend(h, e);
  }

  lemma HeadsExtend(h: seq<Entry>, e: Entry)
    requires HeadsOk(h) && e.id in Committed(h + [e])
    ensures HeadsOk(h + [e])
  {
    var h' := h + [e];
    forall i | 0 < i <= |h'| ensures HeadOf(h'[..i]) in Committed(h'[..i]) {
      assert h'[..i] == if i <= |h| then h[..i] else h';
    }
  }

  lemma EditsExtend(h: seq<Entry>, e: Entry)
    requires EditsOk(h)
    requires e.Updated? ==> e.edit(if e.readOk then Lookup(Contents(h), h) else "").Ok?
    ensures EditsOk(h + [e])
  {
    var h' := h + [e];
    forall i | 0 <= i < |h'| && h'[i].Updated? ensures Given(h', i).0(Given(h', i).1).Ok? {
      assert h'[..i] == if i < |h| then h[..i] else h;
      if i < |h| { assert Given(h', i) == Given(h, i); }
    }
  }

  lemma MoveExtends(st: Store, st': Store, a: Id, h: seq<Entry>, row: Artifact)
    requires HistoryOk(st, a, h)
    requires st' == SaveHead(st, a, row)
    ensures HistoryOk(st', a, h + [Moved(row.current)]) <==>
              row.number == st.artifacts[a].number && row.current in Committed(h)
  {
    var h' := h + [Moved(row.current)];
    assert h'[..|h'| - 1] == h;
    assert Committed(h') == Committed(h);
    assert Contents(h') == Contents(h);
    EditsExtend(h, Moved(row.current));
    if row.current in Committed(h) { HeadsExtend(h, Moved(row.current)); }
    forall i | 0 <= i < |Committed(h)| ensures VersionAt(st', a, Committed(h'), i) {
      assert VersionAt(st, a, Committed(h), i);
    }
  }

  /** Everything recorded stays recorded with the same value. */
  ghost predicate Grows(s: System, s': System) {
    (forall v :: v in s.owner ==> v in s'.owner && s'.owner[v] == s.owner[v])
    && (forall k :: k in s.store.blobs ==> k in s'.store.blobs && s'.store.blobs[k] == s.store.blobs[k])
    && (forall a :: a in s.log ==> a in s'.log && HistoryGrows(s.log[a], s'.log[a]))
  }

  ghost predicate HistoryGrows(h: seq<Entry>, h': seq<Entry>) {
    Committed(h) <= Committed(h')
    && forall v :: v in Committed(h) && v in Contents(h) ==> v in Contents(h') && Contents(h')[v] == Contents(h)[v]
  }

  lemma HistoryGrowsByOne(h: seq<Entry>, e: Entry)
    requires !e.Moved? ==> e.id !in Committed(h)
    ensures HistoryGrows(h, h + [e])
    ensures Committed(h + [e]) == Committed(h) + if e.Moved? then [] else [e.id]
  {
    assert (h + [e])[..|h|] == h;
  }

  /** A call's assertion survives any growth that leaves its own new id alone. */
  lemma WriterFrame(s: System, s': System, w: int, wr: Writer)
    requires WriterOk(s, w, wr) && Grows(s, s')
    requires forall v :: Holds(wr, v) ==>
      (v in s.store.versions <==> v in s'.store.versions)
      && (v in s.store.versions ==> s.store.versions[v] == s'.store.versions[v])
      && (BlobKey(wr.artifact, v) in s'.store.blobs ==> BlobKey(wr.artifact, v) in s.store.blobs)
      && (wr.artifact in s.log && v in Committed(s'.log[wr.artifact]) ==> v in Committed(s.log[wr.artifact]))
    ensures WriterOk(s', w, wr)
  {
    if wr.Loaded? || wr.Stored? || wr.Inserted? {
      assert Holds(wr, wr.entry.id);
    } else if wr.Lost? {
      assert Holds(wr, wr.id);
    }
  }

  lemma HoldsOwned(s: System, w: int, wr: Writer, v: Id)
    requires WriterOk(s, w, wr) && Holds(wr, v)
    ensures v in s.owner && s.owner[v].call == w
  {
  }

  /** A step that changes nothing of any artifact but a, and no version or blob but v's. */
  ghost predicate StoreTouch(st: Store, st': Store, a: Id, v: Id) {
    (forall b :: b in st.artifacts && b != a ==> b in st'.artifacts && st'.artifacts[b] == st.artifacts[b])
    && (forall x :: x in st.versions && x != v ==> x in st'.versions && st'.versions[x] == st.versions[x])
    && (forall x :: x in st'.versions && x != v ==> x in st.versions)
    && (forall k :: k in st.blobs ==> k in st'.blobs && st'.blobs[k] == st.blobs[k])
    && (forall k :: k in st'.blobs && k !in st.blobs ==> k.version == v)
    && (v in st.versions ==> st.versions[v].artifact == a)
  }

  ghost predicate LogTouch(s: System, s': System, a: Id, v: Id) {
    (forall x :: x in s.owner ==> x in s'.owner && s'.owner[x] == s.owner[x])
    && (forall b :: b in s'.log && b != a ==> b in s.log && s'.log[b] == s.log[b])
    && (forall b :: b in s.log ==> b in s'.log)
    && (a in s.log ==> HistoryGrows(s.log[a], s'.log[a])
                       && forall x :: x in Committed(s'.log[a]) && x != v ==> x in Committed(s.log[a]))
  }

  /** Call w (or none, w == -1) acts on artifact a and on the version id v it drew. */
  ghost predicate Touches(s: System, s': System, w: int, a: Id, v: Id) {
    StoreTouch(s.store, s'.store, a, v) && LogTouch(s, s', a, v)
    && (v in s.owner ==> s.owner[v].call == w)
    && forall w' :: w' in s'.writers && w' != w ==> w' in s.writers && s'.writers[w'] == s.writers[w']
  }

  lemma CommittedHasRow(st: Store, a: Id, h: seq<Entry>, v: Id)
    requires HistoryOk(st, a, h) && v in Committed(h)
    ensures v in st.versions && st.versions[v].artifact == a
  {
    var i :| 0 <= i < |Committed(h)| && Committed(h)[i] == v;
    assert VersionAt(st, a, Committed(h), i);
  }

  lemma OtherHistory(st: Store, st': Store, a: Id, v: Id, b: Id, h: seq<Entry>)
    requires StoreTouch(st, st', a, v) && HistoryOk(st, b, h) && b != a
    ensures HistoryOk(st', b, h)
  {
    forall x | x in Committed(h) ensures x in st.versions && x in st'.versions && st'.versions[x] == st.versions[x] {
      CommittedHasRow(st, b, h, x);
    }
    HistoryFrame(st, st', b, h);
  }

  lemma TouchGrows(s: System, s': System, w: int, a: Id, v: Id)
    requires Touches(s, s', w, a, v)
    ensures Grows(s, s')
  {
    forall b | b in s.log ensures b in s'.log && HistoryGrows(s.log[b], s'.log[b]) {}
  }

  lemma OtherWriter(s: System, s': System, w: int, a: Id, v: Id, w': int, wr: Writer)
    requires WriterOk(s, w', wr) && Touches(s, s', w, a, v) && !Holds(wr, v)
    ensures WriterOk(s', w', wr)
  {
    TouchGrows(s, s', w, a, v);
    WriterFrame(s, s', w', wr);
  }

  /** Local obligations are enough: the rest of the system is untouched. */
  lemma LocalKeeps(s: System, s': System, w: int, a: Id, v: Id)
    requires Inv(s) && Touches(s, s', w, a, v) && StoreOk(s')
    requires a in s'.log ==> HistoryOk(s'.store, a, s'.log[a])
    requires w in s'.writers ==> WriterOk(s', w, s'.writers[w])
    ensures Inv(s')
  {
    forall b | b in s'.log ensures HistoryOk(s'.store, b, s'.log[b]) {
      if b != a { OtherHistory(s.store, s'.store, a, v, b, s.log[b]); }
    }
    forall w' | w' in s'.writers ensures WriterOk(s', w', s'.writers[w']) {
      if w' != w {
        var wr := s.writers[w'];
        if Holds(wr, v) { HoldsOwned(s, w', wr, v); }
        OtherWriter(s, s', w, a, v, w', wr);
      }
    }
  }

  // ---------------------------------------------------------------- each step

  lemma CreateTouches(s: System, a: Id, b: Id, v: Id, content: string)
    requires StoreOk(s) && a !in s.log && v !in s.owner && v != ""
    ensures Touches(s, DoCreate(s, a, b, v, content), -1, a, v)
    ensures StoreOk(DoCreate(s, a, b, v, content))
  {
  }

  lemma CreateHistory(st: Store, a: Id, b: Id, v: Id, content: string)
    requires a in st.artifacts && st.artifacts[a] == Artifact(b, v, 1)
    requires v in st.versions && st.versions[v] == Version(a, b, 1, "", "")
    requires HasBlob(st, a, v, content)
    ensures HistoryOk(st, a, [Created(v, content)])
  {
    var h := [Created(v, content)];
    assert h[..|h| - 1] == [];
    assert Committed(h) == [v];
    assert VersionAt(st, a, Committed(h), 0);
    assert h[..1] == h;
  }

  lemma CreateKeeps(s: System, a: Id, b: Id, v: Id, content: string)
    requires Inv(s) && a !in s.log && v !in s.owner && v != ""
    ensures Inv(DoCreate(s, a, b, v, content))
  {
    var s' := DoCreate(s, a, b, v, content);
    CreateTouches(s, a, b, v, content);
    CreateHistory(s'.store, a, b, v, content);
    LocalKeeps(s, s', -1, a, v);
  }

  /** A step that only moves call w to a phase holding no version id. */
  lemma PrivateKeeps(s: System, w: nat, wr: Writer)
    requires Inv(s) && WriterOk(s, w, wr) && forall x :: !Holds(wr, x)
    ensures Inv(SetWriter(s, w, wr))
  {
    var s' := SetWriter(s, w, wr);
    assert Touches(s, s', w, "", "");
    assert WriterOk(s', w, wr) by { OtherWriter(s, s', w, "", "", w, wr); }
    LocalKeeps(s, s', w, "", "");
  }

  lemma ReadKeeps(s: System, w: nat, a: Id, req: Request)
    requires Inv(s) && w !in s.writers && a in s.store.artifacts
    ensures Inv(SetWriter(s, w, AfterRead(a, req, s.store.artifacts[a])))
  {
    assert HistoryOk(s.store, a, s.log[a]);
    PrivateKeeps(s, w, AfterRead(a, req, s.store.artifacts[a]));
  }

  lemma CheckedOk(s: System, w: nat, wr: Writer)
    requires StoreOk(s) && WriterOk(s, w, wr) && (wr.Branching? || (wr.Checking? && wr.req.Restore?))
    ensures WriterOk(s, w, AfterCheck(s.store, wr)) && forall x :: !Holds(AfterCheck(s.store, wr), x)
  {
  }

  lemma CheckKeeps(s: System, w: nat)
    requires Inv(s) && w in s.writers
    requires s.writers[w].Branching? || (s.writers[w].Checking? && s.writers[w].req.Restore?)
    ensures Inv(SetWriter(s, w, AfterCheck(s.store, s.writers[w])))
  {
    CheckedOk(s, w, s.writers[w]);
    PrivateKeeps(s, w, AfterCheck(s.store, s.writers[w]));
  }

  lemma LoadedOk(s: System, w: nat, v: Id, readOk: bool)
    requires StoreOk(s) && w in s.writers && s.writers[w].Reading? && v !in s.owner
    requires readOk ==> ReadContent(s.store, Source(s.writers[w])).Some?
    requires WriterOk(s, w, s.writers[w])
    requires HistoryOk(s.store, s.writers[w].artifact, s.log[s.writers[w].artifact])
    ensures WriterOk(DoLoad(s, w, v, readOk), w, DoLoad(s, w, v, readOk).writers[w])
  {
    var wr := s.writers[w];
    CommittedHasRow(s.store, wr.artifact, s.log[wr.artifact], wr.snap.current);
  }

  lemma LoadTouches(s: System, w: nat, v: Id, readOk: bool)
    requires StoreOk(s) && w in s.writers && s.writers[w].Reading? && v !in s.owner && v != ""
    requires readOk ==> ReadContent(s.store, Source(s.writers[w])).Some?
    ensures Touches(s, DoLoad(s, w, v, readOk), w, "", v) && StoreOk(DoLoad(s, w, v, readOk))
  {
  }

  lemma LoadKeeps(s: System, w: nat, v: Id, readOk: bool)
    requires Inv(s) && w in s.writers && s.writers[w].Reading? && v !in s.owner && v != ""
    requires readOk ==> ReadContent(s.store, Source(s.writers[w])).Some?
    ensures Inv(DoLoad(s, w, v, readOk))
  {
    var s' := DoLoad(s, w, v, readOk);
    assert WriterOk(s, w, s.writers[w]);
    LoadedOk(s, w, v, readOk);
    LoadTouches(s, w, v, readOk);
    LocalKeeps(s, s', w, "", v);
  }

  lemma PutTouches(s: System, w: nat)
    requires StoreOk(s) && w in s.writers && s.writers[w].Loaded? && WriterOk(s, w, s.writers[w])
    ensures var wr := s.writers[w]; Touches(s, DoPut(s, w), w, wr.artifact, wr.entry.id)
    ensures StoreOk(DoPut(s, w)) && WriterOk(DoPut(s, w), w, DoPut(s, w).writers[w])
  {
  }

  lemma PutKeeps(s: System, w: nat)
    requires Inv(s) && w in s.writers && s.writers[w].Loaded?
    ensures Inv(DoPut(s, w))
  {
    var s' := DoPut(s, w);
    var wr := s.writers[w];
    assert WriterOk(s, w, wr);
    PutTouches(s, w);
    SameRowKeeps(s, s', w, wr.artifact, wr.entry.id);
  }

  /** A step that leaves a's row and log alone and changes no committed version. */
  lemma SameRowKeeps(s: System, s': System, w: int, a: Id, v: Id)
    requires Inv(s) && Touches(s, s', w, a, v) && StoreOk(s')
    requires w in s'.writers ==> WriterOk(s', w, s'.writers[w])
    requires a in s.log && a in s'.log && s'.log[a] == s.log[a] && v !in Committed(s.log[a])
    requires a in s.store.artifacts && a in s'.store.artifacts && s'.store.artifacts[a] == s.store.artifacts[a]
    ensures Inv(s')
  {
    var h := s.log[a];
    forall x | x in Committed(h)
      ensures x in s.store.versions && x in s'.store.versions && s'.store.versions[x] == s.store.versions[x]
    {
      CommittedHasRow(s.store, a, h, x);
    }
    HistoryFrame(s.store, s'.store, a, h);
    LocalKeeps(s, s', w, a, v);
  }

  lemma UninsertedIsUncommitted(s: System, a: Id, v: Id)
    requires a in s.log && HistoryOk(s.store, a, s.log[a]) && v !in s.store.versions
    ensures v !in Committed(s.log[a])
  {
    if v in Committed(s.log[a]) { CommittedHasRow(s.store, a, s.log[a], v); }
  }

  lemma InsertTouches(s: System, w: nat)
    requires StoreOk(s) && w in s.writers && s.writers[w].Stored? && WriterOk(s, w, s.writers[w])
    requires s.writers[w].entry.id !in Committed(s.log[s.writers[w].artifact])
    ensures var wr := s.writers[w]; Touches(s, DoInsert(s, w), w, wr.artifact, wr.entry.id)
    ensures StoreOk(DoInsert(s, w)) && WriterOk(DoInsert(s, w), w, DoInsert(s, w).writers[w])
  {
  }

  lemma InsertKeeps(s: System, w: nat)
    requires Inv(s) && w in s.writers && s.writers[w].Stored?
    ensures Inv(DoInsert(s, w))
  {
    var s' := DoInsert(s, w);
    var wr := s.writers[w];
    assert WriterOk(s, w, wr);
    UninsertedIsUncommitted(s, wr.artifact, wr.entry.id);
    InsertTouches(s, w);
    SameRowKeeps(s, s', w, wr.artifact, wr.entry.id);
  }

  lemma RollbackTouches(s: System, w: nat)
    requires StoreOk(s) && w in s.writers && s.writers[w].Lost? && WriterOk(s, w, s.writers[w])
    ensures var wr := s.writers[w]; Touches(s, DoRollback(s, w), w, wr.artifact, wr.id)
    ensures StoreOk(DoRollback(s, w)) && WriterOk(DoRollback(s, w), w, DoRollback(s, w).writers[w])
  {
  }

  lemma RollbackKeeps(s: System, w: nat)
    requires Inv(s) && w in s.writers && s.writers[w].Lost?
    ensures Inv(DoRollback(s, w))
  {
    var s' := DoRollback(s, w);
    var wr := s.writers[w];
    assert WriterOk(s, w, wr);
    RollbackTouches(s, w);
    SameRowKeeps(s, s', w, wr.artifact, wr.id);
  }

  lemma LosingTouches(s: System, w: nat)
    requires StoreOk(s) && w in s.writers && s.writers[w].Inserted? && WriterOk(s, w, s.writers[w])
    requires !HeadIs(s.store, s.writers[w].artifact, s.writers[w].snap)
    ensures var wr := s.writers[w]; Touches(s, DoAdvance(s, w), w, wr.artifact, wr.entry.id)
    ensures StoreOk(DoAdvance(s, w)) && WriterOk(DoAdvance(s, w), w, DoAdvance(s, w).writers[w])
  {
  }

  lemma WinningTouches(s: System, w: nat)
    requires StoreOk(s) && w in s.writers && s.writers[w].Inserted? && WriterOk(s, w, s.writers[w])
    requires HeadIs(s.store, s.writers[w].artifact, s.writers[w].snap)
    ensures var wr := s.writers[w]; Touches(s, DoAdvance(s, w), w, wr.artifact, wr.entry.id)
    ensures StoreOk(DoAdvance(s, w))
  {
    var wr := s.writers[w];
    HistoryGrowsByOne(s.log[wr.artifact], wr.entry);
  }

  lemma WinningHistory(s: System, w: nat)
    requires w in s.writers && s.writers[w].Inserted? && WriterOk(s, w, s.writers[w])
    requires HeadIs(s.store, s.writers[w].artifact, s.writers[w].snap)
    requires HistoryOk(s.store, s.writers[w].artifact, s.log[s.writers[w].artifact])
    ensures var a := s.writers[w].artifact; HistoryOk(DoAdvance(s, w).store, a, DoAdvance(s, w).log[a])
  {
    var wr := s.writers[w];
    CommitExtends(s.store, DoAdvance(s, w).store, wr.artifact, s.log[wr.artifact], wr.entry, wr.snap, wr.content);
  }

  lemma AdvanceKeeps(s: System, w: nat)
    requires Inv(s) && w in s.writers && s.writers[w].Inserted?
    ensures Inv(DoAdvance(s, w))
  {
    var wr := s.writers[w];
    assert WriterOk(s, w, wr);
    if HeadIs(s.store, wr.artifact, wr.snap) {
      WinningTouches(s, w);
      WinningHistory(s, w);
      LocalKeeps(s, DoAdvance(s, w), w, wr.artifact, wr.entry.id);
    } else {
      LosingTouches(s, w);
      SameRowKeeps(s, DoAdvance(s, w), w, wr.artifact, wr.entry.id);
    }
  }

  lemma SaveRowTouches(s: System, w: nat)
    requires StoreOk(s) && w in s.writers && s.writers[w].Saving? && WriterOk(s, w, s.writers[w])
    ensures Touches(s, DoSaveRow(s, w), w, s.writers[w].artifact, "") && StoreOk(DoSaveRow(s, w))
  {
    var wr := s.writers[w];
    HistoryGrowsByOne(s.log[wr.artifact], Moved(wr.row.current));
  }

  /** No commit since the snapshot was read, and the installed version is a committed one. */
  predicate FreshSave(s: System, w: nat)
    requires w in s.writers && s.writers[w].Saving? && s.writers[w].artifact in s.log
  {
    var wr := s.writers[w];
    wr.artifact in s.store.artifacts
    && wr.row.number == s.store.artifacts[wr.artifact].number
    && wr.row.current in Committed(s.log[wr.artifact])
  }

  /** Every step is harmless but a full-row save that is not fresh. */
  predicate Safe(s: System, step: Step)
    requires Enabled(s, step)
  {
    step.SaveRow? ==> FreshSave(s, step.w)
  }

  /** A full-row save keeps the invariant exactly when no commit happened since its
      snapshot was taken and the version it installs is a committed one. */
  lemma SaveRowKeepsIff(s: System, w: nat)
    requires Inv(s) && w in s.writers && s.writers[w].Saving? && s.writers[w].artifact in s.log
    ensures Inv(DoSaveRow(s, w)) <==> FreshSave(s, w)
  {
    var s' := DoSaveRow(s, w);
    var wr := s.writers[w];
    assert WriterOk(s, w, wr);
    SaveRowTouches(s, w);
    MoveExtends(s.store, s'.store, wr.artifact, s.log[wr.artifact], wr.row);
    if HistoryOk(s'.store, wr.artifact, s'.log[wr.artifact]) {
      LocalKeeps(s, s', w, wr.artifact, "");
    }
  }

  lemma StepKeeps(s: System, step: Step)
    requires Inv(s) && Enabled(s, step) && Safe(s, step)
    ensures Inv(Do(s, step))
  {
    match step
    case Create(a, b, v, content) => CreateKeeps(s, a, b, v, content);
    case Read(w, a, req) => ReadKeeps(s, w, a, req);
    case Check(w) => CheckKeeps(s, w);
    case Load(w, v, readOk) => LoadKeeps(s, w, v, readOk);
    case Put(w) => PutKeeps(s, w);
    case Insert(w) => InsertKeeps(s, w);
    case Advance(w) => AdvanceKeeps(s, w);
    case Rollback(w) => RollbackKeeps(s, w);
    case Reread(w) =>
      assert WriterOk(s, w, s.writers[w]);
      PrivateKeeps(s, w, Saving(s.writers[w].artifact, s.store.artifacts[s.writers[w].artifact]));
    case StartSave(w, a) => PrivateKeeps(s, w, Saving(a, s.store.artifacts[a]));
    case StartBranch(w, a, wanted, b) =>
      PrivateKeeps(s, w, Branching(a, s.store.artifacts[a], BranchBase(s.store.artifacts[a], wanted), b));
    case SaveRow(w) => SaveRowKeepsIff(s, w);
    case Abort(w) => PrivateKeeps(s, w, Done(false));
  }
}
