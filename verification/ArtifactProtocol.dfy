/**
The optimistic-concurrency protocol of internal/artifact/service.go.

UpdateContent, RestoreVersion, BranchArtifact and the full-row saves are cut at every call that
reads or writes an artifacts row, a version row or a content blob, so any number of calls can
interleave; writes of references, diffs and branch rows are not modelled but for their failure.
A run is a sequence of steps; the environment picks the order, the fresh identifiers (UUIDs in
the code), which reads fail and where a call gives up.
 */
module ArtifactProtocol {

  import opened Wrappers

  type Id = string

  /** prepareContentForOperation with everything but the base content supplied. */
  type Edit = string -> Result<string, string>

  /** The head columns of an artifacts row. */
  datatype Artifact = Artifact(branch: Id, current: Id, number: nat)

  datatype Version = Version(artifact: Id, branch: Id, number: nat, parent: Id, base: Id)

  /** Content blobs are keyed by artifact and version, as "artifacts/<a>/<v>.blob". */
  datatype BlobKey = BlobKey(artifact: Id, version: Id)

  datatype Store = Store(
    artifacts: map<Id, Artifact>,
    versions: map<Id, Version>,
    blobs: map<BlobKey, string>)

  datatype Request =
    | Update(edit: Edit, expected: Id)
    | Restore(target: Id, expected: Id)

  /** What a successful head change adds to an artifact's history. */
  datatype Entry =
    | Created(id: Id, content: string)
    | Updated(id: Id, edit: Edit, readOk: bool)
    | Restored(id: Id, target: Id, content: string)
    | Moved(id: Id) // an unconditional full-row save: branch switch, archive, conflict marking

  /** One call in progress; the phase says which store calls it has made. */
  datatype Writer =
    | Checking(artifact: Id, req: Request, snap: Artifact) // a restore whose target is not yet looked up
    | Reading(artifact: Id, req: Request, snap: Artifact)
    | Loaded(artifact: Id, snap: Artifact, entry: Entry, content: string)
    | Stored(artifact: Id, snap: Artifact, entry: Entry, content: string)
    | Inserted(artifact: Id, snap: Artifact, entry: Entry, content: string)
    | Lost(artifact: Id, id: Id)
    | RolledBack(artifact: Id)
    | Branching(artifact: Id, snap: Artifact, base: Id, branch: Id) // the base is not yet looked up
    | Saving(artifact: Id, row: Artifact)
    | Done(committed: bool)

  /** Who drew a version id: the artifact and the call (-1 for CreateArtifact). */
  datatype Owner = Owner(artifact: Id, call: int)

  datatype System = System(
    store: Store,
    writers: map<nat, Writer>,
    owner: map<Id, Owner>,
    log: map<Id, seq<Entry>>)

  datatype Step =
    | Create(artifact: Id, branch: Id, id: Id, content: string)
    | Read(w: nat, artifact: Id, req: Request)
    | Check(w: nat)
    | Load(w: nat, id: Id, readOk: bool)
    | Put(w: nat)
    | Insert(w: nat)
    | Advance(w: nat)
    | Rollback(w: nat)
    | Reread(w: nat)
    | StartSave(w: nat, artifact: Id)
    | StartBranch(w: nat, artifact: Id, wanted: Id, branch: Id)
    | SaveRow(w: nat)
    | Abort(w: nat)

  // ---------------------------------------------------------------- single calls

  /** The base_version_id column: the head for an update, the target for a restore. */
  function BaseOf(snap: Artifact, entry: Entry): Id {
    match entry
    case Restored(_, target, _) => target
    case _ => snap.current
  }

  function NewVersion(artifact: Id, snap: Artifact, entry: Entry): Version {
    Version(artifact, snap.branch, snap.number + 1, snap.current, BaseOf(snap, entry))
  }

  /** loadVersionContent. */
  function ReadContent(st: Store, id: Id): Option<string> {
    if id in st.versions && BlobKey(st.versions[id].artifact, id) in st.blobs
    then Some(st.blobs[BlobKey(st.versions[id].artifact, id)]) else None
  }

  /** Whether the stored head still equals the snapshot: the WHERE clause of SaveArtifactHeadIfCurrent. */
  predicate HeadIs(st: Store, artifact: Id, snap: Artifact) {
    artifact in st.artifacts
    && st.artifacts[artifact].current == snap.current
    && st.artifacts[artifact].number == snap.number
  }

  function SaveHead(st: Store, artifact: Id, row: Artifact): Store {
    st.(artifacts := st.artifacts[artifact := row])
  }

  // ---------------------------------------------------------------- transitions

  predicate Enabled(s: System, step: Step) {
    match step
    case Create(a, b, v, _) => a !in s.store.artifacts && a !in s.log && v !in s.owner && v != ""
    case Read(w, a, req) => w !in s.writers && a in s.store.artifacts
    case Check(w) =>
      w in s.writers && (s.writers[w].Branching? || (s.writers[w].Checking? && s.writers[w].req.Restore?))
    case Load(w, v, readOk) =>
      w in s.writers && s.writers[w].Reading? && v !in s.owner && v != ""
      && (readOk ==> ReadContent(s.store, Source(s.writers[w])).Some?)
    case Put(w) => w in s.writers && s.writers[w].Loaded?
    case Insert(w) => w in s.writers && s.writers[w].Stored?
    case Advance(w) => w in s.writers && s.writers[w].Inserted?
    case Rollback(w) => w in s.writers && s.writers[w].Lost?
    case Reread(w) => w in s.writers && s.writers[w].RolledBack? && s.writers[w].artifact in s.store.artifacts
    case StartSave(w, a) => w !in s.writers && a in s.store.artifacts
    case StartBranch(w, a, _, _) => w !in s.writers && a in s.store.artifacts
    case SaveRow(w) =>
      w in s.writers && s.writers[w].Saving? && s.writers[w].artifact in s.log
    case Abort(w) => w in s.writers
  }

  /** A branch starts at the wanted version, or at the head when none is named. */
  function BranchBase(row: Artifact, wanted: Id): Id {
    if wanted != "" then wanted else row.current
  }

  /** The version whose content a call loads: its snapshot's head, or the restore target. */
  function Source(wr: Writer): Id
    requires wr.Reading?
  {
    match wr.req
    case Update(_, _) => wr.snap.current
    case Restore(target, _) => target
  }

  /** The row has been read: a restore first looks up its target. */
  function AfterRead(a: Id, req: Request, row: Artifact): Writer {
    if req.Restore? then Checking(a, req, row) else AfterExpectation(a, req, row)
  }

  function AfterExpectation(a: Id, req: Request, row: Artifact): Writer {
    if req.expected != "" && row.current != req.expected
    then Saving(a, row) // marks the conflict on the row it read
    else Reading(a, req, row)
  }

  predicate BelongsTo(st: Store, v: Id, a: Id) {
    v in st.versions && st.versions[v].artifact == a
  }

  /** Looking up a restore's target or a branch's base. */
  function AfterCheck(st: Store, wr: Writer): Writer
    requires wr.Branching? || (wr.Checking? && wr.req.Restore?)
  {
    match wr
    case Branching(a, row, base, b) =>
      if BelongsTo(st, base, a) then Saving(a, row.(branch := b, current := base)) else Done(false)
    case Checking(a, req, row) =>
      if BelongsTo(st, req.target, a) then AfterExpectation(a, req, row) else Done(false)
  }

  function AfterLoad(s: System, wr: Writer, v: Id, readOk: bool): Writer
    requires wr.Reading?
    requires readOk ==> ReadContent(s.store, Source(wr)).Some?
  {
    var got := if readOk then ReadContent(s.store, Source(wr)).value else "";
    match wr.req
    case Update(edit, _) =>
      (match edit(got)
       case Ok(content) => Loaded(wr.artifact, wr.snap, Updated(v, edit, readOk), content)
       case Err(_) => Saving(wr.artifact, wr.snap)) // records the failure on its snapshot
    case Restore(target, _) =>
      if readOk then Loaded(wr.artifact, wr.snap, Restored(v, target, got), got) else Done(false)
  }

  function DoCreate(s: System, a: Id, b: Id, v: Id, content: string): System {
    System(
      Store(
        s.store.artifacts[a := Artifact(b, v, 1)],
        s.store.versions[v := Version(a, b, 1, "", "")],
        s.store.blobs[BlobKey(a, v) := content]),
      s.writers,
      s.owner[v := Owner(a, -1)],
      s.log[a := [Created(v, content)]])
  }

  function SetWriter(s: System, w: nat, wr: Writer): System {
    s.(writers := s.writers[w := wr])
  }

  function DoLoad(s: System, w: nat, v: Id, readOk: bool): System
    requires w in s.writers && s.writers[w].Reading?
    requires readOk ==> ReadContent(s.store, Source(s.writers[w])).Some?
  {
    SetWriter(s, w, AfterLoad(s, s.writers[w], v, readOk)).(owner := s.owner[v := Owner(s.writers[w].artifact, w)])
  }

  function DoPut(s: System, w: nat): System
    requires w in s.writers && s.writers[w].Loaded?
  {
    var wr := s.writers[w];
    SetWriter(s, w, Stored(wr.artifact, wr.snap, wr.entry, wr.content)).(
      store := s.store.(blobs := s.store.blobs[BlobKey(wr.artifact, wr.entry.id) := wr.content]))
  }

  function DoInsert(s: System, w: nat): System
    requires w in s.writers && s.writers[w].Stored?
  {
    var wr := s.writers[w];
    SetWriter(s, w, Inserted(wr.artifact, wr.snap, wr.entry, wr.content)).(
      store := s.store.(versions := s.store.versions[wr.entry.id := NewVersion(wr.artifact, wr.snap, wr.entry)]))
  }

  function DoAdvance(s: System, w: nat): System
    requires w in s.writers && s.writers[w].Inserted?
  {
    var wr := s.writers[w];
    if HeadIs(s.store, wr.artifact, wr.snap) then
      SetWriter(s, w, Done(true)).(
        store := SaveHead(s.store, wr.artifact, Artifact(wr.snap.branch, wr.entry.id, wr.snap.number + 1)),
        log := s.log[wr.artifact := History(s, wr.artifact) + [wr.entry]])
    else
      SetWriter(s, w, Lost(wr.artifact, wr.entry.id))
  }

  function DoRollback(s: System, w: nat): System
    requires w in s.writers && s.writers[w].Lost?
  {
    SetWriter(s, w, RolledBack(s.writers[w].artifact)).(
      store := s.store.(versions := s.store.versions - {s.writers[w].id}))
  }

  function DoSaveRow(s: System, w: nat): System
    requires w in s.writers && s.writers[w].Saving?
  {
    var wr := s.writers[w];
    SetWriter(s, w, Done(false)).(
      store := SaveHead(s.store, wr.artifact, wr.row),
      log := s.log[wr.artifact := History(s, wr.artifact) + [Moved(wr.row.current)]])
  }

  function Do(s: System, step: Step): System
    requires Enabled(s, step)
  {
    match step
    case Create(a, b, v, content) => DoCreate(s, a, b, v, content)
    case Read(w, a, req) => SetWriter(s, w, AfterRead(a, req, s.store.artifacts[a]))
    case Check(w) => SetWriter(s, w, AfterCheck(s.store, s.writers[w]))
    case Load(w, v, readOk) => DoLoad(s, w, v, readOk)
    case Put(w) => DoPut(s, w)
    case Insert(w) => DoInsert(s, w)
    case Advance(w) => DoAdvance(s, w)
    case Rollback(w) => DoRollback(s, w)
    case Reread(w) => SetWriter(s, w, Saving(s.writers[w].artifact, s.store.artifacts[s.writers[w].artifact]))
    case StartSave(w, a) => SetWriter(s, w, Saving(a, s.store.artifacts[a]))
    case StartBranch(w, a, wanted, b) =>
      SetWriter(s, w, Branching(a, s.store.artifacts[a], BranchBase(s.store.artifacts[a], wanted), b))
    case SaveRow(w) => DoSaveRow(s, w)
    case Abort(w) => SetWriter(s, w, Done(false))
  }

  function History(s: System, a: Id): seq<Entry> {
    if a in s.log then s.log[a] else []
  }

  const EMPTY: System := System(Store(map[], map[], map[]), map[], map[], map[])

  /** The states a sequence of steps passes through, starting from an empty store. */
  predicate IsRun(steps: seq<Step>)
    decreases |steps|, 0
  {
    steps == [] || (IsRun(steps[..|steps| - 1]) && Enabled(After(steps[..|steps| - 1]), steps[|steps| - 1]))
  }

  function After(steps: seq<Step>): System
    requires IsRun(steps)
    decreases |steps|, 1
  {
    if steps == [] then EMPTY
    else Do(After(steps[..|steps| - 1]), steps[|steps| - 1])
  }

  // ---------------------------------------------------------------- what history means

  /** The version ids in commit order. */
  function Committed(h: seq<Entry>): (c: seq<Id>)
    ensures |c| <= |h|
  {
    if h == [] then []
    else
      var rest := Committed(h[..|h| - 1]);
      var last := h[|h| - 1];
      if last.Moved? then rest else rest + [last.id]
  }

  /** The head after a history: the id its last entry installs. */
  function HeadOf(h: seq<Entry>): Id
    requires h != []
  {
    h[|h| - 1].id
  }

  /** The content each commit wrote, taking restores at their word. */
  function Contents(h: seq<Entry>): map<Id, string> {
    if h == [] then map[]
    else
      var before := h[..|h| - 1];
      var m := Contents(before);
      match h[|h| - 1]
      case Created(v, content) => m[v := content]
      case Updated(v, edit, readOk) => m[v := Applied(edit, if readOk then Lookup(m, before) else "")]
      case Restored(v, _, content) => m[v := content]
      case Moved(_) => m
  }

  /** The operations applied in commit order, from the history alone: an update edits the head
      before it, a restore copies what its target replays to. What rests on a version that is
      in no history has no replay. */
  function Replay(h: seq<Entry>): map<Id, string> {
    if h == [] then map[]
    else
      var before := h[..|h| - 1];
      var m := Replay(before);
      match h[|h| - 1]
      case Created(v, content) => m[v := content]
      case Updated(v, edit, readOk) =>
        if readOk && (before == [] || HeadOf(before) !in m) then m
        else m[v := Applied(edit, if readOk then m[HeadOf(before)] else "")]
      case Restored(v, target, _) => if target in m then m[v := m[target]] else m
      case Moved(_) => m
  }

  /** The head's content just before the last entry. */
  function Lookup(m: map<Id, string>, before: seq<Entry>): string {
    if before != [] && HeadOf(before) in m then m[HeadOf(before)] else ""
  }

  function Applied(edit: Edit, base: string): string {
    match edit(base)
    case Ok(content) => content
    case Err(_) => ""
  }
}
