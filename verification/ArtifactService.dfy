/**
The service's own methods. Between any two of a call's database or blob operations other calls
may run: `env` gives the steps they try, of whatever kind and however many. Every method is
proved to be a run of the protocol, so what holds of all runs holds of it.
 */
module ArtifactService {

  import opened Wrappers
  import opened ArtifactProtocol
  import opened ArtifactInvariant
  import opened ArtifactTheorems
  import opened ArtifactCalls

  /** The storage operation of a call that reports an error, if any. */
  datatype Fault = NoFault | BlobPut | SaveVersion | SaveReferences | SaveHeadRow

  /** Stale: the head is not the expected base. Conflict: it moved before the commit. */
  datatype Outcome = Committed(id: Id) | NotFound | Stale | Rejected | Unreadable | Conflict | StorageFailed

  // ---------------------------------------------------------------- the steps of whole calls

  /** The steps of one call, in order. */
  datatype Track = Start | Then(before: Track, step: Step)

  /** From prepared content to a committed head, a marked conflict or a storage error. */
  function CommitSteps(before: Track, w: nat, fault: Fault, r: Outcome): Track {
    if fault == BlobPut then Then(before, Abort(w)) else StoredSteps(Then(before, Put(w)), w, fault, r)
  }

  /** The same once the blob is stored. */
  function StoredSteps(before: Track, w: nat, fault: Fault, r: Outcome): Track {
    if fault == SaveVersion then Then(before, Abort(w))
    else
      var inserted := Then(before, Step.Insert(w));
      if fault != NoFault then Then(inserted, Abort(w))
      else if r.Committed? then Then(inserted, Advance(w))
      else ConflictSteps(Then(inserted, Advance(w)), w)
  }

  /** The rest of a call that lost its compare-and-set. */
  function ConflictSteps(before: Track, w: nat): Track {
    Then(Then(Then(before, Rollback(w)), Reread(w)), SaveRow(w))
  }

  /** An update whose expectation holds, from its read of the base on. */
  function PreparedSteps(before: Track, w: nat, v: Id, readOk: bool, fault: Fault, r: Outcome): Track {
    var loaded := Then(before, Load(w, v, readOk));
    if r == Rejected then Then(loaded, SaveRow(w)) else CommitSteps(loaded, w, fault, r)
  }

  function UpdateSteps(w: nat, a: Id, req: Request, v: Id, readOk: bool, fault: Fault, r: Outcome): Track {
    var read := Then(Start, Read(w, a, req));
    if r == NotFound then Start
    else if r == Stale then Then(read, SaveRow(w))
    else PreparedSteps(read, w, v, readOk, fault, r)
  }

  /** A restore from the look-up of its target on. */
  function CheckedSteps(before: Track, w: nat, v: Id, fault: Fault, r: Outcome): Track {
    var checked := Then(before, Check(w));
    if r == Rejected then checked else ExpectedSteps(checked, w, v, fault, r)
  }

  /** A restore from its comparison with the expected base on. */
  function ExpectedSteps(before: Track, w: nat, v: Id, fault: Fault, r: Outcome): Track {
    if r == Stale then Then(before, SaveRow(w))
    else if r == Unreadable then Then(before, Load(w, v, false))
    else CommitSteps(Then(before, Load(w, v, true)), w, fault, r)
  }

  function RestoreSteps(w: nat, a: Id, req: Request, v: Id, fault: Fault, r: Outcome): Track {
    if r == NotFound then Start else CheckedSteps(Then(Start, Read(w, a, req)), w, v, fault, r)
  }

  function BranchSteps(w: nat, a: Id, wanted: Id, b: Id, r: Outcome): Track {
    var checked := Then(Then(Start, StartBranch(w, a, wanted, b)), Check(w));
    if r == NotFound then Start else if r == Rejected then checked else Then(checked, SaveRow(w))
  }

  // ---------------------------------------------------------------- runs and own steps

  /** The steps of call w. */
  function Own(steps: seq<Step>, w: nat): Track {
    if steps == [] then Start
    else
      var rest := Own(steps[..|steps| - 1], w);
      if Caller(steps[|steps| - 1]) == Some(w) then Then(rest, steps[|steps| - 1]) else rest
  }

  lemma OwnSnoc(steps: seq<Step>, step: Step, w: nat)
    ensures Own(steps + [step], w) == if Caller(step) == Some(w) then Then(Own(steps, w), step) else Own(steps, w)
  {
    assert (steps + [step])[..|steps|] == steps;
  }

  lemma RunSnoc(steps: seq<Step>, step: Step)
    requires IsRun(steps) && Enabled(After(steps), step)
    ensures IsRun(steps + [step]) && After(steps + [step]) == Do(After(steps), step)
  {
    assert (steps + [step])[..|steps|] == steps;
  }

  /** A call without a phase has taken no step. */
  lemma {:induction false} NoStepsYet(steps: seq<Step>, w: nat)
    requires IsRun(steps) && w !in After(steps).writers
    ensures Own(steps, w) == Start
  {
    if steps != [] {
      NoStepsBefore(After(steps[..|steps| - 1]), steps[|steps| - 1], w);
      NoStepsYet(steps[..|steps| - 1], w);
    }
  }

  lemma NoStepsBefore(s: System, step: Step, w: nat)
    requires Enabled(s, step) && w !in Do(s, step).writers
    ensures w !in s.writers && Caller(step) != Some(w)
  {
  }

  /** The history of the service: every step so far, those of each call, and where the trace stood
      when the latest call began. */
  datatype Past = Past(trace: seq<Step>, mine: map<nat, Track>, mark: seq<Step>)

  function Mine(p: Past, w: nat): Track {
    if w in p.mine then p.mine[w] else Start
  }

  /** The past is a run that ends in s and has only grown since the mark. */
  ghost predicate Runs(p: Past, s: System) {
    IsRun(p.trace) && After(p.trace) == s && p.mark <= p.trace && forall w :: Mine(p, w) == Own(p.trace, w)
  }

  /** From p to q call w took the given steps and no others, in one call. */
  ghost predicate Took(p: Past, q: Past, w: nat, own: Track) {
    Mine(q, w) == own && q.mark == p.mark
  }

  /** The past after one more step of call w (or of CreateArtifact). */
  function Next(p: Past, step: Step): Past {
    match Caller(step)
    case None => p.(trace := p.trace + [step])
    case Some(w) => p.(trace := p.trace + [step], mine := p.mine[w := Then(Mine(p, w), step)])
  }

  lemma RunsOn(p: Past, s: System, step: Step)
    requires Runs(p, s) && Enabled(s, step)
    ensures Runs(Next(p, step), Do(s, step))
  {
    RunSnoc(p.trace, step);
    var q := Next(p, step);
    forall w ensures Mine(q, w) == Own(q.trace, w) {
      OwnSnoc(p.trace, step, w);
    }
  }

  lemma RunsKeys(p: Past, s: System)
    requires Runs(p, s)
    ensures s.log.Keys == s.store.artifacts.Keys
  {
    KeysAgree(p.trace);
  }

  lemma Remark(p: Past, s: System, w: nat)
    requires Runs(p, s) && w !in s.writers
    ensures Runs(p.(mark := p.trace), s) && Mine(p, w) == Start
  {
    NoStepsYet(p.trace, w);
  }

  /** The version id a step draws. */
  function Draws(step: Step): Option<Id> {
    match step
    case Create(_, _, v, _) => Some(v)
    case Load(_, v, _) => Some(v)
    case _ => None
  }

  /** Every artifact has a history and the other way round. */
  lemma {:induction false} KeysAgree(steps: seq<Step>)
    requires IsRun(steps)
    ensures After(steps).log.Keys == After(steps).store.artifacts.Keys
  {
    if steps != [] {
      KeysAgree(steps[..|steps| - 1]);
      KeysStep(After(steps[..|steps| - 1]), steps[|steps| - 1]);
    }
  }

  lemma KeysStep(s: System, step: Step)
    requires Enabled(s, step) && s.log.Keys == s.store.artifacts.Keys
    ensures Do(s, step).log.Keys == Do(s, step).store.artifacts.Keys
  {
  }

  /** What a step of another call leaves alone. */
  lemma OtherStep(s: System, step: Step, w: nat, v: Id)
    requires Enabled(s, step) && Caller(step) != Some(w) && Draws(step) != Some(v)
    ensures var t := Do(s, step);
            (w in t.writers <==> w in s.writers) && (w in s.writers ==> t.writers[w] == s.writers[w])
            && (v in t.owner <==> v in s.owner) && s.store.artifacts.Keys <= t.store.artifacts.Keys
  {
  }

  class Service {
    // the database and the blob store
    var artifacts: map<Id, Artifact>
    var versions: map<Id, Version>
    var blobs: map<BlobKey, string>

    // the calls under way and what they did, as the protocol records it
    var writers: map<nat, Writer>
    var owner: map<Id, Owner>
    var log: map<Id, seq<Entry>>
    ghost var past: Past

    function Sys(): System
      reads this
    {
      System(Store(artifacts, versions, blobs), writers, owner, log)
    }

    /** Everything that ever happened to the store is a run of the protocol. */
    ghost predicate Valid()
      reads this
    {
      Runs(past, Sys())
    }

    constructor ()
      ensures Valid() && past.trace == []
    {
      artifacts, versions, blobs := map[], map[], map[];
      writers, owner, log := map[], map[], map[];
      past := Past([], map[], []);
    }

    // -------------------------------------------------------------- other calls

    method Apply(step: Step)
      requires Valid() && Enabled(Sys(), step)
      modifies this
      ensures Valid() && past == Next(old(past), step) && Sys() == Do(old(Sys()), step)
    {
      RunsOn(past, Sys(), step);
      var t := Do(Sys(), step);
      artifacts, versions, blobs := t.store.artifacts, t.store.versions, t.store.blobs;
      writers, owner, log := t.writers, t.owner, t.log;
      past := Next(past, step);
    }

    /** Other calls run: the enabled ones of the planned steps that are not w's and do not draw v. */
    method Others(w: nat, a: Id, v: Id, plan: seq<Step>)
      requires Valid()
      modifies this
      ensures Valid() && Took(old(past), past, w, Mine(old(past), w))
      ensures (w in writers <==> w in old(writers)) && (w in writers ==> writers[w] == old(writers)[w])
      ensures (v in owner <==> v in old(owner)) && (a in old(artifacts) ==> a in artifacts)
      ensures plan == [] ==> versions == old(versions)
    {
      for i := 0 to |plan|
        invariant Valid() && Took(old(past), past, w, Mine(old(past), w))
        invariant (w in writers <==> w in old(writers)) && (w in writers ==> writers[w] == old(writers)[w])
        invariant (v in owner <==> v in old(owner)) && (a in old(artifacts) ==> a in artifacts)
        invariant plan == [] ==> versions == old(versions)
      {
        var step := plan[i];
        if Enabled(Sys(), step) && Caller(step) != Some(w) && Draws(step) != Some(v) {
          OtherStep(Sys(), step, w, v);
          Apply(step);
        }
      }
    }

    // -------------------------------------------------------------- single operations of call w

    /** GetArtifact at the start of an update or a restore. */
    method GetArtifact(w: nat, a: Id, req: Request) returns (row: Option<Artifact>)
      requires Valid() && w !in writers
      modifies this`writers, this`past
      ensures Valid() && row == if a in artifacts then Some(artifacts[a]) else None
      ensures if row.None? then past == old(past) && writers == old(writers)
              else Took(old(past), past, w, Then(Mine(old(past), w), Read(w, a, req)))
                   && w in writers && writers[w] == AfterRead(a, req, row.value)
    {
      if a !in artifacts {
        return None;
      }
      row := Some(artifacts[a]);
      RunsOn(past, Sys(), Read(w, a, req));
      writers := writers[w := AfterRead(a, req, row.value)];
      past := Next(past, Read(w, a, req));
    }

    /** GetArtifactVersion for a restore's target. */
    method LookUpTarget(w: nat, a: Id, req: Request, snap: Artifact) returns (ok: bool)
      requires Valid() && w in writers && writers[w] == Checking(a, req, snap) && req.Restore?
      modifies this`writers, this`past
      ensures Valid() && Took(old(past), past, w, Then(Mine(old(past), w), Check(w)))
      ensures ok == (req.target in versions && versions[req.target].artifact == a)
      ensures w in writers && writers[w] == if ok then AfterExpectation(a, req, snap) else Done(false)
    {
      RunsOn(past, Sys(), Check(w));
      ok := req.target in versions && versions[req.target].artifact == a;
      writers := writers[w := if ok then AfterExpectation(a, req, snap) else Done(false)];
      past := Next(past, Check(w));
    }

    /** GetArtifactVersion for a branch's base. */
    method LookUpBase(w: nat, a: Id, snap: Artifact, base: Id, b: Id) returns (ok: bool)
      requires Valid() && w in writers && writers[w] == Branching(a, snap, base, b)
      modifies this`writers, this`past
      ensures Valid() && Took(old(past), past, w, Then(Mine(old(past), w), Check(w)))
      ensures ok == (base in versions && versions[base].artifact == a)
      ensures w in writers && writers[w] == if ok then Saving(a, Artifact(b, base, snap.number)) else Done(false)
    {
      RunsOn(past, Sys(), Check(w));
      ok := base in versions && versions[base].artifact == a;
      writers := writers[w := if ok then Saving(a, Artifact(b, base, snap.number)) else Done(false)];
      past := Next(past, Check(w));
    }

    /** loadVersionContent; readable says whether the storage layer answers. */
    method LoadVersionContent(id: Id, readable: bool) returns (content: Option<string>)
      ensures content == if readable then ReadContent(Sys().store, id) else None
    {
      if !readable || id !in versions {
        return None;
      }
      var key := BlobKey(versions[id].artifact, id);
      content := if key in blobs then Some(blobs[key]) else None;
    }

    /** The base of an update: its head's content. */
    method LoadBase(w: nat, a: Id, edit: Edit, expected: Id, snap: Artifact, v: Id, readable: bool)
      returns (content: Option<string>)
      requires Valid() && w in writers && writers[w] == Reading(a, Update(edit, expected), snap)
      requires v !in owner && v != ""
      modifies this`writers, this`owner, this`past
      ensures Valid() && content == if readable then ReadContent(Sys().store, snap.current) else None
      ensures Took(old(past), past, w, Then(Mine(old(past), w), Load(w, v, content.Some?)))
      ensures w in writers
      ensures var text := edit(if content.Some? then content.value else "");
              writers[w] == if text.Ok? then Loaded(a, snap, Updated(v, edit, content.Some?), text.value)
                            else Saving(a, snap)
    {
      content := LoadVersionContent(snap.current, readable);
      var step := Load(w, v, content.Some?);
      ghost var t := Do(Sys(), step);
      RunsOn(past, Sys(), step);
      var text := edit(if content.Some? then content.value else "");
      writers := writers[w := if text.Ok? then Loaded(a, snap, Updated(v, edit, content.Some?), text.value)
                              else Saving(a, snap)];
      owner := owner[v := Owner(a, w)];
      past := Next(past, step);
      assert Sys() == t;
    }

    /** The target of a restore. */
    method LoadTarget(w: nat, a: Id, target: Id, expected: Id, snap: Artifact, v: Id, readable: bool)
      returns (content: Option<string>)
      requires Valid() && w in writers && writers[w] == Reading(a, Restore(target, expected), snap)
      requires v !in owner && v != ""
      modifies this`writers, this`owner, this`past
      ensures Valid() && content == if readable then ReadContent(Sys().store, target) else None
      ensures Took(old(past), past, w, Then(Mine(old(past), w), Load(w, v, content.Some?)))
      ensures w in writers
      ensures content.Some? ==> writers[w] == Loaded(a, snap, Restored(v, target, content.value), content.value)
      ensures content.None? ==> writers[w] == Done(false)
    {
      content := LoadVersionContent(target, readable);
      var step := Load(w, v, content.Some?);
      ghost var t := Do(Sys(), step);
      RunsOn(past, Sys(), step);
      writers := writers[w := if content.Some? then Loaded(a, snap, Restored(v, target, content.value), content.value)
                              else Done(false)];
      owner := owner[v := Owner(a, w)];
      past := Next(past, step);
      assert Sys() == t;
    }

    method PutBlob(w: nat, a: Id, snap: Artifact, e: Entry, content: string)
      requires Valid() && w in writers && writers[w] == Loaded(a, snap, e, content)
      modifies this`blobs, this`writers, this`past
      ensures Valid() && Took(old(past), past, w, Then(Mine(old(past), w), Put(w)))
      ensures blobs == old(blobs)[BlobKey(a, e.id) := content]
      ensures w in writers && writers[w] == Stored(a, snap, e, content)
    {
      RunsOn(past, Sys(), Put(w));
      blobs := blobs[BlobKey(a, e.id) := content];
      writers := writers[w := Stored(a, snap, e, content)];
      past := Next(past, Put(w));
    }

    method SaveArtifactVersion(w: nat, a: Id, snap: Artifact, e: Entry, content: string)
      requires Valid() && w in writers && writers[w] == Stored(a, snap, e, content)
      modifies this`versions, this`writers, this`past
      ensures Valid() && Took(old(past), past, w, Then(Mine(old(past), w), Step.Insert(w)))
      ensures versions == old(versions)[e.id := NewVersion(a, snap, e)]
      ensures w in writers && writers[w] == Inserted(a, snap, e, content)
    {
      RunsOn(past, Sys(), Step.Insert(w));
      versions := versions[e.id := NewVersion(a, snap, e)];
      writers := writers[w := Inserted(a, snap, e, content)];
      past := Next(past, Step.Insert(w));
    }

    /** The conditional UPDATE: it writes the row and reports true only on an unmoved head. */
    method SaveArtifactHeadIfCurrent(w: nat, a: Id, snap: Artifact, e: Entry, content: string) returns (advanced: bool)
      requires Valid() && w in writers && writers[w] == Inserted(a, snap, e, content)
      modifies this`artifacts, this`writers, this`log, this`past
      ensures Valid() && Took(old(past), past, w, Then(Mine(old(past), w), Advance(w)))
      ensures advanced <==> a in old(artifacts) && old(artifacts)[a].current == snap.current
                            && old(artifacts)[a].number == snap.number
      ensures artifacts == if advanced then old(artifacts)[a := Artifact(snap.branch, e.id, snap.number + 1)]
                           else old(artifacts)
      ensures w in writers && writers[w] == if advanced then Done(true) else Lost(a, e.id)
    {
      ghost var t := Do(Sys(), Advance(w));
      RunsOn(past, Sys(), Advance(w));
      advanced := a in artifacts && artifacts[a].current == snap.current && artifacts[a].number == snap.number;
      if advanced {
        var history := if a in log then log[a] else [];
        log := log[a := history + [e]];
        artifacts := artifacts[a := Artifact(snap.branch, e.id, snap.number + 1)];
        writers := writers[w := Done(true)];
      } else {
        writers := writers[w := Lost(a, e.id)];
      }
      past := Next(past, Advance(w));
      assert Sys() == t;
    }

    method RollbackPreparedVersion(w: nat, a: Id, v: Id)
      requires Valid() && w in writers && writers[w] == Lost(a, v)
      modifies this`versions, this`writers, this`past
      ensures Valid() && Took(old(past), past, w, Then(Mine(old(past), w), Rollback(w)))
      ensures versions == old(versions) - {v}
      ensures w in writers && writers[w] == RolledBack(a)
    {
      RunsOn(past, Sys(), Rollback(w));
      versions := versions - {v};
      writers := writers[w := RolledBack(a)];
      past := Next(past, Rollback(w));
    }

    /** GetArtifact after a lost compare-and-set. */
    method GetLatest(w: nat, a: Id) returns (row: Artifact)
      requires Valid() && w in writers && writers[w] == RolledBack(a) && a in artifacts
      modifies this`writers, this`past
      ensures Valid() && Took(old(past), past, w, Then(Mine(old(past), w), Reread(w)))
      ensures row == artifacts[a] && w in writers && writers[w] == Saving(a, row)
    {
      RunsOn(past, Sys(), Reread(w));
      row := artifacts[a];
      writers := writers[w := Saving(a, row)];
      past := Next(past, Reread(w));
    }

    /** The unconditional full-row save. */
    method SaveArtifact(w: nat, a: Id, row: Artifact)
      requires Valid() && w in writers && writers[w] == Saving(a, row) && a in artifacts
      modifies this`artifacts, this`writers, this`log, this`past
      ensures Valid() && Took(old(past), past, w, Then(Mine(old(past), w), SaveRow(w)))
      ensures artifacts == old(artifacts)[a := row] && w in writers && writers[w] == Done(false)
    {
      RunsKeys(past, Sys());
      RunsOn(past, Sys(), SaveRow(w));
      log := log[a := log[a] + [Moved(row.current)]];
      artifacts := artifacts[a := row];
      writers := writers[w := Done(false)];
      past := Next(past, SaveRow(w));
    }

    /** A storage error that ends the call. */
    method GiveUp(w: nat)
      requires Valid() && w in writers
      modifies this`writers, this`past
      ensures Valid() && Took(old(past), past, w, Then(Mine(old(past), w), Abort(w)))
      ensures w in writers && writers[w] == Done(false)
    {
      RunsOn(past, Sys(), Abort(w));
      writers := writers[w := Done(false)];
      past := Next(past, Abort(w));
    }

    // -------------------------------------------------------------- whole calls

    ghost method Begin(w: nat)
      requires Valid() && w !in writers
      modifies this`past
      ensures Valid() && past == old(past).(mark := old(past).trace) && Mine(past, w) == Start
    {
      Remark(past, Sys(), w);
      past := past.(mark := past.trace);
    }

    method CreateArtifact(a: Id, b: Id, v: Id, content: string)
      requires Valid() && a !in artifacts && v !in owner && v != ""
      modifies this
      ensures Valid() && past == Next(old(past), Create(a, b, v, content))
      ensures artifacts == old(artifacts)[a := Artifact(b, v, 1)]
      ensures versions == old(versions)[v := Version(a, b, 1, "", "")]
      ensures blobs == old(blobs)[BlobKey(a, v) := content]
    {
      RunsKeys(past, Sys());
      ghost var made := Do(Sys(), Create(a, b, v, content));
      RunsOn(past, Sys(), Create(a, b, v, content));
      WriteRows(a, b, v, content);
      owner := owner[v := Owner(a, -1)];
      log := log[a := [Created(v, content)]];
      past := Next(past, Create(a, b, v, content));
      assert Sys() == made;
    }

    /** The writes of CreateArtifact, in their order. */
    method WriteRows(a: Id, b: Id, v: Id, content: string)
      modifies this`artifacts, this`versions, this`blobs
      ensures artifacts == old(artifacts)[a := Artifact(b, v, 1)]
      ensures versions == old(versions)[v := Version(a, b, 1, "", "")]
      ensures blobs == old(blobs)[BlobKey(a, v) := content]
    {
      blobs := blobs[BlobKey(a, v) := content];
      artifacts := artifacts[a := Artifact(b, "", 0)];
      versions := versions[v := Version(a, b, 1, "", "")];
      artifacts := artifacts[a := Artifact(b, v, 1)];
    }

    /** What UpdateContent and RestoreVersion do once the content is ready. */
    method Commit(w: nat, a: Id, snap: Artifact, e: Entry, content: string, env: nat -> seq<Step>, fault: Fault)
      returns (r: Outcome)
      requires Valid() && w in writers && writers[w] == Loaded(a, snap, e, content) && a in artifacts
      modifies this
      ensures Valid() && Took(old(past), past, w, CommitSteps(Mine(old(past), w), w, fault, r))
      ensures (r == StorageFailed <==> fault != NoFault)
              && (r == StorageFailed || r == Conflict || r == Committed(e.id))
      ensures w in writers && writers[w] == Done(r.Committed?)
    {
      Others(w, a, e.id, env(3));
      if fault == BlobPut {
        GiveUp(w);
        return StorageFailed;
      }
      PutBlob(w, a, snap, e, content);
      r := Insert(w, a, snap, e, content, env, fault);
    }

    /** The rest of Commit once the blob is stored. */
    method Insert(w: nat, a: Id, snap: Artifact, e: Entry, content: string, env: nat -> seq<Step>, fault: Fault)
      returns (r: Outcome)
      requires Valid() && w in writers && writers[w] == Stored(a, snap, e, content)
      requires a in artifacts && fault != BlobPut
      modifies this
      ensures Valid() && Took(old(past), past, w, StoredSteps(Mine(old(past), w), w, fault, r))
      ensures r == StorageFailed <==> fault != NoFault
      ensures r == StorageFailed || r == Conflict || r == Committed(e.id)
      ensures w in writers && writers[w] == Done(r.Committed?)
    {
      Others(w, a, e.id, env(4));
      if fault == SaveVersion {
        GiveUp(w);
        return StorageFailed;
      }
      SaveArtifactVersion(w, a, snap, e, content);
      Others(w, a, e.id, env(5));
      if fault != NoFault {
        GiveUp(w);
        return StorageFailed;
      }
      var advanced := SaveArtifactHeadIfCurrent(w, a, snap, e, content);
      if advanced {
        return Committed(e.id);
      }
      MarkConflict(w, a, e.id, env);
      return Conflict;
    }

    method MarkConflict(w: nat, a: Id, v: Id, env: nat -> seq<Step>)
      requires Valid() && w in writers && writers[w] == Lost(a, v) && a in artifacts
      modifies this
      ensures Valid() && Took(old(past), past, w, ConflictSteps(Mine(old(past), w), w))
      ensures w in writers && writers[w] == Done(false)
    {
      Others(w, a, v, env(6));
      RollbackPreparedVersion(w, a, v);
      SaveLatest(w, a, env);
    }

    /** Read the row again and save it with the conflict marked. */
    method SaveLatest(w: nat, a: Id, env: nat -> seq<Step>)
      requires Valid() && w in writers && writers[w] == RolledBack(a) && a in artifacts
      modifies this
      ensures Valid() && Took(old(past), past, w, Then(Then(Mine(old(past), w), Reread(w)), SaveRow(w)))
      ensures w in writers && writers[w] == Done(false)
    {
      Others(w, a, "", env(7));
      var latest := GetLatest(w, a);
      SaveLater(w, a, latest, env(8));
    }

    /** A full-row save that other calls may precede. */
    method SaveLater(w: nat, a: Id, row: Artifact, plan: seq<Step>)
      requires Valid() && w in writers && writers[w] == Saving(a, row) && a in artifacts
      modifies this
      ensures Valid() && Took(old(past), past, w, Then(Mine(old(past), w), SaveRow(w)))
      ensures w in writers && writers[w] == Done(false) && a in artifacts && artifacts[a] == row
    {
      Others(w, a, "", plan);
      SaveArtifact(w, a, row);
    }

    method UpdateContent(w: nat, a: Id, edit: Edit, expected: Id, v: Id, readable: bool,
                         env: nat -> seq<Step>, fault: Fault)
      returns (r: Outcome, readOk: bool)
      requires Valid() && w !in writers && v !in owner && v != ""
      modifies this
      ensures Valid() && past.mark == old(past).trace
      ensures Mine(past, w) == UpdateSteps(w, a, Update(edit, expected), v, readOk, fault, r)
      ensures r == NotFound || (w in writers && writers[w] == Done(r.Committed?))
      ensures r.Committed? ==> r.id == v && fault == NoFault
      ensures r == NotFound <==> a !in old(artifacts)
      ensures r == Stale <==> a in old(artifacts) && expected != "" && old(artifacts)[a].current != expected
      ensures r != Unreadable
    {
      Begin(w);
      readOk := false;
      var req := Update(edit, expected);
      var row := GetArtifact(w, a, req);
      if row.None? {
        return NotFound, false;
      }
      var snap := row.value;
      Others(w, a, v, env(1));
      if expected != "" && snap.current != expected {
        SaveArtifact(w, a, snap); // with the conflict marked
        return Stale, false;
      }
      r, readOk := PrepareUpdate(w, a, snap, edit, expected, v, readable, env, fault);
    }

    /** UpdateContent from its read of the base on. */
    method PrepareUpdate(w: nat, a: Id, snap: Artifact, edit: Edit, expected: Id, v: Id, readable: bool,
                         env: nat -> seq<Step>, fault: Fault)
      returns (r: Outcome, readOk: bool)
      requires Valid() && w in writers && writers[w] == Reading(a, Update(edit, expected), snap)
      requires a in artifacts && v !in owner && v != ""
      modifies this
      ensures Valid() && w in writers && writers[w] == Done(r.Committed?)
      ensures r == Rejected || r == StorageFailed || r == Conflict || (r == Committed(v) && fault == NoFault)
      ensures Took(old(past), past, w, PreparedSteps(Mine(old(past), w), w, v, readOk, fault, r))
    {
      var read := LoadBase(w, a, edit, expected, snap, v, readable);
      readOk := read.Some?;
      var prepared := edit(if readOk then read.value else "");
      if prepared.Err? {
        SaveLater(w, a, snap, env(3)); // with the failure recorded
        return Rejected, readOk;
      }
      r := Commit(w, a, snap, Updated(v, edit, readOk), prepared.value, env, fault);
    }

    method RestoreVersion(w: nat, a: Id, target: Id, expected: Id, v: Id, readable: bool,
                          env: nat -> seq<Step>, fault: Fault)
      returns (r: Outcome, found: bool)
      requires Valid() && w !in writers && v !in owner && v != ""
      modifies this
      ensures Valid() && past.mark == old(past).trace
      ensures Mine(past, w) == RestoreSteps(w, a, Restore(target, expected), v, fault, r)
      ensures r == NotFound || (w in writers && writers[w] == Done(r.Committed?))
      ensures r.Committed? ==> r.id == v && fault == NoFault
      ensures r == NotFound <==> a !in old(artifacts)
      ensures a in old(artifacts) && env(1) == [] ==>
                (found <==> target in old(versions) && old(versions)[target].artifact == a)
      ensures r == Rejected <==> a in old(artifacts) && !found
      ensures r == Stale <==> a in old(artifacts) && found && expected != "" && old(artifacts)[a].current != expected
    {
      Begin(w);
      found := false;
      var row := GetArtifact(w, a, Restore(target, expected));
      if row.None? {
        return NotFound, false;
      }
      var snap := row.value;
      Others(w, a, v, env(1));
      r, found := CheckRestore(w, a, snap, target, expected, v, readable, env, fault);
    }

    /** RestoreVersion from the look-up of its target on. */
    method CheckRestore(w: nat, a: Id, snap: Artifact, target: Id, expected: Id, v: Id, readable: bool,
                        env: nat -> seq<Step>, fault: Fault)
      returns (r: Outcome, found: bool)
      requires Valid() && w in writers && writers[w] == Checking(a, Restore(target, expected), snap)
      requires a in artifacts && v !in owner && v != ""
      modifies this
      ensures Valid() && w in writers && writers[w] == Done(r.Committed?) && r != NotFound
      ensures r.Committed? ==> r.id == v && fault == NoFault
      ensures Took(old(past), past, w, CheckedSteps(Mine(old(past), w), w, v, fault, r))
      ensures found <==> target in old(versions) && old(versions)[target].artifact == a
      ensures r == Rejected <==> !found
      ensures r == Stale <==> found && expected != "" && snap.current != expected
    {
      found := LookUpTarget(w, a, Restore(target, expected), snap);
      if !found {
        return Rejected, false;
      }
      Others(w, a, v, env(2));
      r := ExpectBase(w, a, snap, target, expected, v, readable, env, fault);
    }

    /** RestoreVersion from its comparison with the expected base on. */
    method ExpectBase(w: nat, a: Id, snap: Artifact, target: Id, expected: Id, v: Id, readable: bool,
                      env: nat -> seq<Step>, fault: Fault)
      returns (r: Outcome)
      requires Valid() && w in writers && writers[w] == AfterExpectation(a, Restore(target, expected), snap)
      requires a in artifacts && v !in owner && v != ""
      modifies this
      ensures Valid() && w in writers && writers[w] == Done(r.Committed?) && r != NotFound && r != Rejected
      ensures r.Committed? ==> r.id == v && fault == NoFault
      ensures Took(old(past), past, w, ExpectedSteps(Mine(old(past), w), w, v, fault, r))
      ensures r == Stale <==> expected != "" && snap.current != expected
    {
      if expected != "" && snap.current != expected {
        SaveArtifact(w, a, snap);
        return Stale;
      }
      r := PrepareRestore(w, a, snap, target, expected, v, readable, env, fault);
    }

    /** RestoreVersion from its read of the target's content on. */
    method PrepareRestore(w: nat, a: Id, snap: Artifact, target: Id, expected: Id, v: Id, readable: bool,
                          env: nat -> seq<Step>, fault: Fault)
      returns (r: Outcome)
      requires Valid() && w in writers && writers[w] == Reading(a, Restore(target, expected), snap)
      requires a in artifacts && v !in owner && v != ""
      modifies this
      ensures Valid() && w in writers && writers[w] == Done(r.Committed?)
      ensures r == Unreadable || r == StorageFailed || r == Conflict || (r == Committed(v) && fault == NoFault)
      ensures Took(old(past), past, w, ExpectedSteps(Mine(old(past), w), w, v, fault, r))
    {
      var read := LoadTarget(w, a, target, expected, snap, v, readable);
      if read.Some? {
        r := Commit(w, a, snap, Restored(v, target, read.value), read.value, env, fault);
      } else {
        r := Unreadable;
      }
    }

    method BranchArtifact(w: nat, a: Id, wanted: Id, b: Id, env: nat -> seq<Step>) returns (r: Outcome)
      requires Valid() && w !in writers
      modifies this
      ensures Valid() && past.mark == old(past).trace
      ensures Mine(past, w) == BranchSteps(w, a, wanted, b, r)
      ensures r == NotFound <==> a !in old(artifacts)
      ensures r.Committed? ==> r.id == (if wanted != "" then wanted else old(artifacts)[a].current)
                               && a in artifacts && artifacts[a] == Artifact(b, r.id, old(artifacts)[a].number)
      ensures r == NotFound || r == Rejected || r.Committed?
      ensures r == NotFound || (w in writers && writers[w] == Done(false))
    {
      Begin(w);
      if a !in artifacts {
        return NotFound;
      }
      var row := artifacts[a];
      var base := if wanted != "" then wanted else row.current;
      Apply(StartBranch(w, a, wanted, b));
      Others(w, a, "", env(1));
      var found := LookUpBase(w, a, row, base, b);
      if !found {
        return Rejected;
      }
      SaveLater(w, a, Artifact(b, base, row.number), env(2));
      return Committed(base);
    }

    /** Archive and lifecycle changes: read the row, save the row. */
    method TransitionLifecycle(w: nat, a: Id, env: nat -> seq<Step>) returns (r: bool)
      requires Valid() && w !in writers
      modifies this
      ensures Valid() && past.mark == old(past).trace && r == (a in old(artifacts))
      ensures Mine(past, w) == if r then Then(Then(Start, StartSave(w, a)), SaveRow(w)) else Start
    {
      Begin(w);
      if a !in artifacts {
        return false;
      }
      var row := artifacts[a];
      Apply(StartSave(w, a));
      SaveLater(w, a, row, env(1));
      return true;
    }
  }

  // ---------------------------------------------------------------- what this gives the callers

  /** Whatever calls were made and however they interleaved, as long as full-row saves were
      fresh: reading a committed version gives what replaying the artifact's history gives, and
      the head number counts the commits. */
  lemma ServiceReplays(svc: Service, a: Id)
    requires svc.Valid() && IsRun(svc.past.trace) && SafeRun(svc.past.trace) && a in svc.artifacts
    ensures a in svc.log
    ensures forall v :: v in Replay(svc.log[a]) ==> ReadContent(svc.Sys().store, v) == Some(Replay(svc.log[a])[v])
    ensures |ArtifactProtocol.Committed(svc.log[a])| == svc.artifacts[a].number
  {
    HeadContentIsReplay(svc.past.trace, a);
    NumbersAreExact(svc.past.trace, a);
  }
}
