/**
 Applying a configuration document to the node, and the handler that approves a change, applies
 it and records how that went.
 */
module ConfigApply {
  import opened Text
  import opened ConfigApproval
  import opened ConfigChangeStore

  // ----- the snapshot to return to -----

  /**
   Where the current configuration may be found.  `entry` is the central store's answer: `None`
   is an error, `Some(None)` an absent or empty snapshot.
   */
  datatype Sources = Sources(
    postgres: bool,
    entry: Option<Option<string>>,
    file: Option<string>,
    desired: Option<string>,
    local: Option<string>)

  function FirstOf(a: Option<string>, b: Option<string>): (r: Option<string>) {
    if a.Some? then a else b
  }

  function CurrentSnapshot(s: Sources): (r: Option<string>) {
    var central := if s.entry.Some? then s.entry.value else None;
    if s.postgres then
      if s.entry.None? then None else FirstOf(central, FirstOf(s.file, FirstOf(s.desired, s.local)))
    else FirstOf(s.file, FirstOf(s.desired, FirstOf(central, s.local)))
  }

  /** The first of several places that has a text. */
  ghost predicate IsFirstPresent(places: seq<Option<string>>, r: Option<string>) {
    if r.None? then forall k :: 0 <= k < |places| ==> places[k].None?
    else exists k :: 0 <= k < |places| && places[k] == r && forall j :: 0 <= j < k ==> places[j].None?
  }

  /**
   Where the snapshot comes from: with a central database that answers, from there, else from the
   file, the desired state and the local copy; without one the file comes first.
   */
  lemma SnapshotOrder(s: Sources)
    ensures s.postgres && s.entry.None? ==> CurrentSnapshot(s).None?
    ensures s.postgres && s.entry.Some? ==> IsFirstPresent([s.entry.value, s.file, s.desired, s.local], CurrentSnapshot(s))
    ensures !s.postgres ==>
      IsFirstPresent([s.file, s.desired, if s.entry.Some? then s.entry.value else None, s.local], CurrentSnapshot(s))
  {
    var central := if s.entry.Some? then s.entry.value else None;
    FirstOfFour(central, s.file, s.desired, s.local);
    FirstOfFour(s.file, s.desired, central, s.local);
  }

  lemma FirstOfFour(a: Option<string>, b: Option<string>, c: Option<string>, d: Option<string>)
    ensures IsFirstPresent([a, b, c, d], FirstOf(a, FirstOf(b, FirstOf(c, d))))
  {
    var places := [a, b, c, d];
    var k := if a.Some? then 0 else if b.Some? then 1 else if c.Some? then 2 else 3;
    assert places[k] == FirstOf(a, FirstOf(b, FirstOf(c, d)));
  }

  /** Whether each write and the reload of one apply succeed. */
  datatype Luck = Luck(versionSaved: bool, written: bool, reloaded: bool, restored: bool)

  class ConfigNode {
    var file: Option<string>
    var running: string

    /** Writes the new text and reloads; when the reload fails, writes the snapshot back. */
    method ApplyConfigDocument(sources: Sources, text: string, luck: Luck) returns (ok: bool)
      requires sources.file == file
      modifies this
      ensures ok <==> CurrentSnapshot(sources).Some? && luck.versionSaved && luck.written && luck.reloaded
      ensures ok ==> file == Some(text) && running == text
      ensures !ok ==> running == old(running)
      ensures !ok ==> (file == old(file) <==> FileSurvives(sources, text, luck))
      ensures CurrentSnapshot(sources).Some? && luck.versionSaved && luck.written && !luck.reloaded ==>
        file == if luck.restored then CurrentSnapshot(sources) else Some(text)
    {
      var snapshot := CurrentSnapshot(sources);
      if snapshot.None? {
        return false;
      }
      if !luck.versionSaved {
        return false;
      }
      if !luck.written {
        return false;
      }
      file := Some(text);
      if !luck.reloaded {
        if luck.restored {
          file := snapshot;
        }
        return false;
      }
      running := text;
      return true;
    }
  }

  /** When a failed apply leaves the file as it was: exactly when what it wrote last was the same. */
  predicate FileSurvives(s: Sources, text: string, luck: Luck) {
    || CurrentSnapshot(s).None? || !luck.versionSaved || !luck.written
    || (if luck.restored then CurrentSnapshot(s) == s.file else Some(text) == s.file)
  }

  /**
   A failed reload whose write back succeeds restores the file exactly when there was one and the
   central store, where it is asked first, holds the same text.
   */
  lemma FileComesBackIff(s: Sources, text: string)
    requires CurrentSnapshot(s).Some?
    ensures FileSurvives(s, text, Luck(true, true, false, true))
       <==> s.file.Some? && (s.postgres && s.entry.Some? && s.entry.value.Some? ==> s.entry.value == s.file)
  {
  }

  // ----- the approval handler -----

  datatype Answer = Refused(error: Error) | NotApplied | AppliedButUnrecorded | Done(change: Change)

  /** Approve, apply, mark. */
  method HandleApprove(store: ChangeStore, node: ConfigNode, render: Payload -> string, id: string, approver: string,
                       now: int, stamp: int, approvalSaved: bool, sources: Sources, luck: Luck,
                       later: int, reason: string, markSaved: bool)
    returns (answer: Answer)
    requires store.Valid() && sources.file == node.file
    modifies store, node
    ensures store.Valid()
    ensures var approved := DoApprove(old(store.Value()), id, approver, now, stamp, approvalSaved);
      if approved.1.Err? then
        answer == Refused(approved.1.error) && store.Value() == approved.0 && node.file == old(node.file) && node.running == old(node.running)
      else
        store.Value() == DoMark(approved.0, id, !answer.NotApplied?, reason, later, markSaved).0
    ensures answer.Done? ==>
      && answer.change.status == Applied && id in store.changes && store.changes[id] == answer.change
      && node.running == render(answer.change.payload) && node.file == Some(node.running)
    ensures answer.AppliedButUnrecorded? ==>
      && id in store.changes && store.changes[id].status == Approved && node.running == render(store.changes[id].payload)
    ensures answer.NotApplied? ==> node.running == old(node.running)
  {
    var r := store.ApproveChange(id, approver, now, stamp, approvalSaved);
    if r.Err? {
      return Refused(r.error);
    }
    var worked := node.ApplyConfigDocument(sources, render(r.change.payload), luck);
    if !worked {
      var _ := store.MarkFailed(id, reason, later, markSaved);
      return NotApplied;
    }
    var m := store.MarkApplied(id, later, markSaved);
    if m.Err? {
      return AppliedButUnrecorded;
    }
    return Done(m.change);
  }

  /** The three calls of the handler are an approve, an apply and a mark of the protocol. */
  lemma HandlerFollowsProtocol(s: State, id: string, approver: string, check: int, stamp: int, approvalSaved: bool, worked: bool,
                               later: int, reason: string, markSaved: bool)
    requires s.now <= check <= stamp <= later && DoApprove(s.store, id, approver, check, stamp, approvalSaved).1.Ok?
    ensures var approved := DoApprove(s.store, id, approver, check, stamp, approvalSaved);
      var approve := Approve(id, approver, check, stamp, approvalSaved);
      && Enabled(s, approve)
      && var s1 := After(s, approve);
      && Enabled(s1, Tick(later))
      && var s2 := After(s1, Tick(later));
      var apply := Apply(Applying(id, approved.1.change.payload), worked);
      && Enabled(s2, apply)
      && var s3 := After(s2, apply);
      var mark := Mark(Marking(id, worked), reason, markSaved);
      && Enabled(s3, mark)
      && After(s3, mark).store == DoMark(approved.0, id, worked, reason, later, markSaved).0
  {
    hide After, Enabled, DoApprove, DoMark;
    ApprovedApplies(s, id, approver, check, stamp, approvalSaved, worked, later);
    var payload := DoApprove(s.store, id, approver, check, stamp, approvalSaved).1.change.payload;
    var approve := Approve(id, approver, check, stamp, approvalSaved);
    AppliedMarks(After(After(s, approve), Tick(later)), Applying(id, payload), worked, reason, markSaved);
  }

  lemma ApprovedApplies(s: State, id: string, approver: string, check: int, stamp: int, ok: bool, worked: bool, later: int)
    requires s.now <= check <= stamp <= later && DoApprove(s.store, id, approver, check, stamp, ok).1.Ok?
    ensures var approved := DoApprove(s.store, id, approver, check, stamp, ok);
      var approve := Approve(id, approver, check, stamp, ok);
      && Enabled(s, approve)
      && var s1 := After(s, approve);
      && Enabled(s1, Tick(later))
      && Enabled(After(s1, Tick(later)), Apply(Applying(id, approved.1.change.payload), worked))
      && After(s1, Tick(later)).store == approved.0 && After(s1, Tick(later)).now == later
  {
    hide DoApprove;
  }

  lemma AppliedMarks(s: State, h: Handler, worked: bool, reason: string, ok: bool)
    requires Enabled(s, Apply(h, worked))
    ensures var t, mark := After(s, Apply(h, worked)), Mark(Marking(h.id, worked), reason, ok);
      Enabled(t, mark) && After(t, mark).store == DoMark(s.store, h.id, worked, reason, s.now, ok).0
  {
    hide DoMark;
  }
}
