/**
 The table of session metadata: snapshots of the sessions a node reports, and terminations.
 Times are whole seconds.
 */
module SessionMetadata {
  import opened Text

  datatype Details = Details(
    username: string, sourceIp: string, clientVersion: string, clientOs: string, deviceFingerprint: string,
    instanceId: string, targetHost: string, targetPort: int, bytesIn: int, bytesOut: int, recordingFile: string)

  datatype Session = Session(id: string, details: Details, startUnix: int, status: string)

  datatype Status = Active | Closing | Terminated | Closed

  datatype Row = Row(details: Details, startUnix: int, status: Status, lastSeen: int, closedAt: Option<int>, updated: int)

  type Table = map<string, Row>

  function NormalizeStatus(status: string): (r: Status) {
    var s := ToLower(Trim(status));
    if s == "" || s == "active" then Active
    else if s == "closing" then Closing
    else if s == "terminated" then Terminated
    else Closed
  }

  predicate IsLive(s: Status) {
    s == Active || s == Closing
  }

  function RowOf(x: Session, seen: int): (r: Row) {
    var status := NormalizeStatus(x.status);
    Row(x.details, if x.startUnix <= 0 then seen else x.startUnix, status, seen, if IsLive(status) then None else Some(seen), seen)
  }

  function Ended(r: Row, status: Status, when: int): (t: Row) {
    r.(status := status, closedAt := if r.closedAt.Some? then r.closedAt else Some(when), lastSeen := when, updated := when)
  }

  // ----- snapshots -----

  /** The ids a snapshot lists: trimmed, and not blank. */
  function Listed(sessions: seq<Session>): (r: set<string>) {
    if sessions == [] then {} else
      var n := |sessions| - 1;
      var id := Trim(sessions[n].id);
      if id == "" then Listed(sessions[..n]) else Listed(sessions[..n]) + {id}
  }

  /** The last session that a snapshot lists under an id. */
  function LastOf(sessions: seq<Session>, id: string): (r: Session)
    requires id in Listed(sessions)
    ensures r in sessions && Trim(r.id) == id && id != ""
  {
    var n := |sessions| - 1;
    if Trim(sessions[n].id) == id && id != "" then sessions[n] else LastOf(sessions[..n], id)
  }

  ghost function Upserted(t: Table, sessions: seq<Session>, seen: int): (r: Table) {
    map id | id in t.Keys + Listed(sessions) :: if id in Listed(sessions) then RowOf(LastOf(sessions, id), seen) else t[id]
  }

  /** The listed rows as reported; of the others, the live ones closed and the rest as they were. */
  ghost function Snapshot(t: Table, sessions: seq<Session>, seen: int): (r: Table) {
    map id | id in t.Keys + Listed(sessions) ::
      if id in Listed(sessions) then RowOf(LastOf(sessions, id), seen)
      else if IsLive(t[id].status) then Ended(t[id], Closed, seen)
      else t[id]
  }

  function CloseMissing(t: Table, listed: set<string>, seen: int): (r: Table) {
    map id | id in t :: if IsLive(t[id].status) && id !in listed then Ended(t[id], Closed, seen) else t[id]
  }

  ghost function Terminate(t: Table, id: string, when: int): (r: Table) {
    if Trim(id) != "" && id in t then t[id := Ended(t[id], Terminated, when)] else t
  }

  lemma UpsertsOneMore(t: Table, sessions: seq<Session>, x: Session, seen: int)
    ensures var u := Upserted(t, sessions, seen);
      Upserted(t, sessions + [x], seen) == if Trim(x.id) == "" then u else u[Trim(x.id) := RowOf(x, seen)]
  {
    hide Trim, RowOf;
    var more := sessions + [x];
    assert more[..|sessions|] == sessions && more[|sessions|] == x;
    ListsOneMore(sessions, x);
  }

  lemma ListsOneMore(sessions: seq<Session>, x: Session)
    ensures Listed(sessions + [x]) == if Trim(x.id) == "" then Listed(sessions) else Listed(sessions) + {Trim(x.id)}
  {
    hide Trim;
    assert (sessions + [x])[..|sessions|] == sessions;
  }

  lemma NothingUpserted(t: Table, seen: int)
    ensures Upserted(t, [], seen) == t && Listed([]) == {}
  {
  }

  lemma SnapshotIsUpsertAndClose(t: Table, sessions: seq<Session>, seen: int)
    ensures CloseMissing(Upserted(t, sessions, seen), Listed(sessions), seen) == Snapshot(t, sessions, seen)
  {
    hide Listed, LastOf, RowOf, Ended;
  }

  datatype Outcome = Done | NotFound | Failed

  class SessionMetadataStore {
    var rows: Table

    constructor ()
      ensures rows == map[]
    {
      rows := map[];
    }

    /** One transaction; `fails(k)` tells whether its k-th statement fails. */
    method UpsertSnapshot(sessions: seq<Session>, seen: int, fails: nat -> bool) returns (ok: bool)
      modifies this
      ensures ok ==> rows == Snapshot(old(rows), sessions, seen)
      ensures !ok ==> rows == old(rows)
      ensures (forall k :: !fails(k)) ==> ok
    {
      hide Trim, RowOf, Upserted, Listed, Snapshot, CloseMissing;
      if fails(0) {
        return false;
      }
      var tx := rows;
      var seenIds := {};
      NothingUpserted(rows, seen);
      assert sessions[..0] == [];
      for i := 0 to |sessions|
        invariant rows == old(rows)
        invariant tx == Upserted(rows, sessions[..i], seen) && seenIds == Listed(sessions[..i])
      {
        assert sessions[..i + 1] == sessions[..i] + [sessions[i]];
        UpsertsOneMore(rows, sessions[..i], sessions[i], seen);
        ListsOneMore(sessions[..i], sessions[i]);
        var id := Trim(sessions[i].id);
        if id == "" {
          continue;
        }
        seenIds := seenIds + {id};
        if fails(i + 1) {
          return false;
        }
        tx := tx[id := RowOf(sessions[i], seen)];
      }
      assert sessions[..|sessions|] == sessions;
      SnapshotIsUpsertAndClose(rows, sessions, seen);
      if fails(|sessions| + 1) {
        return false;
      }
      tx := CloseMissing(tx, seenIds, seen);
      if fails(|sessions| + 2) {
        return false;
      }
      rows := tx;
      return true;
    }

    /** The statement may fail, and so may asking how many rows it changed. */
    method MarkTerminated(id: string, when: int, fails: bool, countFails: bool) returns (r: Outcome)
      modifies this
      ensures rows == if fails then old(rows) else Terminate(old(rows), id, when)
      ensures r == Failed <==> Trim(id) != "" && (fails || countFails)
      ensures r == NotFound <==> Trim(id) != "" && !fails && !countFails && id !in old(rows)
    {
      if Trim(id) == "" {
        return Done;
      }
      if fails {
        return Failed;
      }
      var affected := if id in rows then 1 else 0;
      if id in rows {
        rows := rows[id := Ended(rows[id], Terminated, when)];
      }
      if countFails {
        return Failed;
      }
      if affected == 0 {
        return NotFound;
      }
      return Done;
    }
  }

  // ----- runs -----

  /** Snapshots and terminations that took effect; the others leave the table alone. */
  datatype Action = Report(sessions: seq<Session>, seen: int) | End(id: string, when: int)

  ghost function After(t: Table, a: Action): (r: Table) {
    match a
    case Report(sessions, seen) => Snapshot(t, sessions, seen)
    case End(id, when) => Terminate(t, id, when)
  }

  ghost function Run(actions: seq<Action>): (t: Table) {
    if actions == [] then map[] else After(Run(actions[..|actions| - 1]), actions[|actions| - 1])
  }

  ghost predicate IsLiveRow(t: Table, id: string) {
    id in t && (t[id].status == Active || t[id].status == Closing)
  }

  /** Which reported texts mean a live session, in any letter case. */
  ghost predicate IsLiveText(text: string) {
    Trim(text) == "" || SameLetters(Trim(text), "active") || SameLetters(Trim(text), "closing")
  }

  /** The closing time is set exactly on rows that are not live; ids are trimmed. */
  ghost predicate RowFits(t: Table, id: string) {
    id in t ==> (t[id].closedAt.Some? <==> !IsLive(t[id].status)) && t[id].lastSeen == t[id].updated && id != "" && Trim(id) == id
  }

  lemma {:induction false} TrimmedTwice(s: string)
    ensures Trim(Trim(s)) == Trim(s)
  {
    hide Trim, TrimLeft, TrimRight;
    var left, right := TrimParts(s);
    TrimOfTrimmed(Trim(s));
  }

  lemma StepFits(t: Table, a: Action, id: string)
    requires RowFits(t, id)
    ensures RowFits(After(t, a), id)
  {
    hide Trim, NormalizeStatus;
    if a.Report? && id in Listed(a.sessions) {
      TrimmedTwice(LastOf(a.sessions, id).id);
    }
  }

  /** In every run from an empty table, closed_at says exactly which rows are not live. */
  lemma {:induction false} EveryRunFits(actions: seq<Action>, id: string)
    ensures RowFits(Run(actions), id)
  {
    hide RowFits, After;
    if actions == [] {
      NoRowFits(id);
    } else {
      EveryRunFits(actions[..|actions| - 1], id);
      StepFits(Run(actions[..|actions| - 1]), actions[|actions| - 1], id);
    }
  }

  lemma NoRowFits(id: string)
    ensures RowFits(map[], id)
  {
  }

  /** Which sessions are live, from the reports alone: the last report, less what ended since. */
  ghost predicate ReportedLive(actions: seq<Action>, id: string) {
    if actions == [] then false else
      match actions[|actions| - 1]
      case Report(sessions, seen) => id in Listed(sessions) && IsLiveText(LastOf(sessions, id).status)
      case End(x, when) => ReportedLive(actions[..|actions| - 1], id) && x != id
  }

  /** Which reported texts mean what, in any letter case and with any white space around. */
  lemma StatusTexts(text: string)
    ensures NormalizeStatus(text) == Active <==> Trim(text) == "" || SameLetters(Trim(text), "active")
    ensures NormalizeStatus(text) == Closing <==> SameLetters(Trim(text), "closing")
    ensures NormalizeStatus(text) == Terminated <==> SameLetters(Trim(text), "terminated")
  {
    hide Trim, ToLower;
    LowerWord(Trim(text), "");
    LowerWord(Trim(text), "active");
    LowerWord(Trim(text), "closing");
    LowerWord(Trim(text), "terminated");
  }

  lemma LiveTextIff(text: string)
    ensures IsLive(NormalizeStatus(text)) <==> IsLiveText(text)
  {
    hide Trim, NormalizeStatus, SameLetters;
    StatusTexts(text);
  }

  /** The live rows are exactly those of the last snapshot that have not ended since. */
  lemma {:induction false} LiveIffReported(actions: seq<Action>, id: string)
    ensures IsLiveRow(Run(actions), id) <==> ReportedLive(actions, id)
  {
    hide NormalizeStatus, Listed, LastOf, Trim, IsLiveText;
    if actions != [] {
      var before, last := actions[..|actions| - 1], actions[|actions| - 1];
      LiveIffReported(before, id);
      EveryRunFits(before, id);
      if last.Report? && id in Listed(last.sessions) {
        LiveTextIff(LastOf(last.sessions, id).status);
      }
    }
  }

  /** Nothing touches this id: no report lists it, no termination names it. */
  ghost predicate Untouched(actions: seq<Action>, id: string) {
    forall k :: 0 <= k < |actions| ==>
      match actions[k] case Report(sessions, seen) => id !in Listed(sessions) case End(x, when) => x != id
  }

  /** A row never disappears, and a closed row stays as it is until its id is named again. */
  lemma {:induction false} RowsStay(actions: seq<Action>, more: seq<Action>, id: string)
    requires id in Run(actions)
    ensures id in Run(actions + more)
    ensures Untouched(more, id) && !IsLive(Run(actions)[id].status) ==> Run(actions + more)[id] == Run(actions)[id]
    decreases |more|
  {
    hide Listed, LastOf, Trim, RowOf;
    if more == [] {
      assert actions + more == actions;
    } else {
      var n := |more| - 1;
      RowsStay(actions, more[..n], id);
      assert (actions + more)[..|actions + more| - 1] == actions + more[..n];
    }
  }

  /** With times that do not go back, no row is closed after it was last updated. */
  ghost predicate TimesGrow(actions: seq<Action>) {
    forall i, j :: 0 <= i < j < |actions| ==> TimeOf(actions[i]) <= TimeOf(actions[j])
  }

  function TimeOf(a: Action): (r: int) {
    match a case Report(_, seen) => seen case End(_, when) => when
  }

  lemma {:induction false} ClosedBeforeUpdated(actions: seq<Action>, id: string)
    requires TimesGrow(actions) && id in Run(actions)
    ensures actions != [] && Run(actions)[id].updated <= TimeOf(actions[|actions| - 1])
    ensures Run(actions)[id].closedAt.Some? ==> Run(actions)[id].closedAt.value <= Run(actions)[id].updated
  {
    hide Listed, LastOf, Trim, NormalizeStatus;
    if actions == [] {
      assert false;
    } else {
      var n := |actions| - 1;
      var before := actions[..n];
      if id in Run(before) {
        ClosedBeforeUpdated(before, id);
        assert TimeOf(actions[n - 1]) <= TimeOf(actions[n]);
      }
    }
  }

  // ----- a row from its history -----

  /** The last session of a report that stands under an id. */
  ghost predicate IsLastOf(sessions: seq<Session>, id: string, i: int) {
    0 <= i < |sessions| && Trim(sessions[i].id) == id && forall j :: i < j < |sessions| ==> Trim(sessions[j].id) != id
  }

  lemma {:induction false} ListedIff(sessions: seq<Session>, id: string)
    ensures id in Listed(sessions) <==> id != "" && exists i :: 0 <= i < |sessions| && Trim(sessions[i].id) == id
  {
    hide Trim;
    if sessions != [] {
      var n := |sessions| - 1;
      var before := sessions[..n];
      ListedIff(before, id);
      assert forall i :: 0 <= i < n ==> sessions[i] == before[i];
    }
  }

  lemma {:induction false} LastOfIs(sessions: seq<Session>, id: string) returns (i: int)
    requires id in Listed(sessions)
    ensures IsLastOf(sessions, id, i) && LastOf(sessions, id) == sessions[i]
  {
    hide Trim;
    var n := |sessions| - 1;
    if Trim(sessions[n].id) == id {
      i := n;
      ListedIff(sessions, id);
    } else {
      i := LastOfIs(sessions[..n], id);
    }
  }

  /** Action k is the last report that lists the id. */
  ghost predicate LastListedAt(actions: seq<Action>, id: string, k: int) {
    && 0 <= k < |actions| && actions[k].Report? && id in Listed(actions[k].sessions)
    && forall j :: k < j < |actions| && actions[j].Report? ==> id !in Listed(actions[j].sessions)
  }

  ghost predicate EndedAt(actions: seq<Action>, id: string, k: int, j: int) {
    0 <= k < j < |actions| && actions[j] == End(id, TimeOf(actions[j]))
  }

  ghost predicate MissingAt(actions: seq<Action>, k: int, j: int) {
    0 <= k < j < |actions| && actions[j].Report?
  }

  /** The first termination or report without it after action k. */
  ghost predicate FirstOver(actions: seq<Action>, id: string, k: int, j: int) {
    && (EndedAt(actions, id, k, j) || MissingAt(actions, k, j))
    && forall i :: k < i < j ==> !EndedAt(actions, id, k, i) && !MissingAt(actions, k, i)
  }

  ghost predicate NeverEnded(actions: seq<Action>, id: string, k: int) {
    forall j :: !EndedAt(actions, id, k, j)
  }

  ghost predicate NeverMissing(actions: seq<Action>, k: int) {
    forall j :: !MissingAt(actions, k, j)
  }

  /**
   Terminated when it was ended since; else closed when it was reported live and a later report
   misses it; else as reported.
   */
  ghost function StatusOf(actions: seq<Action>, id: string, k: int, reported: Status): (r: Status) {
    if !NeverEnded(actions, id, k) then Terminated
    else if IsLive(reported) && !NeverMissing(actions, k) then Closed
    else reported
  }

  /** The first closing time: when it was reported closed, else when it was first over. */
  ghost predicate ClosedFits(actions: seq<Action>, id: string, k: int, live: bool, closedAt: Option<int>)
    requires 0 <= k < |actions|
  {
    if !live then closedAt == Some(TimeOf(actions[k]))
    else if NeverEnded(actions, id, k) && NeverMissing(actions, k) then closedAt == None
    else exists j :: FirstOver(actions, id, k, j) && closedAt == Some(TimeOf(actions[j]))
  }

  ghost predicate LastEndedAt(actions: seq<Action>, id: string, k: int, j: int) {
    EndedAt(actions, id, k, j) && forall i :: j < i ==> !EndedAt(actions, id, k, i)
  }

  /** The last change: its last termination, else the report that first missed it alive, else its own. */
  ghost predicate UpdatedFits(actions: seq<Action>, id: string, k: int, live: bool, updated: int)
    requires 0 <= k < |actions|
  {
    if !NeverEnded(actions, id, k) then exists j :: LastEndedAt(actions, id, k, j) && updated == TimeOf(actions[j])
    else if live && !NeverMissing(actions, k) then exists j :: FirstOver(actions, id, k, j) && updated == TimeOf(actions[j])
    else updated == TimeOf(actions[k])
  }

  lemma HistoryOneMore(actions: seq<Action>, a: Action, id: string, k: int)
    requires 0 <= k < |actions|
    ensures var more, n := actions + [a], |actions|;
      && (NeverEnded(more, id, k) <==> NeverEnded(actions, id, k) && !EndedAt(more, id, k, n))
      && (NeverMissing(more, k) <==> NeverMissing(actions, k) && !MissingAt(more, k, n))
      && (forall j :: FirstOver(actions, id, k, j) ==> FirstOver(more, id, k, j) && more[j] == actions[j])
      && (EndedAt(more, id, k, n) ==> LastEndedAt(more, id, k, n))
      && (!EndedAt(more, id, k, n) ==>
            forall j :: LastEndedAt(actions, id, k, j) ==> LastEndedAt(more, id, k, j) && more[j] == actions[j])
  {
    var more, n := actions + [a], |actions|;
    assert forall j :: 0 <= j < n ==> more[j] == actions[j];
    assert forall j :: j != n ==> (EndedAt(more, id, k, j) <==> EndedAt(actions, id, k, j));
    assert forall j :: j != n ==> (MissingAt(more, k, j) <==> MissingAt(actions, k, j));
  }

  lemma OverNow(actions: seq<Action>, a: Action, id: string, k: int)
    requires 0 <= k < |actions| && NeverEnded(actions, id, k) && NeverMissing(actions, k)
    requires EndedAt(actions + [a], id, k, |actions|) || MissingAt(actions + [a], k, |actions|)
    ensures FirstOver(actions + [a], id, k, |actions|)
  {
    var more, n := actions + [a], |actions|;
    assert forall j :: 0 <= j < n ==> more[j] == actions[j];
    assert forall j :: j != n ==> (EndedAt(more, id, k, j) <==> EndedAt(actions, id, k, j));
    assert forall j :: j != n ==> (MissingAt(more, k, j) <==> MissingAt(actions, k, j));
  }

  /** The row of an id is told by its last report and by what ended it since. */
  ghost predicate RowIs(actions: seq<Action>, id: string, k: int, row: Row)
    requires LastListedAt(actions, id, k)
  {
    var x, seen := LastOf(actions[k].sessions, id), actions[k].seen;
    && row.details == x.details && row.startUnix == (if x.startUnix > 0 then x.startUnix else seen)
    && row.status == StatusOf(actions, id, k, NormalizeStatus(x.status))
    && ClosedFits(actions, id, k, IsLive(NormalizeStatus(x.status)), row.closedAt)
    && UpdatedFits(actions, id, k, IsLive(NormalizeStatus(x.status)), row.updated) && row.lastSeen == row.updated
  }

  lemma RowStart(actions: seq<Action>, id: string)
    requires actions != [] && LastListedAt(actions, id, |actions| - 1)
    ensures id in Run(actions) && RowIs(actions, id, |actions| - 1, Run(actions)[id])
  {
    hide Listed, LastOf, NormalizeStatus, Trim, NeverEnded, NeverMissing, FirstOver, LastEndedAt, Run, Snapshot;
    var n := |actions| - 1;
    NothingLater(actions, id);
    assert actions == actions[..n] + [actions[n]];
    RunOneMore(actions[..n], actions[n]);
    ReportedRow(Run(actions[..n]), actions[n].sessions, actions[n].seen, id);
  }

  lemma ReportedRow(t: Table, sessions: seq<Session>, seen: int, id: string)
    requires id in Listed(sessions)
    ensures id in Snapshot(t, sessions, seen) && Snapshot(t, sessions, seen)[id] == RowOf(LastOf(sessions, id), seen)
  {
    hide Listed, LastOf, RowOf, Ended;
  }

  lemma NothingLater(actions: seq<Action>, id: string)
    requires actions != []
    ensures NeverEnded(actions, id, |actions| - 1) && NeverMissing(actions, |actions| - 1)
  {
  }

  lemma RowStep(before: seq<Action>, a: Action, id: string, k: int)
    requires LastListedAt(before, id, k) && LastListedAt(before + [a], id, k)
    requires id in Run(before) && RowIs(before, id, k, Run(before)[id])
    ensures id in Run(before + [a]) && RowIs(before + [a], id, k, Run(before + [a])[id])
  {
    hide Listed, LastOf, NormalizeStatus, Trim, NeverEnded, NeverMissing, FirstOver, LastEndedAt, Run;
    var more, n := before + [a], |before|;
    RunOneMore(before, a);
    EveryRunFits(before, id);
    HistoryOneMore(before, a, id, k);
    if NeverEnded(before, id, k) && NeverMissing(before, k) && (EndedAt(more, id, k, n) || MissingAt(more, k, n)) {
      OverNow(before, a, id, k);
    }
  }

  lemma RunOneMore(before: seq<Action>, a: Action)
    ensures Run(before + [a]) == After(Run(before), a)
  {
    hide After;
    assert (before + [a])[..|before|] == before;
  }

  /**
   After every run the row of an id holds the details of its last report, and its status and first
   closing time are those that its history gives; a later termination does not move that time.
   */
  lemma {:induction false} RowTells(actions: seq<Action>, id: string, k: int)
    requires LastListedAt(actions, id, k)
    ensures id in Run(actions) && RowIs(actions, id, k, Run(actions)[id])
  {
    hide RowIs, Run, Listed;
    var n := |actions| - 1;
    if k == n {
      RowStart(actions, id);
    } else {
      var before, a := actions[..n], actions[n];
      assert actions == before + [a];
      RowTells(before, id, k);
      RowStep(before, a, id, k);
    }
  }
}
