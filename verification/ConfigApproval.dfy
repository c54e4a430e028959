/**
 The approval protocol of configuration changes: requests, their store in memory and on disk,
 the handlers that apply approved payloads, and everything that can happen between their steps.

 Times are integers from a clock that does not go back, a save to disk either happens as a whole
 or not at all, and identifiers of new requests are fresh.
 */
module ConfigApproval {
  import opened Text
  import JsonText

  type Payload = map<string, JsonText.Json>

  datatype Status = Pending | Approved | Applied | Denied | Failed | Expired

  /** A time of `None` is Go's zero time. */
  datatype Change = Change(
    id: string,
    requester: string,
    payload: Payload,
    baseVersion: string,
    status: Status,
    approver: string,
    createdAt: int,
    expiresAt: int,
    approvedAt: Option<int>,
    appliedAt: Option<int>,
    deniedAt: Option<int>,
    failedAt: Option<int>,
    denyReason: string,
    failureReason: string)

  datatype Error = NoRequester | NoPayload | NotFound | HasExpired | NotPending | NotApproved | SaveFailed

  datatype Result = Ok(change: Change) | Err(error: Error)

  // ----- the store -----

  /** The map in memory and the copy in the file; without a path nothing is written. */
  datatype Store = Store(persistent: bool, mem: map<string, Change>, disk: map<string, Change>)

  predicate Overdue(c: Change, now: int) {
    c.status.Pending? && now > c.expiresAt
  }

  function Settled(c: Change, now: int): (r: Change) {
    if Overdue(c, now) then c.(status := Expired) else c
  }

  function Written(s: Store, ok: bool): (r: Store) {
    if s.persistent && ok then s.(disk := s.mem) else s
  }

  /** Puts a change and saves, or leaves everything as it was. */
  function Commit(s: Store, c: Change, ok: bool): (r: (Store, Result)) {
    if s.persistent && !ok then (s, Err(SaveFailed)) else (Written(s.(mem := s.mem[c.id := c]), ok), Ok(c))
  }

  function Expire(s: Store, id: string, now: int, ok: bool): (r: Store)
    requires id in s.mem
  {
    if Overdue(s.mem[id], now) then Written(s.(mem := s.mem[id := Settled(s.mem[id], now)]), ok) else s
  }

  function NewChange(id: string, requester: string, payload: Payload, base: string, timeout: int, now: int): (r: Change) {
    Change(id, requester, payload, base, Pending, "", now, now + timeout, None, None, None, None, "", "")
  }

  function DoCreate(s: Store, c: Change, ok: bool): (r: (Store, Result)) {
    if c.requester == "" then (s, Err(NoRequester))
    else if c.payload == map[] then (s, Err(NoPayload))
    else if s.persistent && !ok then (s.(mem := s.mem - {c.id}), Err(SaveFailed))
    else Commit(s, c, ok)
  }

  function DoGet(s: Store, id: string, now: int, ok: bool): (r: (Store, Result)) {
    if id !in s.mem then (s, Err(NotFound)) else (Expire(s, id, now, ok), Ok(Settled(s.mem[id], now)))
  }

  /** Every change with its expiry taken, at the time its turn comes. */
  function AllSettled(m: map<string, Change>, clock: string -> int): (r: map<string, Change>) {
    map id | id in m :: Settled(m[id], clock(id))
  }

  function DoList(s: Store, clock: string -> int, ok: bool): (r: Store) {
    if AllSettled(s.mem, clock) == s.mem then s else Written(s.(mem := AllSettled(s.mem, clock)), ok)
  }

  /** Approval and denial share their checks: present, not overdue, pending. */
  function Decide(s: Store, id: string, now: int, ok: bool, decided: Change -> Change): (r: (Store, Result)) {
    if id !in s.mem then (s, Err(NotFound))
    else if Overdue(s.mem[id], now) then (Expire(s, id, now, ok), Err(HasExpired))
    else if !s.mem[id].status.Pending? then (s, Err(NotPending))
    else Commit(s, decided(s.mem[id]), ok)
  }

  function ApprovedBy(c: Change, approver: string, now: int): (r: Change) {
    c.(status := Approved, approver := approver, approvedAt := Some(now), denyReason := "", failureReason := "",
       deniedAt := None, failedAt := None, appliedAt := None)
  }

  function DeniedBy(c: Change, approver: string, reason: string, now: int): (r: Change) {
    c.(status := Denied, approver := approver, deniedAt := Some(now), denyReason := reason)
  }

  /** The clock is read to check the expiry and again for the stamp. */
  function DoApprove(s: Store, id: string, approver: string, check: int, stamp: int, ok: bool): (r: (Store, Result)) {
    Decide(s, id, check, ok, c => ApprovedBy(c, approver, stamp))
  }

  function DoDeny(s: Store, id: string, approver: string, reason: string, check: int, stamp: int, ok: bool): (r: (Store, Result)) {
    Decide(s, id, check, ok, c => DeniedBy(c, approver, reason, stamp))
  }

  function Marked(c: Change, worked: bool, reason: string, now: int): (r: Change) {
    if worked then c.(status := Applied, appliedAt := Some(now), failureReason := "", failedAt := None)
    else c.(status := Failed, failedAt := Some(now), failureReason := reason, appliedAt := None)
  }

  function DoMark(s: Store, id: string, worked: bool, reason: string, now: int, ok: bool): (r: (Store, Result)) {
    if id !in s.mem then (s, Err(NotFound))
    else if !s.mem[id].status.Approved? then (s, Err(NotApproved))
    else Commit(s, Marked(s.mem[id], worked, reason, now), ok)
  }

  /** A new process reads the file. */
  function Reloaded(s: Store): (r: Store) {
    s.(mem := s.disk)
  }

  // ----- the protocol -----

  /** An approval handler between its approval and its apply, or between its apply and its mark. */
  datatype Handler = Applying(id: string, payload: Payload) | Marking(id: string, worked: bool)

  /** One call that applied a payload. */
  datatype Entry = Entry(id: string, payload: Payload, worked: bool)

  /** `requested`, `approvals`, `checks` and `log` remember the whole run. */
  datatype State = State(
    store: Store,
    now: int,
    handlers: multiset<Handler>,
    requested: map<string, Payload>,
    approvals: set<string>,
    checks: map<string, int>,
    log: seq<Entry>)

  datatype Action =
    | Tick(time: int)
    | Create(change: Change, ok: bool)
    | Get(id: string, ok: bool)
    | List(clock: string -> int, until: int, ok: bool)
    | Approve(id: string, approver: string, check: int, stamp: int, ok: bool)
    | Deny(id: string, approver: string, reason: string, check: int, stamp: int, ok: bool)
    | Apply(handler: Handler, worked: bool)
    | Mark(handler: Handler, reason: string, ok: bool)
    | Restart

  /** A change nobody has decided yet. */
  ghost predicate IsRequest(c: Change) {
    && c.status.Pending? && c.createdAt < c.expiresAt && c.approver == ""
    && c.approvedAt.None? && c.appliedAt.None? && c.deniedAt.None? && c.failedAt.None? && c.denyReason == "" && c.failureReason == ""
  }

  ghost predicate Enabled(s: State, a: Action) {
    match a
    case Tick(time) => time >= s.now
    case Create(c, ok) =>
      c.id !in s.requested
      && c.createdAt <= s.now
      && IsRequest(c)
    case List(clock, until, ok) => forall id :: s.now <= clock(id) <= until
    case Approve(id, approver, check, stamp, ok) => s.now <= check <= stamp
    case Deny(id, approver, reason, check, stamp, ok) => s.now <= check <= stamp
    case Apply(h, worked) => h in s.handlers && h.Applying?
    case Mark(h, reason, ok) => h in s.handlers && h.Marking?
    case _ => true
  }

  ghost function After(s: State, a: Action): (t: State)
    requires Enabled(s, a)
  {
    match a
    case Tick(time) => s.(now := time)
    case Create(c, ok) =>
      var (store, r) := DoCreate(s.store, c, ok);
      s.(store := store, requested := if r.Ok? then s.requested[c.id := c.payload] else s.requested)
    case Get(id, ok) => s.(store := DoGet(s.store, id, s.now, ok).0)
    case List(clock, until, ok) => s.(store := DoList(s.store, clock, ok), now := until)
    case Approve(id, approver, check, stamp, ok) =>
      var (store, r) := DoApprove(s.store, id, approver, check, stamp, ok);
      if r.Ok? then
        s.(store := store, now := stamp, approvals := s.approvals + {id}, checks := s.checks[id := check],
           handlers := s.handlers + multiset{Applying(id, r.change.payload)})
      else s.(store := store, now := stamp)
    case Deny(id, approver, reason, check, stamp, ok) =>
      var (store, r) := DoDeny(s.store, id, approver, reason, check, stamp, ok);
      s.(store := store, now := stamp, checks := if r.Ok? then s.checks[id := check] else s.checks)
    case Apply(h, worked) =>
      s.(handlers := s.handlers - multiset{h} + multiset{Marking(h.id, worked)}, log := s.log + [Entry(h.id, h.payload, worked)])
    case Mark(h, reason, ok) =>
      s.(handlers := s.handlers - multiset{h}, store := DoMark(s.store, h.id, h.worked, reason, s.now, ok).0)
    case Restart => s.(store := Reloaded(s.store), handlers := multiset{})
  }

  ghost predicate Initial(s: State) {
    && s.store.mem == map[] && s.store.disk == map[] && s.handlers == multiset{}
    && s.requested == map[] && s.approvals == {} && s.checks == map[] && s.log == []
  }

  /** The states of a run, one action between each two. */
  ghost predicate IsRun(run: seq<State>, actions: seq<Action>) {
    && |run| == |actions| + 1 && Initial(run[0])
    && forall i :: 0 <= i < |actions| ==> StepAt(run, actions, i)
  }

  ghost predicate StepAt(run: seq<State>, actions: seq<Action>, i: nat)
    requires i < |actions| && |run| == |actions| + 1
  {
    Enabled(run[i], actions[i]) && run[i + 1] == After(run[i], actions[i])
  }

  // ----- what holds of one change -----

  /** The status says exactly which times are set, and they are in order. */
  ghost predicate TimesFit(c: Change, now: int) {
    && c.createdAt <= now && c.createdAt <= c.expiresAt
    && (c.approvedAt.Some? <==> c.status.Approved? || c.status.Applied? || c.status.Failed?)
    && (c.appliedAt.Some? <==> c.status.Applied?)
    && (c.deniedAt.Some? <==> c.status.Denied?)
    && (c.failedAt.Some? <==> c.status.Failed?)
    && (c.approvedAt.Some? ==> c.createdAt <= c.approvedAt.value <= now)
    && (c.deniedAt.Some? ==> c.createdAt <= c.deniedAt.value <= now)
    && (c.appliedAt.Some? ==> c.approvedAt.value <= c.appliedAt.value <= now)
    && (c.failedAt.Some? ==> c.approvedAt.value <= c.failedAt.value <= now)
    && (c.status.Expired? ==> now > c.expiresAt)
  }

  /** A decision was checked before the change expired, and stamped no earlier than that. */
  ghost predicate CheckFits(c: Change, checks: map<string, int>) {
    c.approvedAt.Some? || c.deniedAt.Some? ==>
      && c.id in checks && c.createdAt <= checks[c.id] <= c.expiresAt
      && checks[c.id] <= if c.approvedAt.Some? then c.approvedAt.value else c.deniedAt.value
  }

  /** The file holds what memory holds, up to an expiry that was not saved. */
  ghost predicate FileAgrees(s: Store, id: string, now: int) {
    if s.persistent then
      && (id in s.mem <==> id in s.disk)
      && (id in s.mem ==> s.mem[id] == s.disk[id] || s.mem[id] == Settled(s.disk[id], now))
    else id !in s.disk
  }

  ghost predicate RecordFits(s: State, id: string) {
    id in s.store.mem ==>
      && id in s.requested && s.store.mem[id].id == id && s.store.mem[id].payload == s.requested[id]
      && TimesFit(s.store.mem[id], s.now) && CheckFits(s.store.mem[id], s.checks)
      && (s.store.mem[id].approvedAt.Some? <==> id in s.approvals)
  }

  ghost predicate NoHandler(s: State, id: string) {
    forall h :: h in s.handlers ==> h.id != id
  }

  ghost predicate OnlyHandler(s: State, h: Handler) {
    h in s.handlers && s.handlers[h] == 1 && forall g :: g in s.handlers && g.id == h.id ==> g == h
  }

  ghost predicate NotLogged(s: State, id: string) {
    forall k :: 0 <= k < |s.log| ==> s.log[k].id != id
  }

  ghost predicate Logged(s: State, id: string, worked: bool) {
    id in s.requested && Entry(id, s.requested[id], worked) in s.log
  }

  ghost predicate StatusIs(s: State, id: string, status: Status) {
    id in s.store.mem && s.store.mem[id].status == status
  }

  /** Where a change is between its approval and its mark. */
  ghost predicate StageFits(s: State, id: string) {
    if id !in s.approvals then NoHandler(s, id) && NotLogged(s, id)
    else
      && id in s.requested
      && (|| NoHandler(s, id)
          || (OnlyHandler(s, Applying(id, s.requested[id])) && NotLogged(s, id) && StatusIs(s, id, Approved))
          || (OnlyHandler(s, Marking(id, true)) && Logged(s, id, true) && StatusIs(s, id, Approved))
          || (OnlyHandler(s, Marking(id, false)) && Logged(s, id, false) && StatusIs(s, id, Approved)))
      && (StatusIs(s, id, Applied) ==> Logged(s, id, true))
      && (StatusIs(s, id, Failed) ==> Logged(s, id, false))
  }

  ghost predicate IdValid(s: State, id: string) {
    FileAgrees(s.store, id, s.now) && RecordFits(s, id) && StageFits(s, id)
  }

  ghost predicate LogFits(s: State) {
    && (forall i, j :: 0 <= i < j < |s.log| ==> s.log[i].id != s.log[j].id)
    && (forall i :: 0 <= i < |s.log| ==>
          s.log[i].id in s.approvals && s.log[i].id in s.requested && s.log[i].payload == s.requested[s.log[i].id])
  }

  ghost predicate Valid(s: State) {
    LogFits(s) && forall id :: IdValid(s, id)
  }

  // ----- changes that an action does not touch -----

  /** The action left everything about this id alone, except that it may have saved it. */
  ghost predicate Untouched(s: State, t: State, id: string) {
    && t.now >= s.now && t.store.persistent == s.store.persistent && SameAt(s.checks, t.checks, id)
    && SameAt(s.store.mem, t.store.mem, id)
    && (SameAt(s.store.disk, t.store.disk, id) || (s.store.persistent && SameAt(t.store.mem, t.store.disk, id)))
    && (id in s.requested <==> id in t.requested) && (id in s.requested ==> s.requested[id] == t.requested[id])
    && (id in s.approvals <==> id in t.approvals)
    && (forall h: Handler :: h.id == id ==> s.handlers[h] == t.handlers[h])
    && (forall e: Entry :: e.id == id ==> (e in s.log <==> e in t.log))
  }

  ghost predicate SameAt<V>(m: map<string, V>, n: map<string, V>, id: string) {
    (id in m <==> id in n) && (id in m ==> m[id] == n[id])
  }

  lemma NotLoggedIff(s: State, id: string)
    ensures NotLogged(s, id) <==> forall e: Entry :: e in s.log ==> e.id != id
  {
  }

  lemma UntouchedStage(s: State, t: State, id: string)
    requires Untouched(s, t, id) && StageFits(s, id)
    ensures StageFits(t, id)
  {
    NotLoggedIff(s, id);
    NotLoggedIff(t, id);
  }

  lemma UntouchedStaysValid(s: State, t: State, id: string)
    requires Untouched(s, t, id) && IdValid(s, id)
    ensures IdValid(t, id)
  {
    UntouchedStage(s, t, id);
    hide StageFits;
  }

  // ----- actions on the store alone -----

  /** The action changed only the store, and this id from one record to another. */
  ghost predicate Moved(s: State, t: State, id: string, c: Change) {
    && t == s.(store := t.store, now := t.now, checks := t.checks) && t.store.persistent == s.store.persistent && t.now >= s.now
    && (t.checks == s.checks || (id in t.checks && t.checks == s.checks[id := t.checks[id]]))
    && id in s.store.mem && c.id == id
    && t.store.mem == s.store.mem[id := c]
    && (t.store.disk == s.store.disk || (s.store.persistent && t.store.disk == t.store.mem))
  }

  lemma MovedElsewhere(s: State, t: State, id: string, c: Change, other: string)
    requires Moved(s, t, id, c) && other != id && IdValid(s, other)
    ensures IdValid(t, other)
  {
    hide IdValid;
    UntouchedStaysValid(s, t, other);
  }

  /** Taking an expiry, saved or not. */
  lemma ExpiryStaysValid(s: State, t: State, id: string, check: int, ok: bool)
    requires Valid(s) && id in s.store.mem && s.now <= check <= t.now
    requires t == s.(store := Expire(s.store, id, check, ok), now := t.now)
    ensures Valid(t)
  {
    var c := Settled(s.store.mem[id], check);
    assert IdValid(s, id);
    if Overdue(s.store.mem[id], check) {
      assert Moved(s, t, id, c);
      assert IdValid(t, id);
      forall other
        ensures IdValid(t, other)
      {
        if other != id {
          assert IdValid(s, other);
          MovedElsewhere(s, t, id, c, other);
        }
      }
    } else {
      TickStaysValid(s, t.now);
    }
  }

  lemma TickStaysValid(s: State, time: int)
    requires Valid(s) && time >= s.now
    ensures Valid(s.(now := time))
  {
    var t := s.(now := time);
    forall id
      ensures IdValid(t, id)
    {
      assert IdValid(s, id);
    }
  }

  lemma CreateStaysValid(s: State, c: Change, ok: bool)
    requires Valid(s) && Enabled(s, Create(c, ok))
    ensures Valid(After(s, Create(c, ok)))
  {
    hide IdValid;
    var t := After(s, Create(c, ok));
    CreatedIsValid(s, c, ok);
    forall id
      ensures IdValid(t, id)
    {
      assert IdValid(s, id);
      if id != c.id {
        UntouchedStaysValid(s, t, id);
      }
    }
  }

  lemma CreatedIsValid(s: State, c: Change, ok: bool)
    requires IdValid(s, c.id) && LogFits(s) && Enabled(s, Create(c, ok))
    ensures IdValid(After(s, Create(c, ok)), c.id)
  {
  }

  lemma ListStaysValid(s: State, clock: string -> int, until: int, ok: bool)
    requires Valid(s) && Enabled(s, List(clock, until, ok))
    ensures Valid(After(s, List(clock, until, ok)))
  {
    var t := After(s, List(clock, until, ok));
    forall id
      ensures IdValid(t, id)
    {
      assert IdValid(s, id);
      ListedIsValid(s, clock, until, ok, id);
    }
  }

  lemma ListedIsValid(s: State, clock: string -> int, until: int, ok: bool, id: string)
    requires IdValid(s, id) && Enabled(s, List(clock, until, ok))
    ensures IdValid(After(s, List(clock, until, ok)), id)
  {
    hide FileAgrees, RecordFits, StageFits, DoList;
    assert s.now <= clock(id) <= until;
    var t := After(s, List(clock, until, ok));
    ListedFile(s.store, s.now, clock, until, ok, id);
    SettledFits(s, t, id, clock(id));
  }

  /** Taking an expiry leaves the rest of the change as it was. */
  lemma SettledFits(s: State, t: State, id: string, time: int)
    requires RecordFits(s, id) && StageFits(s, id) && s.now <= time <= t.now
    requires t == s.(store := t.store, now := t.now) && (id in t.store.mem <==> id in s.store.mem)
    requires id in s.store.mem ==> t.store.mem[id] == Settled(s.store.mem[id], time)
    ensures RecordFits(t, id) && StageFits(t, id)
  {
    SettledStage(s, t, id, time);
    hide StageFits;
  }

  lemma SettledStage(s: State, t: State, id: string, time: int)
    requires RecordFits(s, id) && StageFits(s, id)
    requires t == s.(store := t.store, now := t.now) && (id in t.store.mem <==> id in s.store.mem)
    requires id in s.store.mem ==> t.store.mem[id] == Settled(s.store.mem[id], time)
    ensures StageFits(t, id)
  {
    hide TimesFit, CheckFits, NotLogged;
    if id !in s.approvals {
      assert NoHandler(t, id) && NotLogged(t, id) by {
        SameLog(s, t, id);
      }
    } else {
      SameLog(s, t, id);
    }
  }

  lemma SameLog(s: State, t: State, id: string)
    requires t.log == s.log
    ensures NotLogged(t, id) <==> NotLogged(s, id)
  {
  }

  lemma ListedFile(s: Store, now: int, clock: string -> int, until: int, ok: bool, id: string)
    requires FileAgrees(s, id, now) && now <= clock(id) <= until
    ensures FileAgrees(DoList(s, clock, ok), id, until)
    ensures DoList(s, clock, ok).persistent == s.persistent
    ensures DoList(s, clock, ok).mem == AllSettled(s.mem, clock)
  {
  }

  lemma ApproveStaysValid(s: State, id: string, approver: string, check: int, stamp: int, ok: bool)
    requires Valid(s) && Enabled(s, Approve(id, approver, check, stamp, ok))
    ensures Valid(After(s, Approve(id, approver, check, stamp, ok)))
  {
    hide IdValid;
    var t := After(s, Approve(id, approver, check, stamp, ok));
    assert IdValid(s, id);
    if id in s.store.mem && Overdue(s.store.mem[id], check) {
      ExpiryStaysValid(s, t, id, check, ok);
    } else if DoApprove(s.store, id, approver, check, stamp, ok).1.Ok? {
      ApprovedIsValid(s, id, approver, check, stamp, ok);
      forall other
        ensures IdValid(t, other)
      {
        assert IdValid(s, other);
        if other != id {
          ApprovedElsewhere(s, id, approver, check, stamp, ok, other);
          UntouchedStaysValid(s, t, other);
        }
      }
    } else {
      assert t == s.(now := stamp);
      TickStaysValid(s, stamp);
    }
  }

  lemma ApprovedElsewhere(s: State, id: string, approver: string, check: int, stamp: int, ok: bool, other: string)
    requires IdValid(s, id) && other != id && Enabled(s, Approve(id, approver, check, stamp, ok))
    requires DoApprove(s.store, id, approver, check, stamp, ok).1.Ok?
    ensures Untouched(s, After(s, Approve(id, approver, check, stamp, ok)), other)
  {
  }

  lemma ApprovedIsValid(s: State, id: string, approver: string, check: int, stamp: int, ok: bool)
    requires IdValid(s, id) && Enabled(s, Approve(id, approver, check, stamp, ok))
    requires DoApprove(s.store, id, approver, check, stamp, ok).1.Ok?
    ensures IdValid(After(s, Approve(id, approver, check, stamp, ok)), id)
  {
    var t := After(s, Approve(id, approver, check, stamp, ok));
    var h := Applying(id, s.requested[id]);
    assert NoHandler(s, id) && NotLogged(s, id);
    assert OnlyHandler(t, h);
  }

  lemma DenyStaysValid(s: State, id: string, approver: string, reason: string, check: int, stamp: int, ok: bool)
    requires Valid(s) && Enabled(s, Deny(id, approver, reason, check, stamp, ok))
    ensures Valid(After(s, Deny(id, approver, reason, check, stamp, ok)))
  {
    hide IdValid;
    var t := After(s, Deny(id, approver, reason, check, stamp, ok));
    assert IdValid(s, id);
    if id in s.store.mem && Overdue(s.store.mem[id], check) {
      ExpiryStaysValid(s, t, id, check, ok);
    } else if DoDeny(s.store, id, approver, reason, check, stamp, ok).1.Ok? {
      DeniedIsValid(s, id, approver, reason, check, stamp, ok);
      forall other
        ensures IdValid(t, other)
      {
        assert IdValid(s, other);
        if other != id {
          MovedElsewhere(s, t, id, DeniedBy(s.store.mem[id], approver, reason, stamp), other);
        }
      }
    } else {
      assert t == s.(now := stamp);
      TickStaysValid(s, stamp);
    }
  }

  lemma DeniedIsValid(s: State, id: string, approver: string, reason: string, check: int, stamp: int, ok: bool)
    requires IdValid(s, id) && Enabled(s, Deny(id, approver, reason, check, stamp, ok))
    requires DoDeny(s.store, id, approver, reason, check, stamp, ok).1.Ok?
    ensures var t := After(s, Deny(id, approver, reason, check, stamp, ok));
      IdValid(t, id) && Moved(s, t, id, DeniedBy(s.store.mem[id], approver, reason, stamp))
  {
  }

  lemma ApplyStaysValid(s: State, h: Handler, worked: bool)
    requires Valid(s) && Enabled(s, Apply(h, worked))
    ensures Valid(After(s, Apply(h, worked)))
  {
    hide IdValid;
    var t := After(s, Apply(h, worked));
    assert IdValid(s, h.id);
    AppliedIsValid(s, h, worked);
    forall other
      ensures IdValid(t, other)
    {
      assert IdValid(s, other);
      if other != h.id {
        UntouchedStaysValid(s, t, other);
      }
    }
  }

  lemma AppliedIsValid(s: State, h: Handler, worked: bool)
    requires IdValid(s, h.id) && LogFits(s) && Enabled(s, Apply(h, worked))
    ensures IdValid(After(s, Apply(h, worked)), h.id) && LogFits(After(s, Apply(h, worked)))
    ensures h.id in s.approvals && StatusIs(s, h.id, Approved) && NotLogged(s, h.id)
  {
    var t := After(s, Apply(h, worked));
    assert h in s.handlers;
    assert OnlyHandler(s, h) && NotLogged(s, h.id);
    assert OnlyHandler(t, Marking(h.id, worked));
    assert t.log[|s.log|] == Entry(h.id, h.payload, worked);
  }

  lemma MarkStaysValid(s: State, h: Handler, reason: string, ok: bool)
    requires Valid(s) && Enabled(s, Mark(h, reason, ok))
    ensures Valid(After(s, Mark(h, reason, ok)))
  {
    hide IdValid;
    var t := After(s, Mark(h, reason, ok));
    assert IdValid(s, h.id);
    MarkedIsValid(s, h, reason, ok);
    forall other
      ensures IdValid(t, other)
    {
      assert IdValid(s, other);
      if other != h.id {
        UntouchedStaysValid(s, t, other);
      }
    }
  }

  /** A mark finds its change approved, so it fails only when the save fails. */
  lemma MarkedIsValid(s: State, h: Handler, reason: string, ok: bool)
    requires IdValid(s, h.id) && Enabled(s, Mark(h, reason, ok))
    ensures IdValid(After(s, Mark(h, reason, ok)), h.id)
    ensures StatusIs(s, h.id, Approved) && s.store.mem[h.id].id == h.id
    ensures DoMark(s.store, h.id, h.worked, reason, s.now, ok).1.Ok? <==> !s.store.persistent || ok
  {
    var t := After(s, Mark(h, reason, ok));
    assert h in s.handlers;
    assert OnlyHandler(s, h) && Logged(s, h.id, h.worked);
    assert NoHandler(t, h.id);
  }

  lemma RestartStaysValid(s: State)
    requires Valid(s)
    ensures Valid(After(s, Restart))
  {
    forall id
      ensures IdValid(After(s, Restart), id)
    {
      assert IdValid(s, id);
    }
  }

  lemma StepStaysValid(s: State, a: Action)
    requires Valid(s) && Enabled(s, a)
    ensures Valid(After(s, a))
  {
    hide Valid;
    match a
    case Tick(time) => TickStaysValid(s, time);
    case Create(c, ok) => CreateStaysValid(s, c, ok);
    case Get(id, ok) =>
      if id in s.store.mem {
        ExpiryStaysValid(s, After(s, a), id, s.now, ok);
      }
    case List(clock, until, ok) => ListStaysValid(s, clock, until, ok);
    case Approve(id, approver, check, stamp, ok) => ApproveStaysValid(s, id, approver, check, stamp, ok);
    case Deny(id, approver, reason, check, stamp, ok) => DenyStaysValid(s, id, approver, reason, check, stamp, ok);
    case Apply(h, worked) => ApplyStaysValid(s, h, worked);
    case Mark(h, reason, ok) => MarkStaysValid(s, h, reason, ok);
    case Restart => RestartStaysValid(s);
  }

  /** Every state of every run is valid. */
  lemma {:induction false} EveryRunIsValid(run: seq<State>, actions: seq<Action>, i: nat)
    requires IsRun(run, actions) && i < |run|
    ensures Valid(run[i])
  {
    hide Enabled, After;
    if i > 0 {
      EveryRunIsValid(run, actions, i - 1);
      assert StepAt(run, actions, i - 1);
      StepStaysValid(run[i - 1], actions[i - 1]);
    }
  }

  // ----- what every run keeps -----

  /** The status of a change once its expiry is taken into account. */
  function Effective(c: Change, now: int): (r: Status) {
    Settled(c, now).status
  }

  predicate MayFollow(from: Status, to: Status) {
    || to == from
    || (from == Pending && (to == Approved || to == Denied || to == Expired))
    || (from == Approved && (to == Applied || to == Failed))
  }

  ghost predicate IsFinal(status: Status) {
    status == Applied || status == Denied || status == Failed || status == Expired
  }

  ghost predicate SameRequest(c: Change, d: Change) {
    && c.id == d.id && c.requester == d.requester && c.payload == d.payload && c.baseVersion == d.baseVersion
    && c.createdAt == d.createdAt && c.expiresAt == d.expiresAt
  }

  ghost predicate Moves(s: State, t: State, id: string) {
    && id in s.store.mem && id in t.store.mem
    && SameRequest(s.store.mem[id], t.store.mem[id])
    && MayFollow(Effective(s.store.mem[id], s.now), Effective(t.store.mem[id], t.now))
  }

  lemma CommitMoves(s: State, c: Change, ok: bool, id: string)
    requires id in s.store.mem && (c.id == id ==> SameRequest(s.store.mem[id], c))
    requires c.id == id ==> MayFollow(Effective(s.store.mem[id], s.now), Effective(c, s.now))
    ensures Moves(s, s.(store := Commit(s.store, c, ok).0), id)
  {
  }

  lemma DecideMoves(s: State, t: State, id: string, check: int, ok: bool, decided: Change -> Change, other: string)
    requires IdValid(s, id) && other in s.store.mem && s.now <= check <= t.now
    requires forall c :: SameRequest(c, decided(c)) && decided(c).status in {Approved, Denied}
    requires t.store == Decide(s.store, id, check, ok, decided).0
    ensures Moves(s, t, other)
  {
    hide Moves, FileAgrees, StageFits, CheckFits;
    UnchangedMoves(s, t, other);
    if t.store.mem[other] != s.store.mem[other] {
      if Overdue(s.store.mem[id], check) {
        StaysMoves(s, t, id);
      } else {
        DecidedMoves(s, t, id, check, decided(s.store.mem[id]));
      }
    }
  }

  lemma DecidedMoves(s: State, t: State, id: string, check: int, c: Change)
    requires id in s.store.mem && id in t.store.mem && s.now <= check <= t.now
    requires s.store.mem[id].status.Pending? && !Overdue(s.store.mem[id], check)
    requires SameRequest(s.store.mem[id], c) && c.status in {Approved, Denied} && t.store.mem[id] == c
    ensures Moves(s, t, id)
  {
  }

  lemma StaysMoves(s: State, t: State, id: string)
    requires id in s.store.mem && id in t.store.mem && s.now <= t.now
    requires exists time :: s.now <= time <= t.now && t.store.mem[id] == Settled(s.store.mem[id], time)
    ensures Moves(s, t, id)
  {
  }

  lemma GetMoves(s: State, x: string, ok: bool, id: string)
    requires id in s.store.mem
    ensures Moves(s, s.(store := DoGet(s.store, x, s.now, ok).0), id)
  {
    hide Moves;
    var t := s.(store := DoGet(s.store, x, s.now, ok).0);
    assert t.store.mem[id] == Settled(s.store.mem[id], s.now) || t.store.mem[id] == s.store.mem[id];
    UnchangedMoves(s, t, id);
    if t.store.mem[id] == Settled(s.store.mem[id], s.now) {
      StaysMoves(s, t, id);
    }
  }

  lemma UnchangedMoves(s: State, t: State, id: string)
    requires id in s.store.mem && id in t.store.mem && s.now <= t.now
    ensures t.store.mem[id] == s.store.mem[id] ==> Moves(s, t, id)
  {
  }

  lemma ListMoves(s: State, clock: string -> int, until: int, ok: bool, id: string)
    requires id in s.store.mem && s.now <= clock(id) <= until
    ensures Moves(s, s.(store := DoList(s.store, clock, ok), now := until), id)
  {
    hide Moves;
    var t := s.(store := DoList(s.store, clock, ok), now := until);
    assert t.store.mem[id] == Settled(s.store.mem[id], clock(id)) by {
      hide Settled;
      assert AllSettled(s.store.mem, clock)[id] == Settled(s.store.mem[id], clock(id));
    }
    StaysMoves(s, t, id);
  }

  lemma RestartMoves(s: State, id: string)
    requires IdValid(s, id) && id in s.store.mem && s.store.persistent
    ensures Moves(s, After(s, Restart), id)
  {
    hide StageFits, RecordFits;
  }

  /** A step moves a change along the lifecycle; only a restart without a file forgets it. */
  lemma StepMoves(s: State, a: Action, id: string)
    requires Valid(s) && Enabled(s, a) && id in s.store.mem
    ensures Moves(s, After(s, a), id) || (a.Restart? && !s.store.persistent)
  {
    hide Decide, Commit, LogFits, StageFits, Moves, DoGet, DoList, FileAgrees, Reloaded, SameRequest, Effective, MayFollow;
    assert IdValid(s, id);
    match a
    case Approve(x, approver, check, stamp, ok) =>
      assert IdValid(s, x);
      ApproveMoves(s, x, approver, check, stamp, ok, id);
    case Deny(x, approver, reason, check, stamp, ok) =>
      assert IdValid(s, x);
      DenyMoves(s, x, approver, reason, check, stamp, ok, id);
    case Mark(h, reason, ok) =>
      assert IdValid(s, h.id);
      MarkMoves(s, h, reason, ok, id);
    case Create(c, ok) => CreateMoves(s, c, ok, id);
    case Get(x, ok) => GetMoves(s, x, ok, id);
    case List(clock, until, ok) =>
      assert s.now <= clock(id) <= until;
      ListMoves(s, clock, until, ok, id);
    case Restart =>
      if s.store.persistent {
        RestartMoves(s, id);
      }
    case _ => UnchangedMoves(s, After(s, a), id);
  }

  lemma ApproveMoves(s: State, x: string, approver: string, check: int, stamp: int, ok: bool, id: string)
    requires IdValid(s, x) && id in s.store.mem && Enabled(s, Approve(x, approver, check, stamp, ok))
    ensures Moves(s, After(s, Approve(x, approver, check, stamp, ok)), id)
  {
    hide Decide, IdValid, Moves;
    var t := After(s, Approve(x, approver, check, stamp, ok));
    DecideMoves(s, t, x, check, ok, c => ApprovedBy(c, approver, stamp), id);
  }

  lemma DenyMoves(s: State, x: string, approver: string, reason: string, check: int, stamp: int, ok: bool, id: string)
    requires IdValid(s, x) && id in s.store.mem && Enabled(s, Deny(x, approver, reason, check, stamp, ok))
    ensures Moves(s, After(s, Deny(x, approver, reason, check, stamp, ok)), id)
  {
    hide Decide, IdValid, Moves;
    var t := After(s, Deny(x, approver, reason, check, stamp, ok));
    DecideMoves(s, t, x, check, ok, c => DeniedBy(c, approver, reason, stamp), id);
  }

  lemma MarkMoves(s: State, h: Handler, reason: string, ok: bool, id: string)
    requires IdValid(s, h.id) && Enabled(s, Mark(h, reason, ok)) && id in s.store.mem
    ensures Moves(s, After(s, Mark(h, reason, ok)), id)
  {
    hide Commit, IdValid;
    MarkedIsValid(s, h, reason, ok);
    CommitMoves(s, Marked(s.store.mem[h.id], h.worked, reason, s.now), ok, id);
  }

  lemma CreateMoves(s: State, c: Change, ok: bool, id: string)
    requires IdValid(s, id) && Enabled(s, Create(c, ok)) && id in s.store.mem
    ensures Moves(s, After(s, Create(c, ok)), id)
  {
    hide Commit, FileAgrees, StageFits;
    CommitMoves(s, c, ok, id);
  }

  lemma DecideKind(s: Store, id: string, now: int, ok: bool, decided: Change -> Change)
    ensures Decide(s, id, now, ok, decided).0.persistent == s.persistent
  {
  }

  lemma OtherKinds(s: Store, c: Change, id: string, worked: bool, reason: string, now: int, clock: string -> int, ok: bool)
    ensures DoCreate(s, c, ok).0.persistent == s.persistent
    ensures DoGet(s, id, now, ok).0.persistent == s.persistent
    ensures DoList(s, clock, ok).persistent == s.persistent
    ensures DoMark(s, id, worked, reason, now, ok).0.persistent == s.persistent
  {
    hide Settled, Marked;
  }

  lemma StoreKind(s: State, a: Action)
    requires Enabled(s, a)
    ensures After(s, a).store.persistent == s.store.persistent
  {
    hide Decide, DoCreate, DoGet, DoList, DoMark;
    var any := NewChange("", "", map[], "", 1, 0);
    match a
    case Create(c, ok) => OtherKinds(s.store, c, "", true, "", s.now, _ => 0, ok);
    case Get(id, ok) => OtherKinds(s.store, any, id, true, "", s.now, _ => 0, ok);
    case List(clock, until, ok) => OtherKinds(s.store, any, "", true, "", s.now, clock, ok);
    case Approve(id, approver, check, stamp, ok) => DecideKind(s.store, id, check, ok, c => ApprovedBy(c, approver, stamp));
    case Deny(id, approver, reason, check, stamp, ok) => DecideKind(s.store, id, check, ok, c => DeniedBy(c, approver, reason, stamp));
    case Mark(h, reason, ok) => OtherKinds(s.store, any, h.id, h.worked, reason, s.now, _ => 0, ok);
    case _ =>
  }

  /** In a store with a file, a decided change keeps its decision, through restarts too. */
  lemma {:induction false} FinalStaysFinal(run: seq<State>, actions: seq<Action>, i: nat, j: nat, id: string)
    requires IsRun(run, actions) && i <= j < |run|
    requires run[i].store.persistent && id in run[i].store.mem
    ensures id in run[j].store.mem && SameRequest(run[i].store.mem[id], run[j].store.mem[id]) && run[j].store.persistent
    ensures IsFinal(Effective(run[i].store.mem[id], run[i].now)) ==>
      Effective(run[j].store.mem[id], run[j].now) == Effective(run[i].store.mem[id], run[i].now)
  {
    hide Enabled, After, Valid;
    if i < j {
      FinalStaysFinal(run, actions, i, j - 1, id);
      EveryRunIsValid(run, actions, j - 1);
      assert StepAt(run, actions, j - 1);
      StepMoves(run[j - 1], actions[j - 1], id);
      StoreKind(run[j - 1], actions[j - 1]);
    }
  }

  /** The approval of this id that was saved at step j. */
  ghost predicate SavedApproval(run: seq<State>, actions: seq<Action>, j: int, id: string) {
    && 0 <= j < |actions| && j < |run| && actions[j].Approve? && actions[j].id == id
    && DoApprove(run[j].store, id, actions[j].approver, actions[j].check, actions[j].stamp, actions[j].ok).1.Ok?
  }

  lemma {:induction false} ApprovalsWereSaved(run: seq<State>, actions: seq<Action>, i: nat, id: string)
    requires IsRun(run, actions) && i < |run| && id in run[i].approvals
    ensures exists j :: j < i && SavedApproval(run, actions, j, id)
  {
    hide DoApprove, Decide;
    if i == 0 {
      assert false;
    } else {
      var s, a := run[i - 1], actions[i - 1];
      assert StepAt(run, actions, i - 1);
      if id in s.approvals {
        ApprovalsWereSaved(run, actions, i - 1, id);
      } else {
        assert SavedApproval(run, actions, i - 1, id);
      }
    }
  }

  /**
   A payload is applied only after its approval was saved, it is the payload that was requested,
   and no earlier step applied that change.
   */
  lemma AppliesOnlyApproved(run: seq<State>, actions: seq<Action>, i: nat)
    requires IsRun(run, actions) && i < |actions| && actions[i].Apply?
    ensures var s, h := run[i], actions[i].handler;
      && (exists j :: j < i && SavedApproval(run, actions, j, h.id))
      && StatusIs(s, h.id, Approved) && h.Applying? && s.store.mem[h.id].payload == h.payload
      && (s.store.persistent ==> h.id in s.store.disk && s.store.disk[h.id] == s.store.mem[h.id])
      && NotLogged(s, h.id)
  {
    hide After, SavedApproval;
    var s, a := run[i], actions[i];
    EveryRunIsValid(run, actions, i);
    assert StepAt(run, actions, i);
    var id := a.handler.id;
    assert IdValid(s, id);
    AppliedIsValid(s, a.handler, a.worked);
    ApprovalsWereSaved(run, actions, i, id);
    assert a.handler in s.handlers;
  }

  /** Over every run, each change's payload is applied at most once. */
  lemma AppliedAtMostOnce(run: seq<State>, actions: seq<Action>, i: nat, j: nat)
    requires IsRun(run, actions) && i < j < |actions| && actions[i].Apply? && actions[j].Apply?
    ensures actions[i].handler.id != actions[j].handler.id
  {
    hide After;
    assert StepAt(run, actions, i);
    LogGrows(run, actions, i + 1, j);
    AppliesOnlyApproved(run, actions, j);
    ApplyIsLogged(run[i], actions[i]);
    assert run[i + 1].log[|run[i].log|].id == actions[i].handler.id;
  }

  lemma ApplyIsLogged(s: State, a: Action)
    requires Enabled(s, a) && a.Apply?
    ensures After(s, a).log == s.log + [Entry(a.handler.id, a.handler.payload, a.worked)]
  {
  }

  lemma {:induction false} LogGrows(run: seq<State>, actions: seq<Action>, i: nat, j: nat)
    requires IsRun(run, actions) && i <= j < |run|
    ensures run[i].log <= run[j].log
  {
    if i < j {
      LogGrows(run, actions, i, j - 1);
      assert StepAt(run, actions, j - 1);
    }
  }

  /** What a status tells, in every state of every run. */
  lemma StatusTells(run: seq<State>, actions: seq<Action>, i: nat, id: string)
    requires IsRun(run, actions) && i < |run| && id in run[i].store.mem
    ensures var s, c := run[i], run[i].store.mem[id];
      && TimesFit(c, s.now) && CheckFits(c, s.checks)
      && (c.status.Applied? ==> Logged(s, id, true))
      && (c.status.Failed? ==> Logged(s, id, false))
      && (c.status.Pending? || c.status.Denied? || c.status.Expired? ==> NotLogged(s, id))
  {
    EveryRunIsValid(run, actions, i);
    assert IdValid(run[i], id);
  }

  /** The stamp itself may lie behind the expiry: the clock passes it between its two readings. */
  lemma StampMayFollowExpiry(payload: Payload) returns (run: seq<State>, actions: seq<Action>)
    requires payload != map[]
    ensures IsRun(run, actions)
    ensures var m := run[|actions|].store.mem;
      "a" in m && m["a"].status == Approved && m["a"].approvedAt.Some? && m["a"].approvedAt.value > m["a"].expiresAt
  {
    var c := NewChange("a", "r", payload, "", 1, 0);
    var approved := ApprovedBy(c, "b", 5);
    var s0 := State(Store(false, map[], map[]), 0, multiset{}, map[], {}, map[], []);
    var s1 := s0.(store := s0.store.(mem := map["a" := c]), requested := map["a" := payload]);
    var s2 := s1.(store := s1.store.(mem := map["a" := approved]), now := 5, handlers := multiset{Applying("a", payload)},
                  approvals := {"a"}, checks := map["a" := 1]);
    StampSteps(payload, c, approved, s0, s1, s2);
    hide After, Enabled, Initial;
    run, actions := [s0, s1, s2], [Create(c, true), Approve("a", "b", 1, 5, true)];
    assert StepAt(run, actions, 0) && StepAt(run, actions, 1);
  }

  lemma StampSteps(payload: Payload, c: Change, approved: Change, s0: State, s1: State, s2: State)
    requires payload != map[] && c == NewChange("a", "r", payload, "", 1, 0) && approved == ApprovedBy(c, "b", 5)
    requires s0 == State(Store(false, map[], map[]), 0, multiset{}, map[], {}, map[], [])
    requires s1 == s0.(store := s0.store.(mem := map["a" := c]), requested := map["a" := payload])
    requires s2 == s1.(store := s1.store.(mem := map["a" := approved]), now := 5, handlers := multiset{Applying("a", payload)},
                       approvals := {"a"}, checks := map["a" := 1])
    ensures Initial(s0) && Enabled(s0, Create(c, true)) && After(s0, Create(c, true)) == s1
    ensures Enabled(s1, Approve("a", "b", 1, 5, true)) && After(s1, Approve("a", "b", 1, 5, true)) == s2
  {
    assert s1.store.mem["a" := approved] == s2.store.mem;
    assert s0.store.mem["a" := c] == s1.store.mem;
    var t := After(s1, Approve("a", "b", 1, 5, true));
    assert t.handlers == s2.handlers && t.approvals == s2.approvals && t.checks == s2.checks;
  }

  // ----- the deadline -----

  /** Every request of the run is given the same time to be decided. */
  ghost predicate GivesTime(actions: seq<Action>, timeout: int) {
    forall i :: 0 <= i < |actions| && actions[i].Create? ==>
      actions[i].change.expiresAt == actions[i].change.createdAt + timeout
  }

  lemma DecideKeepsKeys(s: Store, id: string, now: int, ok: bool, decided: Change -> Change)
    requires id in s.mem ==> s.mem[id].id == id && decided(s.mem[id]).id == id
    ensures Decide(s, id, now, ok, decided).0.mem.Keys == s.mem.Keys
  {
  }

  lemma MarkKeepsKeys(s: Store, id: string, worked: bool, reason: string, now: int, ok: bool)
    requires id in s.mem ==> s.mem[id].id == id
    ensures DoMark(s, id, worked, reason, now, ok).0.mem.Keys == s.mem.Keys
  {
  }

  lemma LookKeepsKeys(s: Store, id: string, now: int, clock: string -> int, ok: bool)
    ensures DoGet(s, id, now, ok).0.mem.Keys == DoList(s, clock, ok).mem.Keys == s.mem.Keys
  {
    hide Settled;
  }

  /** Only a create brings a change into memory. */
  lemma NewIsCreated(s: State, a: Action, id: string)
    requires Valid(s) && Enabled(s, a) && id !in s.store.mem && id in After(s, a).store.mem
    ensures a.Create? && After(s, a).store.mem[id] == a.change
  {
    hide StageFits, RecordFits, LogFits, NewChange, Decide, DoGet, DoList, DoMark, Valid;
    match a
    case Approve(x, approver, check, stamp, ok) =>
      OwnId(s, x);
      DecideKeepsKeys(s.store, x, check, ok, c => ApprovedBy(c, approver, stamp));
    case Deny(x, approver, reason, check, stamp, ok) =>
      OwnId(s, x);
      DecideKeepsKeys(s.store, x, check, ok, c => DeniedBy(c, approver, reason, stamp));
    case Mark(h, reason, ok) =>
      OwnId(s, h.id);
      MarkKeepsKeys(s.store, h.id, h.worked, reason, s.now, ok);
    case Get(x, ok) => LookKeepsKeys(s.store, x, s.now, (y: string) => 0, ok);
    case List(clock, until, ok) => LookKeepsKeys(s.store, "", 0, clock, ok);
    case Restart => FileKeys(s, id);
    case _ =>
  }

  lemma FileKeys(s: State, id: string)
    requires Valid(s) && id in s.store.disk
    ensures id in s.store.mem
  {
    hide StageFits, RecordFits, LogFits, Settled;
    assert IdValid(s, id);
  }

  /** Through the whole run a change keeps the deadline that its creation gave it. */
  lemma {:induction false} DeadlineStays(run: seq<State>, actions: seq<Action>, timeout: int, i: nat, id: string)
    requires IsRun(run, actions) && GivesTime(actions, timeout) && i < |run| && id in run[i].store.mem
    ensures run[i].store.mem[id].expiresAt == run[i].store.mem[id].createdAt + timeout
  {
    hide Enabled, After, Valid, Effective, MayFollow;
    if i == 0 {
      assert false;
    } else {
      EveryRunIsValid(run, actions, i - 1);
      assert StepAt(run, actions, i - 1);
      if id in run[i - 1].store.mem {
        DeadlineStays(run, actions, timeout, i - 1, id);
        StepMoves(run[i - 1], actions[i - 1], id);
        if actions[i - 1].Restart? && !run[i - 1].store.persistent {
          RestartForgets(run[i - 1], actions[i - 1], id);
        }
      } else {
        NewIsCreated(run[i - 1], actions[i - 1], id);
      }
    }
  }

  lemma RestartForgets(s: State, a: Action, id: string)
    requires Valid(s) && Enabled(s, a) && a.Restart? && !s.store.persistent
    ensures id !in After(s, a).store.mem
  {
    hide StageFits, RecordFits, LogFits;
    assert IdValid(s, id);
  }

  /**
   In every run whose requests have that much time, a pending change is approved or denied only when
   the check comes no later than its deadline, and a later check finds it expired.
   */
  lemma DecidedInTime(run: seq<State>, actions: seq<Action>, timeout: int, i: nat)
    requires IsRun(run, actions) && GivesTime(actions, timeout) && i < |actions| && (actions[i].Approve? || actions[i].Deny?)
    requires actions[i].id in run[i].store.mem && run[i].store.mem[actions[i].id].status.Pending?
    ensures var a, id := actions[i], actions[i].id;
      var r := if a.Approve? then DoApprove(run[i].store, id, a.approver, a.check, a.stamp, a.ok).1
               else DoDeny(run[i].store, id, a.approver, a.reason, a.check, a.stamp, a.ok).1;
      var late := a.check > run[i].store.mem[id].createdAt + timeout;
      && id in run[i + 1].store.mem && (r == Err(HasExpired) <==> late)
      && (r.Ok? ==> !late && run[i + 1].store.mem[id].status == if a.Approve? then Approved else Denied)
      && (late ==> run[i + 1].store.mem[id].status == Expired)
  {
    hide Valid, NewChange;
    var id := actions[i].id;
    DeadlineStays(run, actions, timeout, i, id);
    EveryRunIsValid(run, actions, i);
    OwnId(run[i], id);
    assert StepAt(run, actions, i);
  }

  lemma OwnId(s: State, id: string)
    requires Valid(s)
    ensures id in s.store.mem ==> s.store.mem[id].id == id
  {
    hide StageFits, FileAgrees, LogFits;
    assert IdValid(s, id);
  }
}
