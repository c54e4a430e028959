/**
 The store of change requests as the program keeps it, and the node's configuration file.

 Parameters named `now`, `stamp` and `clock` are readings of the clock.  Those named `saved`, `written` and the like
 say whether a write to disk succeeds.
 */
module ConfigChangeStore {
  import opened Text
  import opened ConfigApproval

  const DAY: int := 86400

  // ----- listing -----

  datatype Filter = Filter(status: Option<Status>, requester: string, approver: string, since: Option<int>, until: Option<int>)

  predicate Matches(f: Filter, c: Change) {
    && (f.status.None? || c.status == f.status.value)
    && (f.requester == "" || c.requester == f.requester)
    && (f.approver == "" || c.approver == f.approver)
    && (f.since.None? || c.createdAt >= f.since.value)
    && (f.until.None? || c.createdAt <= f.until.value)
  }

  ghost predicate NewestFirst(cs: seq<Change>) {
    forall i, j :: 0 <= i < j < |cs| ==> cs[i].createdAt >= cs[j].createdAt
  }

  ghost predicate AtMost(cs: seq<Change>, time: int) {
    forall k :: 0 <= k < |cs| ==> cs[k].createdAt <= time
  }

  function InsertNewest(sorted: seq<Change>, c: Change): (r: seq<Change>)
    decreases |sorted|
  {
    if sorted == [] || c.createdAt >= sorted[0].createdAt then [c] + sorted else [sorted[0]] + InsertNewest(sorted[1..], c)
  }

  function SortNewest(cs: seq<Change>): (r: seq<Change>) {
    if cs == [] then [] else InsertNewest(SortNewest(cs[1..]), cs[0])
  }

  lemma NewestCons(c: Change, cs: seq<Change>)
    requires NewestFirst(cs) && AtMost(cs, c.createdAt)
    ensures NewestFirst([c] + cs)
  {
  }

  lemma {:induction false} InsertKeepsOrder(sorted: seq<Change>, c: Change)
    requires NewestFirst(sorted)
    ensures NewestFirst(InsertNewest(sorted, c))
    ensures forall time :: AtMost(sorted, time) && c.createdAt <= time ==> AtMost(InsertNewest(sorted, c), time)
    decreases |sorted|
  {
    if sorted == [] || c.createdAt >= sorted[0].createdAt {
      NewestCons(c, sorted);
    } else {
      InsertKeepsOrder(sorted[1..], c);
      assert AtMost(sorted[1..], sorted[0].createdAt);
      NewestCons(sorted[0], InsertNewest(sorted[1..], c));
    }
  }

  lemma {:induction false} InsertKeepsAll(sorted: seq<Change>, c: Change)
    ensures multiset(InsertNewest(sorted, c)) == multiset(sorted) + multiset{c}
    decreases |sorted|
  {
    if sorted != [] && c.createdAt < sorted[0].createdAt {
      assert sorted == [sorted[0]] + sorted[1..];
      InsertKeepsAll(sorted[1..], c);
    }
  }

  lemma {:induction false} SortIsSorted(cs: seq<Change>)
    ensures NewestFirst(SortNewest(cs)) && multiset(SortNewest(cs)) == multiset(cs)
  {
    hide InsertNewest;
    if cs != [] {
      assert cs == [cs[0]] + cs[1..];
      SortIsSorted(cs[1..]);
      InsertKeepsOrder(SortNewest(cs[1..]), cs[0]);
      InsertKeepsAll(SortNewest(cs[1..]), cs[0]);
    }
  }

  /** Exactly the matching changes among these ids, each once. */
  ghost predicate ListsMatches(m: map<string, Change>, ids: set<string>, f: Filter, cs: multiset<Change>) {
    forall c :: cs[c] == if c.id in ids && c.id in m && m[c.id] == c && Matches(f, c) then 1 else 0
  }

  lemma ListsOneMore(m: map<string, Change>, ids: set<string>, f: Filter, cs: seq<Change>, id: string, c: Change)
    requires ListsMatches(m, ids, f, multiset(cs)) && id !in ids && c.id == id
    ensures ListsMatches(m[id := c], ids + {id}, f, multiset(if Matches(f, c) then cs + [c] else cs))
  {
    hide Matches;
  }

  /** The loop has expired the overdue changes outside `ids`. */
  ghost predicate SettledOutside(before: map<string, Change>, after: map<string, Change>, ids: set<string>, clock: string -> int) {
    && after.Keys == before.Keys && ids <= before.Keys
    && forall id :: id in before ==> after[id] == if id in ids then before[id] else Settled(before[id], clock(id))
  }

  ghost predicate SomeOverdue(m: map<string, Change>, ids: set<string>, clock: string -> int) {
    exists id :: id in m && id !in ids && Overdue(m[id], clock(id))
  }

  lemma OneLess(m: map<string, Change>, ids: set<string>, id: string, clock: string -> int)
    requires id in ids && id in m
    ensures SomeOverdue(m, ids - {id}, clock) <==> SomeOverdue(m, ids, clock) || Overdue(m[id], clock(id))
  {
    hide Overdue;
    if SomeOverdue(m, ids - {id}, clock) {
      var x :| x in m && x !in ids - {id} && Overdue(m[x], clock(x));
      assert x == id || x !in ids;
    }
  }

  ghost predicate Keyed(m: map<string, Change>) {
    forall id :: id in m ==> m[id].id == id
  }

  /** The records of a file by id; of two with the same id the later one counts. */
  function ById(records: seq<Change>): (m: map<string, Change>)
    ensures Keyed(m)
  {
    if records == [] then map[] else
      var last := records[|records| - 1];
      ById(records[..|records| - 1])[last.id := last]
  }

  class ChangeStore {
    var changes: map<string, Change>
    var disk: map<string, Change>
    const persistent: bool
    const timeout: int

    /** Records are kept under their own ids. */
    ghost predicate Valid()
      reads this
    {
      Keyed(changes) && Keyed(disk)
    }

    ghost function Value(): (s: Store)
      reads this
    {
      Store(persistent, changes, disk)
    }

    /** Opens the store on a file, whose records it loads; without a path it starts empty. */
    constructor (hasPath: bool, timeoutSeconds: int, file: seq<Change>)
      ensures Valid()
      ensures persistent == hasPath && timeout > 0
      ensures timeout == if timeoutSeconds > 0 then timeoutSeconds else 24 * 60 * 60
      ensures hasPath ==> Value() == Reloaded(Store(true, map[], ById(file)))
      ensures !hasPath ==> Value() == Store(false, map[], map[])
    {
      persistent := hasPath;
      timeout := if timeoutSeconds <= 0 then DAY else timeoutSeconds;
      changes := if hasPath then ById(file) else map[];
      disk := if hasPath then ById(file) else map[];
    }

    method SaveLocked(saved: bool) returns (ok: bool)
      requires Valid()
      modifies this`disk
      ensures Valid() && Value() == Written(old(Value()), saved)
      ensures ok <==> !persistent || saved
    {
      if !persistent {
        return true;
      }
      if saved {
        disk := changes;
      }
      return saved;
    }

    method CreateChange(id: string, requester: string, payload: Payload, baseVersion: string, now: int, saved: bool)
      returns (r: Result)
      requires Valid()
      modifies this
      ensures Valid()
      ensures (Value(), r) == DoCreate(old(Value()), NewChange(id, requester, payload, baseVersion, timeout, now), saved)
      ensures r.Ok? <==> requester != "" && payload != map[] && (!persistent || saved)
      ensures r.Ok? ==> changes == old(changes)[id := r.change] && (persistent ==> disk == changes)
      ensures r.Ok? ==>
        && r.change.id == id && r.change.requester == requester && r.change.payload == payload && r.change.baseVersion == baseVersion
        && r.change.status == Pending && r.change.createdAt == now && r.change.expiresAt == now + timeout
      ensures r.Err? ==> changes == old(changes) - (if r.error == SaveFailed then {id} else {}) && disk == old(disk)
    {
      if requester == "" {
        return Err(NoRequester);
      }
      if payload == map[] {
        return Err(NoPayload);
      }
      var req := NewChange(id, requester, payload, baseVersion, timeout, now);
      changes := changes[id := req];
      var ok := SaveLocked(saved);
      if !ok {
        changes := changes - {id};
        assert changes == old(changes) - {id};
        return Err(SaveFailed);
      }
      return Ok(req);
    }

    method ExpireLocked(id: string, now: int) returns (expired: bool)
      requires Valid() && id in changes
      modifies this`changes
      ensures Valid()
      ensures changes == old(changes)[id := Settled(old(changes)[id], now)]
      ensures expired <==> Overdue(old(changes)[id], now)
      ensures !expired ==> changes == old(changes)
    {
      if !changes[id].status.Pending? {
        return false;
      }
      if now > changes[id].expiresAt {
        changes := changes[id := changes[id].(status := Expired)];
        return true;
      }
      return false;
    }

    method GetChange(id: string, now: int, saved: bool) returns (r: Result)
      requires Valid()
      modifies this
      ensures Valid()
      ensures (Value(), r) == DoGet(old(Value()), id, now, saved)
      ensures if id !in old(changes) then r == Err(NotFound) && changes == old(changes) else
        && r.Ok? && changes == old(changes)[id := r.change]
        && r.change == if old(changes)[id].status == Pending && now > old(changes)[id].expiresAt
                       then old(changes)[id].(status := Expired) else old(changes)[id]
    {
      if id !in changes {
        return Err(NotFound);
      }
      var expired := ExpireLocked(id, now);
      if expired {
        var _ := SaveLocked(saved);
      }
      return Ok(changes[id]);
    }

    /** All matching changes, newest first; overdue ones are expired on the way, by the clock as it then is. */
    method ListChanges(filter: Filter, clock: string -> int, saved: bool) returns (results: seq<Change>)
      requires Valid()
      modifies this
      ensures Valid()
      ensures Value() == DoList(old(Value()), clock, saved)
      ensures changes.Keys == old(changes).Keys && forall id :: id in changes ==>
        changes[id] == if old(changes)[id].status == Pending && clock(id) > old(changes)[id].expiresAt
                       then old(changes)[id].(status := Expired) else old(changes)[id]
      ensures disk == if persistent && saved && changes != old(changes) then changes else old(disk)
      ensures NewestFirst(results) && ListsMatches(changes, changes.Keys, filter, multiset(results))
      ensures forall c :: c in results <==>
        && c.id in changes && changes[c.id] == c
        && (filter.status.Some? ==> c.status == filter.status.value)
        && (filter.requester != "" ==> c.requester == filter.requester)
        && (filter.approver != "" ==> c.approver == filter.approver)
        && (filter.since.Some? ==> filter.since.value <= c.createdAt)
        && (filter.until.Some? ==> c.createdAt <= filter.until.value)
    {
      hide Matches, Settled, Overdue, ListsMatches, SomeOverdue, SortNewest, Keyed;
      var changed := false;
      results := [];
      var ids := changes.Keys;
      NothingListed(changes, filter);
      NoneOverdue(changes, clock);
      assert changes.Keys - ids == {};
      while ids != {}
        invariant Valid() && SettledOutside(old(changes), changes, ids, clock) && disk == old(disk)
        invariant changed <==> SomeOverdue(old(changes), ids, clock)
        invariant ListsMatches(changes, changes.Keys - ids, filter, multiset(results))
      {
        var id :| id in ids;
        ghost var m := changes;
        OneLess(old(changes), ids, id, clock);
        assert (changes.Keys - ids) + {id} == changes.Keys - (ids - {id});
        var expired := ExpireLocked(id, clock(id));
        SettledKeepsId(m, id, clock(id));
        ListsOneMore(m, m.Keys - ids, filter, results, id, changes[id]);
        ids := ids - {id};
        if expired {
          changed := true;
        }
        if Matches(filter, changes[id]) {
          results := results + [changes[id]];
        }
      }
      assert changes.Keys - {} == changes.Keys;
      ListedAll(old(changes), changes, clock);
      if changed {
        var _ := SaveLocked(saved);
      }
      SortIsSorted(results);
      results := SortNewest(results);
      ListedMeans(changes, filter, results);
      ExpiredMeans(old(changes), changes, clock);
    }

    method ApproveChange(id: string, approver: string, now: int, stamp: int, saved: bool) returns (r: Result)
      requires Valid()
      modifies this
      ensures Valid()
      ensures (Value(), r) == DoApprove(old(Value()), id, approver, now, stamp, saved)
      ensures r == Err(NotFound) <==> id !in old(changes)
      ensures r == Err(HasExpired) <==> id in old(changes) && old(changes)[id].status.Pending? && now > old(changes)[id].expiresAt
      ensures r.Ok? ==>
        && id in old(changes) && old(changes)[id].status.Pending? && now <= old(changes)[id].expiresAt
        && SameRequest(old(changes)[id], r.change) && changes == old(changes)[id := r.change] && (persistent ==> disk == changes)
        && r.change.status == Approved && r.change.approver == approver && r.change.approvedAt == Some(stamp)
        && r.change.denyReason == "" && r.change.failureReason == ""
        && r.change.deniedAt.None? && r.change.failedAt.None? && r.change.appliedAt.None?
      ensures r == Err(SaveFailed) ==> persistent && changes == old(changes) && disk == old(disk)
    {
      if id !in changes {
        return Err(NotFound);
      }
      var expired := ExpireLocked(id, now);
      if expired {
        var _ := SaveLocked(saved);
        return Err(HasExpired);
      }
      var prev := changes[id];
      if !prev.status.Pending? {
        return Err(NotPending);
      }
      var req := prev.(status := Approved, approver := approver, approvedAt := Some(stamp), denyReason := "", failureReason := "");
      req := req.(deniedAt := None, failedAt := None, appliedAt := None);
      changes := changes[id := req];
      var ok := SaveLocked(saved);
      if !ok {
        changes := changes[id := prev];
        assert changes == old(changes);
        return Err(SaveFailed);
      }
      return Ok(req);
    }

    method MarkApplied(id: string, now: int, saved: bool) returns (r: Result)
      requires Valid()
      modifies this
      ensures Valid()
      ensures (Value(), r) == DoMark(old(Value()), id, true, "", now, saved)
      ensures r.Ok? ==>
        && id in old(changes) && old(changes)[id].status.Approved? && SameRequest(old(changes)[id], r.change)
        && r.change.status == Applied && r.change.appliedAt == Some(now) && r.change.failedAt.None? && r.change.failureReason == ""
        && changes == old(changes)[id := r.change] && (persistent ==> disk == changes)
      ensures r.Err? ==> changes == old(changes) && disk == old(disk)
    {
      if id !in changes {
        return Err(NotFound);
      }
      var prev := changes[id];
      if !prev.status.Approved? {
        return Err(NotApproved);
      }
      var req := prev.(status := Applied, appliedAt := Some(now), failureReason := "", failedAt := None);
      changes := changes[id := req];
      var ok := SaveLocked(saved);
      if !ok {
        changes := changes[id := prev];
        assert changes == old(changes);
        return Err(SaveFailed);
      }
      return Ok(req);
    }

    method MarkFailed(id: string, failureReason: string, now: int, saved: bool) returns (r: Result)
      requires Valid()
      modifies this
      ensures Valid()
      ensures (Value(), r) == DoMark(old(Value()), id, false, failureReason, now, saved)
      ensures r.Ok? ==>
        && id in old(changes) && old(changes)[id].status.Approved? && SameRequest(old(changes)[id], r.change)
        && r.change.status == Failed && r.change.failedAt == Some(now) && r.change.failureReason == failureReason
        && r.change.appliedAt.None?
        && changes == old(changes)[id := r.change] && (persistent ==> disk == changes)
      ensures r.Err? ==> changes == old(changes) && disk == old(disk)
    {
      if id !in changes {
        return Err(NotFound);
      }
      var prev := changes[id];
      if !prev.status.Approved? {
        return Err(NotApproved);
      }
      var req := prev.(status := Failed, failedAt := Some(now), failureReason := failureReason, appliedAt := None);
      changes := changes[id := req];
      var ok := SaveLocked(saved);
      if !ok {
        changes := changes[id := prev];
        assert changes == old(changes);
        return Err(SaveFailed);
      }
      return Ok(req);
    }

    method DenyChange(id: string, approver: string, reason: string, now: int, stamp: int, saved: bool) returns (r: Result)
      requires Valid()
      modifies this
      ensures Valid()
      ensures (Value(), r) == DoDeny(old(Value()), id, approver, reason, now, stamp, saved)
      ensures r == Err(NotFound) <==> id !in old(changes)
      ensures r == Err(HasExpired) <==> id in old(changes) && old(changes)[id].status.Pending? && now > old(changes)[id].expiresAt
      ensures r.Ok? ==>
        && id in old(changes) && old(changes)[id].status.Pending? && now <= old(changes)[id].expiresAt
        && SameRequest(old(changes)[id], r.change) && changes == old(changes)[id := r.change] && (persistent ==> disk == changes)
        && r.change.status == Denied && r.change.approver == approver && r.change.deniedAt == Some(stamp) && r.change.denyReason == reason
      ensures r == Err(SaveFailed) ==> persistent && changes == old(changes) && disk == old(disk)
    {
      if id !in changes {
        return Err(NotFound);
      }
      var expired := ExpireLocked(id, now);
      if expired {
        var _ := SaveLocked(saved);
        return Err(HasExpired);
      }
      var prev := changes[id];
      if !prev.status.Pending? {
        return Err(NotPending);
      }
      changes := changes[id := prev.(status := Denied, approver := approver, deniedAt := Some(stamp), denyReason := reason)];
      var ok := SaveLocked(saved);
      if !ok {
        changes := changes[id := prev];
        assert changes == old(changes);
        return Err(SaveFailed);
      }
      return Ok(changes[id]);
    }
  }

  lemma ExpiredMeans(before: map<string, Change>, after: map<string, Change>, clock: string -> int)
    requires SettledOutside(before, after, {}, clock)
    ensures after.Keys == before.Keys && forall id :: id in after ==>
      after[id] == if before[id].status == Pending && clock(id) > before[id].expiresAt
                   then before[id].(status := Expired) else before[id]
    ensures after == before <==> AllSettled(before, clock) == before
  {
    assert after == AllSettled(before, clock);
  }

  lemma ListedMeans(m: map<string, Change>, f: Filter, cs: seq<Change>)
    requires ListsMatches(m, m.Keys, f, multiset(cs))
    ensures forall c :: c in cs <==>
      && c.id in m && m[c.id] == c
      && (f.status.Some? ==> c.status == f.status.value)
      && (f.requester != "" ==> c.requester == f.requester)
      && (f.approver != "" ==> c.approver == f.approver)
      && (f.since.Some? ==> f.since.value <= c.createdAt)
      && (f.until.Some? ==> c.createdAt <= f.until.value)
  {
    assert forall c :: c in cs <==> c in multiset(cs);
  }

  lemma NothingListed(m: map<string, Change>, f: Filter)
    ensures ListsMatches(m, {}, f, multiset([]))
  {
  }

  lemma NoneOverdue(m: map<string, Change>, clock: string -> int)
    ensures !SomeOverdue(m, m.Keys, clock)
  {
  }

  lemma SettledKeepsId(m: map<string, Change>, id: string, now: int)
    requires Keyed(m) && id in m
    ensures Settled(m[id], now).id == id
  {
  }

  lemma ListedAll(before: map<string, Change>, after: map<string, Change>, clock: string -> int)
    requires SettledOutside(before, after, {}, clock)
    ensures after == AllSettled(before, clock)
    ensures SomeOverdue(before, {}, clock) <==> after != before
  {
    if after != before {
      var id :| id in before && after[id] != before[id];
      assert Overdue(before[id], clock(id));
    }
  }
}
