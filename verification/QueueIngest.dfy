/**
 Forwarding audit records to a message queue.  Published records cannot be taken back, so the
 question is how often each one is delivered: at least once whatever fails, exactly once and in
 file order when nothing does.
 */
module QueueIngest {
  import opened Text
  import opened LogLines

  /** A message carries its record and the file it was read from. */
  datatype Message = Message(source: string, event: Event)

  function Tagged(p: string, events: seq<Event>): (r: seq<Message>) {
    if events == [] then [] else [Message(p, events[0])] + Tagged(p, events[1..])
  }

  /** The records delivered from one file, in delivery order. */
  function Delivered(log: seq<Message>, p: string): (r: seq<Event>) {
    if log == [] then [] else (if log[0].source == p then [log[0].event] else []) + Delivered(log[1..], p)
  }

  lemma {:induction false} TaggedConcat(p: string, a: seq<Event>, b: seq<Event>)
    ensures Tagged(p, a + b) == Tagged(p, a) + Tagged(p, b)
  {
    if a == [] {
      assert a + b == b;
    } else {
      assert (a + b)[1..] == a[1..] + b;
      TaggedConcat(p, a[1..], b);
    }
  }

  lemma {:induction false} DeliveredConcat(a: seq<Message>, b: seq<Message>, p: string)
    ensures Delivered(a + b, p) == Delivered(a, p) + Delivered(b, p)
  {
    if a == [] {
      assert a + b == b;
    } else {
      assert (a + b)[1..] == a[1..] + b && (a + b)[0] == a[0];
      DeliveredConcat(a[1..], b, p);
      var first := if a[0].source == p then [a[0].event] else [];
      assert Delivered(a + b, p) == first + Delivered(a[1..] + b, p);
      assert Delivered(a, p) == first + Delivered(a[1..], p);
    }
  }

  lemma {:induction false} DeliveredTagged(p: string, events: seq<Event>, q: string)
    ensures Delivered(Tagged(p, events), q) == if p == q then events else []
  {
    if events != [] {
      assert Tagged(p, events)[1..] == Tagged(p, events[1..]);
      DeliveredTagged(p, events[1..], q);
      assert events == [events[0]] + events[1..];
    }
  }

  lemma {:induction false} DeliveredIff(log: seq<Message>, p: string, e: Event)
    ensures e in Delivered(log, p) <==> Message(p, e) in log
  {
    if log != [] {
      DeliveredIff(log[1..], p, e);
      assert log == [log[0]] + log[1..];
    }
  }

  lemma {:induction false} TaggedIff(p: string, events: seq<Event>, m: Message)
    ensures m in Tagged(p, events) <==> m.source == p && m.event in events
  {
    if events != [] {
      TaggedIff(p, events[1..], m);
      assert events == [events[0]] + events[1..];
    }
  }

  // ----- states and steps -----

  /** `past` are the messages sent before some file was cut short. */
  datatype State = State(
    dir: map<string, string>, log: seq<Message>, offsets: map<string, nat>, saved: map<string, nat>, past: set<Message>)

  /** Everything before the offset, the start of a line, has been delivered at least once. */
  ghost predicate Read(parse: Parser, s: State, p: string, o: nat)
    requires p in s.dir
  {
    && LineStart(s.dir[p], o)
    && (forall e :: e in Scan(parse, p, s.dir[p][..o], 0) ==> Message(p, e) in s.log)
  }

  ghost predicate Tracked(parse: Parser, s: State, p: string)
    requires p in s.dir
  {
    && WholeLines(s.dir[p])
    && (Shrunk(s.offsets, p, s.dir[p]) || Read(parse, s, p, OffsetOf(s.offsets, p)))
    && (Shrunk(s.saved, p, s.dir[p]) || Read(parse, s, p, OffsetOf(s.saved, p)))
  }

  /** A message is a record of the full scan of its file. */
  ghost predicate Genuine(parse: Parser, dir: map<string, string>, m: Message) {
    m.source in dir && IsAuditLog(m.source) && m.event in Scan(parse, m.source, dir[m.source], 0)
  }

  ghost predicate Valid(parse: Parser, s: State) {
    && s.offsets.Keys <= s.dir.Keys && s.saved.Keys <= s.dir.Keys
    && (forall m :: m in s.log ==> m.source in s.dir && (m in s.past || Genuine(parse, s.dir, m)))
    && (forall p :: p in s.dir && IsAuditLog(p) ==> Tracked(parse, s, p))
  }

  /** Files appear and grow by whole lines; one cut short stays shorter than its offset. */
  ghost predicate Grow(s: State, t: State) {
    && t.log == s.log && t.offsets == s.offsets && t.saved == s.saved && t.past == s.past
    && s.dir.Keys <= t.dir.Keys
    && (forall p :: p in t.dir && IsAuditLog(p) ==> WholeLines(t.dir[p]))
    && (forall p :: p in s.dir && IsAuditLog(p) ==>
          && WholeGrowth(s.dir[p], t.dir[p])
          && (Shrunk(s.offsets, p, s.dir[p]) ==> Shrunk(s.offsets, p, t.dir[p]))
          && (Shrunk(s.saved, p, s.dir[p]) ==> Shrunk(s.saved, p, t.dir[p])))
  }

  /** A file is replaced by whole lines shorter than its offset, and than its saved one unless that is zero. */
  ghost predicate Truncate(s: State, t: State, p: string) {
    && p in s.dir && p in t.dir && t == s.(dir := s.dir[p := t.dir[p]], past := s.past + set m | m in s.log)
    && WholeLines(t.dir[p]) && Shrunk(s.offsets, p, t.dir[p])
    && (Shrunk(s.saved, p, t.dir[p]) || OffsetOf(s.saved, p) == 0)
  }

  /** One file published to its end; `persisted` says whether the state file was written too. */
  ghost predicate FileDone(parse: Parser, s: State, t: State, p: string, persisted: bool) {
    && p in s.dir && IsAuditLog(p) && t.dir == s.dir && t.past == s.past
    && var c := s.dir[p];
       var o := StartOf(s.offsets, p, c);
       && t.log == s.log + Tagged(p, Scan(parse, p, c, o))
       && t.offsets == s.offsets[p := |c|]
       && t.saved == if persisted then t.offsets else s.saved
  }

  /** A pass over one file that fails: some messages went out, no offset moved. */
  ghost predicate FileCut(parse: Parser, s: State, t: State, p: string) {
    && p in s.dir && IsAuditLog(p) && t.dir == s.dir && t.offsets == s.offsets && t.saved == s.saved && t.past == s.past
    && |s.log| <= |t.log| && t.log[..|s.log|] == s.log
    && var c := s.dir[p];
       var o := StartOf(s.offsets, p, c);
       exists k :: o <= k <= |c| && ReadPart(parse, p, c, k) && OnlyFrom(t.log[|s.log|..], p, Scan(parse, p, c[..k], o))
  }

  ghost predicate OnlyFrom(messages: seq<Message>, p: string, events: seq<Event>) {
    forall m :: m in messages ==> m.source == p && m.event in events
  }

  ghost predicate Restart(s: State, t: State) {
    t == s.(offsets := s.saved)
  }

  ghost predicate Step(parse: Parser, s: State, t: State) {
    || Grow(s, t)
    || (exists p :: Truncate(s, t, p))
    || (exists p, persisted :: FileDone(parse, s, t, p, persisted))
    || (exists p :: FileCut(parse, s, t, p))
    || Restart(s, t)
  }

  /** A step in which nothing fails. */
  ghost predicate CleanStep(parse: Parser, s: State, t: State) {
    || Grow(s, t)
    || (exists p :: FileDone(parse, s, t, p, true))
    || Restart(s, t)
  }

  const EMPTY := State(map[], [], map[], map[], {})

  ghost predicate Steps(parse: Parser, run: seq<State>) {
    forall i :: 0 <= i < |run| - 1 ==> Step(parse, run[i], run[i + 1])
  }

  lemma StepsStart(parse: Parser, s: State)
    ensures Steps(parse, [s])
  {
  }

  lemma StepsAppend(parse: Parser, run: seq<State>, t: State)
    requires run != [] && Steps(parse, run) && Step(parse, run[|run| - 1], t)
    ensures Steps(parse, run + [t])
  {
    hide Step;
  }

  ghost predicate IsRun(parse: Parser, run: seq<State>) {
    run != [] && run[0] == EMPTY && Steps(parse, run)
  }

  ghost predicate IsCleanRun(parse: Parser, run: seq<State>) {
    run != [] && run[0] == EMPTY && forall i :: 0 <= i < |run| - 1 ==> CleanStep(parse, run[i], run[i + 1])
  }

  // ----- at least once -----

  lemma ReadGrows(parse: Parser, s: State, t: State, p: string, o: nat)
    requires p in s.dir && p in t.dir
    requires |s.dir[p]| <= |t.dir[p]| && t.dir[p][..|s.dir[p]|] == s.dir[p]
    requires forall m :: m in s.log ==> m in t.log
    ensures Read(parse, s, p, o) ==> o <= |s.dir[p]| && Read(parse, t, p, o) && t.dir[p][..o] == s.dir[p][..o]
  {
    hide Scan;
    if !Read(parse, s, p, o) {
      return;
    }
    var c, d := s.dir[p], t.dir[p];
    assert d[..o] == d[..|c|][..o];
    assert o > 0 ==> d[o - 1] == d[..|c|][o - 1];
  }

  lemma GrowKeepsValid(parse: Parser, s: State, t: State)
    requires Valid(parse, s) && Grow(s, t)
    ensures Valid(parse, t)
  {
    hide IsAuditLog, Scan, Read;
    forall m | m in t.log && m !in t.past
      ensures Genuine(parse, t.dir, m)
    {
      assert Genuine(parse, s.dir, m);
      WholeGrowthIsSafe(parse, m.source, s.dir[m.source], t.dir[m.source]);
      ScanGrows(parse, m.source, s.dir[m.source], t.dir[m.source]);
      assert m.event in EventSet(Scan(parse, m.source, s.dir[m.source], 0));
    }
    forall p | p in t.dir && IsAuditLog(p)
      ensures Tracked(parse, t, p)
    {
      if p in s.dir {
        assert Tracked(parse, s, p);
        ReadGrows(parse, s, t, p, OffsetOf(s.offsets, p));
        ReadGrows(parse, s, t, p, OffsetOf(s.saved, p));
      } else {
        NothingReadYet(parse, t, p);
      }
    }
  }

  lemma TruncateKeepsValid(parse: Parser, s: State, t: State, p: string)
    requires Valid(parse, s) && Truncate(s, t, p)
    ensures Valid(parse, t)
  {
    hide IsAuditLog, Scan, Read, Genuine;
    forall q | q in t.dir && IsAuditLog(q)
      ensures Tracked(parse, t, q)
    {
      if q == p {
        NothingReadYet(parse, t, p);
      } else {
        assert Tracked(parse, s, q);
        WholePrefix(s.dir[q]);
        ReadGrows(parse, s, t, q, OffsetOf(s.offsets, q));
        ReadGrows(parse, s, t, q, OffsetOf(s.saved, q));
      }
    }
  }

  /** Where a pass starts, all before has gone out. */
  lemma StartIsRead(parse: Parser, s: State, p: string)
    requires p in s.dir && Tracked(parse, s, p)
    ensures Read(parse, s, p, StartOf(s.offsets, p, s.dir[p]))
  {
    hide Read;
    NothingReadYet(parse, s, p);
  }

  lemma NothingReadYet(parse: Parser, s: State, p: string)
    requires p in s.dir
    ensures Read(parse, s, p, 0)
  {
    assert s.dir[p][..0] == [];
  }

  lemma MessagesStayGenuine(parse: Parser, s: State, p: string, more: seq<Message>, events: seq<Event>)
    requires Valid(parse, s) && p in s.dir && IsAuditLog(p)
    requires OnlyFrom(more, p, events) && EventSet(events) <= EventSet(Scan(parse, p, s.dir[p], 0))
    ensures forall m :: m in s.log + more ==> m.source in s.dir && (m in s.past || Genuine(parse, s.dir, m))
  {
    hide IsAuditLog, Scan, Tracked;
    forall m | m in s.log + more
      ensures m.source in s.dir && (m in s.past || Genuine(parse, s.dir, m))
    {
      if m in more {
        assert m.event in EventSet(events);
      }
    }
  }

  lemma DoneDelivers(parse: Parser, s: State, t: State, p: string, o: nat)
    requires p in s.dir && t.dir == s.dir && WholeLines(s.dir[p]) && Read(parse, s, p, o)
    requires t.log == s.log + Tagged(p, Scan(parse, p, s.dir[p], o))
    ensures Read(parse, t, p, |s.dir[p]|)
    ensures forall e :: e in Scan(parse, p, s.dir[p], 0) ==> Message(p, e) in t.log
    ensures OnlyFrom(Tagged(p, Scan(parse, p, s.dir[p], o)), p, Scan(parse, p, s.dir[p], o))
    ensures EventSet(Scan(parse, p, s.dir[p], o)) <= EventSet(Scan(parse, p, s.dir[p], 0))
  {
    hide Scan, Tagged;
    var c := s.dir[p];
    var before, rest := Scan(parse, p, c[..o], 0), Scan(parse, p, c, o);
    ScanCut(parse, p, c, 0, o);
    EventSetConcat(before, rest);
    assert c[..|c|] == c;
    forall m | m in Tagged(p, rest)
      ensures m.source == p && m.event in rest
    {
      TaggedIff(p, rest, m);
    }
    forall e | e in Scan(parse, p, c, 0)
      ensures Message(p, e) in t.log
    {
      if e !in before {
        TaggedIff(p, rest, Message(p, e));
      }
    }
  }

  lemma FileDoneKeepsValid(parse: Parser, s: State, t: State, p: string, persisted: bool)
    requires Valid(parse, s) && FileDone(parse, s, t, p, persisted)
    ensures Valid(parse, t)
    ensures forall m :: m in s.log ==> m in t.log
    ensures forall e :: e in Scan(parse, p, t.dir[p], 0) ==> Message(p, e) in t.log
  {
    hide IsAuditLog, Scan, Tagged, Read, OnlyFrom, Genuine;
    var c := s.dir[p];
    var o := StartOf(s.offsets, p, c);
    assert Tracked(parse, s, p);
    StartIsRead(parse, s, p);
    DoneDelivers(parse, s, t, p, o);
    MessagesStayGenuine(parse, s, p, Tagged(p, Scan(parse, p, c, o)), Scan(parse, p, c, o));
    forall q | q in t.dir && IsAuditLog(q)
      ensures Tracked(parse, t, q)
    {
      assert Tracked(parse, s, q);
      WholePrefix(s.dir[q]);
      ReadGrows(parse, s, t, q, OffsetOf(s.offsets, q));
      ReadGrows(parse, s, t, q, OffsetOf(s.saved, q));
    }
  }

  lemma WholePrefix(c: string)
    ensures c[..|c|] == c
  {
  }

  lemma FileCutKeepsValid(parse: Parser, s: State, t: State, p: string)
    requires Valid(parse, s) && FileCut(parse, s, t, p)
    ensures Valid(parse, t)
    ensures forall m :: m in s.log ==> m in t.log
  {
    hide IsAuditLog, Scan, Read, OnlyFrom, Genuine, ReadPart, Resumable;
    var c := s.dir[p];
    var o := StartOf(s.offsets, p, c);
    var more := t.log[|s.log|..];
    assert t.log == s.log + more;
    var k :| o <= k <= |c| && ReadPart(parse, p, c, k) && OnlyFrom(more, p, Scan(parse, p, c[..k], o));
    assert Tracked(parse, s, p);
    StartIsRead(parse, s, p);
    ReadPartOfScan(parse, s, p, o, k);
    MessagesStayGenuine(parse, s, p, more, Scan(parse, p, c[..k], o));
    forall q | q in t.dir && IsAuditLog(q)
      ensures Tracked(parse, t, q)
    {
      assert Tracked(parse, s, q);
      WholePrefix(s.dir[q]);
      ReadGrows(parse, s, t, q, OffsetOf(s.offsets, q));
      ReadGrows(parse, s, t, q, OffsetOf(s.saved, q));
    }
  }

  lemma ReadPartOfScan(parse: Parser, s: State, p: string, o: nat, k: nat)
    requires p in s.dir && Read(parse, s, p, o) && o <= k <= |s.dir[p]| && ReadPart(parse, p, s.dir[p], k)
    ensures EventSet(Scan(parse, p, s.dir[p][..k], o)) <= EventSet(Scan(parse, p, s.dir[p], 0))
  {
    hide Scan;
    LineStartResumable(parse, p, s.dir[p], o);
    PartOfScan(parse, p, s.dir[p], o, k);
  }

  lemma RestartKeepsValid(parse: Parser, s: State, t: State)
    requires Valid(parse, s) && Restart(s, t)
    ensures Valid(parse, t)
  {
    hide IsAuditLog, Scan, Genuine, Read;
    forall p | p in t.dir && IsAuditLog(p)
      ensures Tracked(parse, t, p)
    {
      assert Tracked(parse, s, p);
      WholePrefix(s.dir[p]);
      ReadGrows(parse, s, t, p, OffsetOf(s.saved, p));
    }
  }

  lemma EmptyIsValid(parse: Parser)
    ensures Valid(parse, EMPTY)
  {
  }

  /**
   Over every run: only genuine records go out, or went out before a file was cut short, and all
   before any offset have gone out.
   */
  lemma {:induction false} EveryRunDelivers(parse: Parser, run: seq<State>, i: nat)
    requires IsRun(parse, run) && i < |run|
    ensures Valid(parse, run[i])
  {
    hide Valid, Grow, Truncate, FileDone, FileCut, Restart;
    if i == 0 {
      EmptyIsValid(parse);
    } else {
      EveryRunDelivers(parse, run, i - 1);
      var s, t := run[i - 1], run[i];
      assert Step(parse, s, t);
      if Grow(s, t) {
        GrowKeepsValid(parse, s, t);
      } else if Restart(s, t) {
        RestartKeepsValid(parse, s, t);
      } else if exists p :: Truncate(s, t, p) {
        var p :| Truncate(s, t, p);
        TruncateKeepsValid(parse, s, t, p);
      } else if exists p, persisted :: FileDone(parse, s, t, p, persisted) {
        var p, persisted :| FileDone(parse, s, t, p, persisted);
        FileDoneKeepsValid(parse, s, t, p, persisted);
      } else {
        var p :| FileCut(parse, s, t, p);
        FileCutKeepsValid(parse, s, t, p);
      }
    }
  }

  // ----- exactly once -----

  /** From every file, exactly the records before its offset have gone out, once and in order. */
  ghost predicate Exact(parse: Parser, s: State) {
    && s.saved == s.offsets
    && (forall p :: p in s.dir && IsAuditLog(p) ==> ExactFor(parse, s, p))
  }

  ghost predicate ExactFor(parse: Parser, s: State, p: string)
    requires p in s.dir
  {
    var o := OffsetOf(s.offsets, p);
    o <= |s.dir[p]| && Delivered(s.log, p) == Scan(parse, p, s.dir[p][..o], 0)
  }

  lemma ExactGrow(parse: Parser, s: State, t: State)
    requires Valid(parse, s) && Exact(parse, s) && Grow(s, t)
    ensures Exact(parse, t)
  {
    hide IsAuditLog, Scan, Delivered, Genuine, Read;
    forall p | p in t.dir && IsAuditLog(p)
      ensures ExactFor(parse, t, p)
    {
      if p in s.dir {
        assert ExactFor(parse, s, p);
        assert Tracked(parse, s, p);
        ReadGrows(parse, s, t, p, OffsetOf(s.offsets, p));
      } else {
        NothingFrom(parse, s, p);
        WholePrefix(t.dir[p]);
        assert t.dir[p][..0] == [];
        NothingLeft(parse, p, []);
      }
    }
  }

  lemma NothingFrom(parse: Parser, s: State, p: string)
    requires Valid(parse, s) && p !in s.dir
    ensures Delivered(s.log, p) == []
  {
    hide IsAuditLog, Scan, Tracked, Delivered;
    var d := Delivered(s.log, p);
    if d != [] {
      DeliveredIff(s.log, p, d[0]);
      assert false;
    }
  }

  lemma ExactDone(parse: Parser, s: State, t: State, p: string)
    requires Valid(parse, s) && Exact(parse, s) && FileDone(parse, s, t, p, true)
    ensures Exact(parse, t)
    ensures Delivered(t.log, p) == Scan(parse, p, t.dir[p], 0)
    ensures forall q :: q != p ==> Delivered(t.log, q) == Delivered(s.log, q)
  {
    hide IsAuditLog, Scan, Delivered, Tagged, Genuine, Read;
    var c := s.dir[p];
    var o := StartOf(s.offsets, p, c);
    assert Tracked(parse, s, p) && ExactFor(parse, s, p);
    StartIsRead(parse, s, p);
    ReadIsLineStart(parse, s, p, o);
    ScanCut(parse, p, c, 0, o);
    WholePrefix(c);
    forall q
      ensures Delivered(t.log, q) == Delivered(s.log, q) + if q == p then Scan(parse, p, c, o) else []
    {
      DeliveredConcat(s.log, Tagged(p, Scan(parse, p, c, o)), q);
      DeliveredTagged(p, Scan(parse, p, c, o), q);
    }
    forall q | q in t.dir && IsAuditLog(q)
      ensures ExactFor(parse, t, q)
    {
      assert ExactFor(parse, s, q);
    }
  }

  lemma ReadIsLineStart(parse: Parser, s: State, p: string, o: nat)
    requires p in s.dir && Read(parse, s, p, o)
    ensures LineStart(s.dir[p], o)
  {
  }

  /** In a run without failures every record before an offset has gone out exactly once. */
  lemma {:induction false} CleanRunsDeliverOnce(parse: Parser, run: seq<State>, i: nat)
    requires IsCleanRun(parse, run) && i < |run|
    ensures Valid(parse, run[i]) && Exact(parse, run[i])
  {
    hide Valid, Exact, Grow, FileDone, Restart;
    if i == 0 {
      EmptyIsValid(parse);
      EmptyIsExact(parse);
    } else {
      CleanRunsDeliverOnce(parse, run, i - 1);
      var s, t := run[i - 1], run[i];
      assert CleanStep(parse, s, t);
      if Grow(s, t) {
        GrowKeepsValid(parse, s, t);
        ExactGrow(parse, s, t);
      } else if Restart(s, t) {
        RestartKeepsValid(parse, s, t);
        ExactRestart(parse, s, t);
      } else {
        var p :| FileDone(parse, s, t, p, true);
        FileDoneKeepsValid(parse, s, t, p, true);
        ExactDone(parse, s, t, p);
      }
    }
  }

  lemma EmptyIsExact(parse: Parser)
    ensures Exact(parse, EMPTY)
  {
  }

  lemma ExactRestart(parse: Parser, s: State, t: State)
    requires Exact(parse, s) && Restart(s, t)
    ensures Exact(parse, t)
  {
    assert t == s;
  }

  // ----- the program -----

  /** What went out in a failed pass comes from the lines it read. */
  lemma SentSoFar(parse: Parser, path: string, data: string, offset: nat, k: nat,
                  sent: seq<Event>, batch: seq<Event>, more: seq<Message>)
    requires offset <= k <= |data| && (k == |data| || k == offset || data[k - 1] == '\n')
    requires sent + batch == Scan(parse, path, data[..k], offset)
    requires OnlyFrom(more, path, batch)
    ensures OnlyFrom(Tagged(path, sent) + more, path, Scan(parse, path, data, offset))
  {
    hide Scan, Tagged;
    PrefixOfScan(parse, path, data, offset, k);
    forall m | m in Tagged(path, sent) + more
      ensures m.source == path && m.event in Scan(parse, path, data, offset)
    {
      TaggedIff(path, sent, m);
      assert m.event in EventSet(sent + batch);
    }
  }

  class QueueForwarder {
    const parse: Parser
    var log: seq<Message>
    var offsets: map<string, nat>
    var saved: map<string, nat>

    constructor (parse: Parser)
      ensures this.parse == parse && log == [] && offsets == map[] && saved == map[]
    {
      this.parse, this.log, this.offsets, this.saved := parse, [], map[], map[];
    }

    ghost function View(dir: map<string, string>, past: set<Message>): (s: State)
      reads this
    {
      State(dir, log, offsets, saved, past)
    }

    /** A failed publish may have sent some of its messages; callers learn no more. */
    method PublishBatch(path: string, events: seq<Event>) returns (ok: bool, ghost sent: seq<Message>)
      modifies this`log
      ensures log == old(log) + sent
      ensures ok ==> sent == Tagged(path, events)
      ensures OnlyFrom(sent, path, events)
    {
      ok := *;
      var messages := Tagged(path, events);
      if !ok {
        var some :| 0 <= some <= |messages|;
        messages := messages[..some];
      }
      forall m | m in messages
        ensures m.source == path && m.event in events
      {
        TaggedIff(path, events, m);
      }
      log := log + messages;
      sent := messages;
    }

    /** The offset in memory moves even when writing the state file fails. */
    method SaveFileOffset(path: string, offset: nat) returns (ok: bool)
      modifies this`offsets, this`saved
      ensures offsets == old(offsets)[path := offset]
      ensures saved == if ok then offsets else old(saved)
    {
      offsets := offsets[path := offset];
      ok := *;
      if ok {
        saved := offsets;
      }
    }

    method SyncFile(path: string, content: string, offset: nat, fault: Option<nat>)
      returns (next: nat, ok: bool, ghost sent: seq<Message>)
      requires offset <= |content|
      requires fault.Some? ==> offset + fault.value <= |content|
      modifies this`log
      ensures log == old(log) + sent
      ensures ok ==> fault.None? && next == |content| && sent == Tagged(path, Scan(parse, path, content, offset))
      ensures !ok ==> next == offset
      ensures !ok ==> var k := if fault.Some? then offset + fault.value else |content|;
                OnlyFrom(sent, path, Scan(parse, path, content[..k], offset))
    {
      hide Scan, LineEvents, LineEnd, Tagged, OnlyFrom;
      var data := if fault.Some? then content[..offset + fault.value] else content;
      assert content[..|content|] == content;
      var currentOffset: nat := offset;
      var events: seq<Event> := [];
      ghost var done: seq<Event> := [];
      NothingLeft(parse, path, data[..offset]);
      NothingTagged(path);
      assert log + [] == log;
      while true
        invariant offset <= currentOffset <= |data| && (currentOffset == offset || data[currentOffset - 1] == '\n')
        invariant log == old(log) + Tagged(path, done)
        invariant done + events == Scan(parse, path, data[..currentOffset], offset)
        decreases |data| - currentOffset
      {
        var lineOffset := currentOffset;
        currentOffset := LineEnd(data, lineOffset);
        var line := data[lineOffset..currentOffset];
        var found := LineEvents(parse, path, lineOffset, line);
        ExtendScan(parse, path, data, offset, lineOffset);
        assert done + events + found == done + (events + found);
        events := events + found;
        if |found| > 0 && |events| >= BULK_BATCH_SIZE {
          ok, sent := PublishBatch(path, events);
          if !ok {
            SentSoFar(parse, path, data, offset, currentOffset, done, events, sent);
            sent := Tagged(path, done) + sent;
            return offset, false, sent;
          }
          TaggedConcat(path, done, events);
          assert done + events == done + events + [];
          done, events := done + events, [];
        }
        if line == [] || line[|line| - 1] != '\n' {
          assert currentOffset == |data| && data[..currentOffset] == data;
          if fault.Some? {
            NothingTagged(path);
            NoMessages(path, events);
            SentSoFar(parse, path, data, offset, currentOffset, done, events, []);
            sent := Tagged(path, done) + [];
            return offset, false, sent;
          }
          break;
        }
      }
      sent := [];
      if |events| > 0 {
        ok, sent := PublishBatch(path, events);
        if !ok {
          SentSoFar(parse, path, data, offset, currentOffset, done, events, sent);
          sent := Tagged(path, done) + sent;
          return offset, false, sent;
        }
        TaggedConcat(path, done, events);
      } else {
        assert done + events == done;
      }
      sent := Tagged(path, done) + sent;
      return currentOffset, true, sent;
    }

    /**
     A pass over the directory.  However it ends, only records of the files have gone out.  When it
     ends without error every record of every file has gone out, files that were cut short included.
     */
    method SyncDir(dir: map<string, string>, names: seq<string>, faults: map<string, nat>, ghost past: set<Message>)
      returns (ok: bool, ghost run: seq<State>)
      requires forall p :: p in names <==> p in dir
      requires forall i, j :: 0 <= i < j < |names| ==> names[i] != names[j]
      requires Valid(parse, View(dir, past)) && SafeFaults(parse, dir, offsets, faults)
      modifies this
      ensures Valid(parse, View(dir, past))
      ensures ok ==> forall p, e :: p in dir && IsAuditLog(p) && e in Scan(parse, p, dir[p], 0) ==> Message(p, e) in log
      ensures ok && old(Exact(parse, View(dir, past))) ==> Exact(parse, View(dir, past))
      ensures ok && old(Exact(parse, View(dir, past))) ==>
                forall p :: p in dir && IsAuditLog(p) ==> Delivered(log, p) == Scan(parse, p, dir[p], 0)
      ensures run != [] && run[0] == old(View(dir, past)) && run[|run| - 1] == View(dir, past) && Steps(parse, run)
    {
      hide Valid, Exact, Scan, IsAuditLog, ReadPart, Tagged, OnlyFrom, Delivered, Steps, Step, SafeFaults, FileCut;
      run := [View(dir, past)];
      StepsStart(parse, run[0]);
      ghost var start := offsets;
      ghost var exact := Exact(parse, View(dir, past));
      ok := true;
      for i := 0 to |names|
        invariant ok && Valid(parse, View(dir, past))
        invariant run != [] && run[0] == old(View(dir, past)) && run[|run| - 1] == View(dir, past) && Steps(parse, run)
        invariant forall j :: i <= j < |names| ==> OffsetOf(offsets, names[j]) == OffsetOf(start, names[j])
        invariant forall j, e :: 0 <= j < i && IsAuditLog(names[j]) && e in Scan(parse, names[j], dir[names[j]], 0) ==>
                    Message(names[j], e) in log
        invariant exact ==> Exact(parse, View(dir, past))
        invariant exact ==> forall j :: 0 <= j < i && IsAuditLog(names[j]) ==>
                    Delivered(log, names[j]) == Scan(parse, names[j], dir[names[j]], 0)
      {
        var path := names[i];
        if !IsAuditLog(path) {
          continue;
        }
        ghost var before := View(dir, past);
        var content := dir[path];
        var offset := OffsetOf(offsets, path);
        if |content| < offset {
          offset := 0;
        }
        assert offset == StartOf(offsets, path, content) == StartOf(start, path, content);
        FaultIsSafe(parse, dir, start, faults, path);
        var next;
        ghost var sent;
        next, ok, sent := SyncFile(path, content, offset, if path in faults then Some(faults[path]) else None);
        if !ok {
          CutIsStep(parse, before, View(dir, past), path, if path in faults then offset + faults[path] else |content|, sent);
          FileCutKeepsValid(parse, before, View(dir, past), path);
          StepsAppend(parse, run, View(dir, past));
          run := run + [View(dir, past)];
          return;
        }
        ok := SaveFileOffset(path, next);
        assert FileDone(parse, before, View(dir, past), path, ok);
        DoneIsStep(parse, before, View(dir, past), path, ok);
        FileDoneKeepsValid(parse, before, View(dir, past), path, ok);
        StepsAppend(parse, run, View(dir, past));
        run := run + [View(dir, past)];
        if !ok {
          return;
        }
        if exact {
          ExactDone(parse, before, View(dir, past), path);
        }
      }
    }
  }

  lemma NothingTagged(path: string)
    ensures Tagged(path, []) == []
  {
  }

  lemma NoMessages(path: string, events: seq<Event>)
    ensures OnlyFrom([], path, events)
  {
  }

  lemma DoneIsStep(parse: Parser, s: State, t: State, p: string, persisted: bool)
    requires FileDone(parse, s, t, p, persisted)
    ensures Step(parse, s, t)
  {
    hide FileDone, Grow, Truncate, Restart, FileCut;
  }

  lemma CutIsStep(parse: Parser, s: State, t: State, p: string, k: nat, sent: seq<Message>)
    requires p in s.dir && IsAuditLog(p) && t == s.(log := s.log + sent)
    requires StartOf(s.offsets, p, s.dir[p]) <= k <= |s.dir[p]| && ReadPart(parse, p, s.dir[p], k)
    requires OnlyFrom(sent, p, Scan(parse, p, s.dir[p][..k], StartOf(s.offsets, p, s.dir[p])))
    ensures FileCut(parse, s, t, p) && Step(parse, s, t)
  {
    hide Scan, ReadPart, OnlyFrom, Grow, Truncate, Restart, FileDone;
    assert t.log[|s.log|..] == sent && t.log[..|s.log|] == s.log;
  }
}
