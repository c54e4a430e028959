/**
 Incremental ingestion into the SQL store and into the search store.  Both advance past
 everything they read, an unterminated last line included, and both upsert by event id; they
 differ in batching and in where offsets live.
 */
module IndexIngest {
  import opened Text
  import opened LogLines

  // ----- upserts -----

  function Upserted(rows: map<string, Event>, events: seq<Event>): (r: map<string, Event>)
    decreases |events|
  {
    if events == [] then rows else Upserted(rows[events[0].id := events[0]], events[1..])
  }

  function Ids(events: seq<Event>): (r: set<string>) {
    set e | e in events :: e.id
  }

  /** Some of the events were upserted, in some order, and nothing else happened. */
  ghost predicate Mixes(rows: map<string, Event>, rows': map<string, Event>, events: seq<Event>) {
    && rows.Keys <= rows'.Keys <= rows.Keys + Ids(events)
    && (forall id :: id in rows' ==>
          (id in rows && rows'[id] == rows[id]) || (rows'[id] in events && rows'[id].id == id))
  }

  lemma {:induction false} UpsertedMixes(rows: map<string, Event>, events: seq<Event>)
    ensures Mixes(rows, Upserted(rows, events), events)
    ensures Upserted(rows, events).Keys == rows.Keys + Ids(events)
    decreases |events|
  {
    if events != [] {
      var next := rows[events[0].id := events[0]];
      UpsertedMixes(next, events[1..]);
      var last := Upserted(rows, events);
      assert events == [events[0]] + events[1..];
      assert Ids(events) == {events[0].id} + Ids(events[1..]);
      forall id | id in last
        ensures (id in rows && last[id] == rows[id]) || (last[id] in events && last[id].id == id)
      {
        if id in next && last[id] == next[id] {
          assert id == events[0].id || (id in rows && last[id] == rows[id]);
        } else {
          assert last[id] in events[1..];
        }
      }
    }
  }

  lemma {:induction false} UpsertedConcat(rows: map<string, Event>, a: seq<Event>, b: seq<Event>)
    ensures Upserted(rows, a + b) == Upserted(Upserted(rows, a), b)
    decreases |a|
  {
    if a == [] {
      assert a + b == b;
    } else {
      assert (a + b)[1..] == a[1..] + b;
      UpsertedConcat(rows[a[0].id := a[0]], a[1..], b);
    }
  }

  lemma MixesTwice(rows: map<string, Event>, mid: map<string, Event>, last: map<string, Event>, a: seq<Event>, b: seq<Event>)
    requires Mixes(rows, mid, a) && Mixes(mid, last, b)
    ensures Mixes(rows, last, a + b)
  {
    assert Ids(a + b) == Ids(a) + Ids(b);
  }

  lemma MixesMore(rows: map<string, Event>, last: map<string, Event>, a: seq<Event>, b: seq<Event>)
    requires Mixes(rows, last, a) && EventSet(a) <= EventSet(b)
    ensures Mixes(rows, last, b)
  {
    forall e | e in a
      ensures e in b && e.id in Ids(b)
    {
      assert e in EventSet(a);
    }
  }

  // ----- states, steps and runs -----

  /**
   `offsets` is what the store resumes from and `saved` what survives a restart; for the SQL
   store they are the same table.  `past` are the rows stored before some file was cut short.
   */
  datatype State = State(
    dir: map<string, string>, rows: map<string, Event>, offsets: map<string, nat>, saved: map<string, nat>, past: set<Event>)

  /** The offset is the start of a line and everything before it is in the table. */
  ghost predicate Read(parse: Parser, s: State, p: string, o: nat)
    requires p in s.dir
  {
    LineStart(s.dir[p], o) && Ids(Scan(parse, p, s.dir[p][..o], 0)) <= s.rows.Keys
  }

  ghost predicate RowsFrom(rows: map<string, Event>, events: set<Event>) {
    forall id :: id in rows ==> rows[id].id == id && rows[id] in events
  }

  /** The ids the plain reader finds. */
  ghost function FullScanIds(parse: Parser, dir: map<string, string>): (r: set<string>) {
    set e | e in FullScan(parse, dir) :: e.id
  }

  ghost predicate Tracked(parse: Parser, s: State, p: string)
    requires p in s.dir
  {
    && WholeLines(s.dir[p])
    && (Shrunk(s.offsets, p, s.dir[p]) || Read(parse, s, p, OffsetOf(s.offsets, p)))
    && (Shrunk(s.saved, p, s.dir[p]) || Read(parse, s, p, OffsetOf(s.saved, p)))
  }

  ghost predicate Valid(parse: Parser, s: State) {
    && s.offsets.Keys <= s.dir.Keys && s.saved.Keys <= s.dir.Keys
    && RowsFrom(s.rows, FullScan(parse, s.dir) + s.past)
    && (forall p :: p in s.dir && IsAuditLog(p) ==> Tracked(parse, s, p))
  }

  /** A file that was cut short is still shorter than its offset. */
  ghost predicate StaysShrunk(offsets: map<string, nat>, p: string, c: string, d: string) {
    Shrunk(offsets, p, c) ==> Shrunk(offsets, p, d)
  }

  /** Files appear and grow by whole lines; one cut short stays shorter than its offset. */
  ghost predicate Grow(s: State, t: State) {
    && t.rows == s.rows && t.offsets == s.offsets && t.saved == s.saved && t.past == s.past
    && s.dir.Keys <= t.dir.Keys
    && (forall p :: p in t.dir && IsAuditLog(p) ==> WholeLines(t.dir[p]))
    && (forall p :: p in s.dir && IsAuditLog(p) ==>
          && WholeGrowth(s.dir[p], t.dir[p])
          && StaysShrunk(s.offsets, p, s.dir[p], t.dir[p]) && StaysShrunk(s.saved, p, s.dir[p], t.dir[p]))
  }

  /** A file is replaced by whole lines shorter than its offset, and than its saved one unless that is zero. */
  ghost predicate Truncate(s: State, t: State, p: string) {
    && p in s.dir && p in t.dir && t == s.(dir := s.dir[p := t.dir[p]], past := s.past + s.rows.Values)
    && WholeLines(t.dir[p]) && Shrunk(s.offsets, p, t.dir[p])
    && (Shrunk(s.saved, p, t.dir[p]) || OffsetOf(s.saved, p) == 0)
  }

  /** One file read to its end; saving the offset may fail or take effect half way. */
  ghost predicate FileDone(parse: Parser, s: State, t: State, p: string) {
    && p in s.dir && IsAuditLog(p) && t.dir == s.dir && t.past == s.past
    && var c := s.dir[p];
       var o := StartOf(s.offsets, p, c);
       && t.rows == Upserted(s.rows, Scan(parse, p, c, o))
       && (t.offsets == s.offsets || t.offsets == s.offsets[p := |c|])
       && (t.saved == s.saved || t.saved == t.offsets)
  }

  /** A pass over one file that fails: some upserts happened, no offset moved. */
  ghost predicate FileCut(parse: Parser, s: State, t: State, p: string) {
    && p in s.dir && IsAuditLog(p) && t.dir == s.dir && t.offsets == s.offsets && t.saved == s.saved && t.past == s.past
    && var c := s.dir[p];
       var o := StartOf(s.offsets, p, c);
       exists k :: o <= k <= |c| && ReadPart(parse, p, c, k) && Mixes(s.rows, t.rows, Scan(parse, p, c[..k], o))
  }

  ghost predicate Restart(s: State, t: State) {
    t == s.(offsets := s.saved)
  }

  ghost predicate Step(parse: Parser, s: State, t: State) {
    || Grow(s, t)
    || (exists p :: Truncate(s, t, p))
    || (exists p :: FileDone(parse, s, t, p))
    || (exists p :: FileCut(parse, s, t, p))
    || Restart(s, t)
  }

  ghost predicate Steps(parse: Parser, run: seq<State>) {
    forall i :: 0 <= i < |run| - 1 ==> Step(parse, run[i], run[i + 1])
  }

  lemma StepsStart(parse: Parser, s: State)
    ensures Steps(parse, [s])
  {
  }

  lemma StepsAppend(parse: Parser, run: seq<State>, t: State)
    requires run != [] && Steps(parse, run) && Step(parse, run[|run| - 1], t)
    ensures Steps(parse, run + [t])
  {
    hide Step;
  }

  ghost predicate IsRun(parse: Parser, run: seq<State>) {
    && run != [] && run[0] == State(map[], map[], map[], map[], {})
    && Steps(parse, run)
  }

  // ----- every step keeps the invariant -----

  lemma NothingReadYet(parse: Parser, s: State, p: string)
    requires p in s.dir
    ensures Read(parse, s, p, 0)
  {
    assert s.dir[p][..0] == [];
  }

  lemma GrowKeepsValid(parse: Parser, s: State, t: State)
    requires Valid(parse, s) && Grow(s, t)
    ensures Valid(parse, t)
  {
    hide IsAuditLog, Scan;
    forall id | id in t.rows
      ensures t.rows[id] in FullScan(parse, t.dir) + t.past
    {
      var e := s.rows[id];
      if e !in s.past {
        var p :| p in s.dir && IsAuditLog(p) && e in Scan(parse, p, s.dir[p], 0);
        WholeGrowthIsSafe(parse, p, s.dir[p], t.dir[p]);
        ScanGrows(parse, p, s.dir[p], t.dir[p]);
        assert e in EventSet(Scan(parse, p, s.dir[p], 0));
      }
    }
    forall p | p in t.dir && IsAuditLog(p)
      ensures Tracked(parse, t, p)
    {
      if p in s.dir {
        assert Tracked(parse, s, p);
        ReadGrows(parse, s, t, p, OffsetOf(s.offsets, p));
        ReadGrows(parse, s, t, p, OffsetOf(s.saved, p));
      } else {
        NothingReadYet(parse, t, p);
      }
    }
  }

  lemma TruncateKeepsValid(parse: Parser, s: State, t: State, p: string)
    requires Valid(parse, s) && Truncate(s, t, p)
    ensures Valid(parse, t)
  {
    hide IsAuditLog, Scan, FullScan, Read;
    forall q | q in t.dir && IsAuditLog(q)
      ensures Tracked(parse, t, q)
    {
      if q == p {
        NothingReadYet(parse, t, p);
      } else {
        assert Tracked(parse, s, q);
        SameFileRead(parse, s, t, q, OffsetOf(s.offsets, q));
        SameFileRead(parse, s, t, q, OffsetOf(s.saved, q));
      }
    }
  }

  lemma SameFileRead(parse: Parser, s: State, t: State, q: string, o: nat)
    requires q in s.dir && q in t.dir && s.dir[q] == t.dir[q] && s.rows.Keys <= t.rows.Keys
    ensures Read(parse, s, q, o) ==> Read(parse, t, q, o)
  {
  }

  /** Where a pass starts, all before is in the table. */
  lemma StartIsRead(parse: Parser, s: State, p: string)
    requires p in s.dir && Tracked(parse, s, p)
    ensures Read(parse, s, p, StartOf(s.offsets, p, s.dir[p]))
  {
    hide Read;
    NothingReadYet(parse, s, p);
  }

  lemma ReadGrows(parse: Parser, s: State, t: State, p: string, o: nat)
    requires p in s.dir && p in t.dir
    requires |s.dir[p]| <= |t.dir[p]| && t.dir[p][..|s.dir[p]|] == s.dir[p] && s.rows.Keys <= t.rows.Keys
    ensures Read(parse, s, p, o) ==> Read(parse, t, p, o)
  {
    if !Read(parse, s, p, o) {
      return;
    }
    hide Scan;
    var c, d := s.dir[p], t.dir[p];
    assert d[..o] == c[..o];
    assert o > 0 ==> d[o - 1] == c[o - 1];
  }

  lemma RowsStayFrom(parse: Parser, dir: map<string, string>, p: string, past: set<Event>,
                     rows: map<string, Event>, rows': map<string, Event>, events: seq<Event>)
    requires p in dir && IsAuditLog(p)
    requires RowsFrom(rows, FullScan(parse, dir) + past) && Mixes(rows, rows', events)
    requires EventSet(events) <= EventSet(Scan(parse, p, dir[p], 0))
    ensures RowsFrom(rows', FullScan(parse, dir) + past) && rows'.Keys <= rows.Keys + FullScanIds(parse, dir)
  {
    hide IsAuditLog, Scan, FullScan;
    InFullScan(parse, dir, p, events);
    forall id | id in rows'
      ensures rows'[id].id == id && rows'[id] in FullScan(parse, dir) + past
    {
      assert rows'[id] in events ==> rows'[id] in EventSet(events);
    }
    forall e | e in events
      ensures e.id in FullScanIds(parse, dir)
    {
      assert e in EventSet(events);
    }
  }

  lemma FileDoneKeepsValid(parse: Parser, s: State, t: State, p: string)
    requires Valid(parse, s) && FileDone(parse, s, t, p)
    ensures Valid(parse, t)
    ensures s.rows.Keys <= t.rows.Keys <= s.rows.Keys + FullScanIds(parse, s.dir)
    ensures Ids(Scan(parse, p, t.dir[p], 0)) <= t.rows.Keys
  {
    hide IsAuditLog, Scan, FullScan, FullScanIds, Mixes, RowsFrom, Upserted, Resumable, Read;
    var c := s.dir[p];
    var o := StartOf(s.offsets, p, c);
    assert Tracked(parse, s, p);
    StartIsRead(parse, s, p);
    AllReadNow(parse, s, t, p, o);
    forall q | q in t.dir && IsAuditLog(q)
      ensures Tracked(parse, t, q)
    {
      assert Tracked(parse, s, q);
      SameFileRead(parse, s, t, q, OffsetOf(s.offsets, q));
      SameFileRead(parse, s, t, q, OffsetOf(s.saved, q));
    }
  }

  lemma AllReadNow(parse: Parser, s: State, t: State, p: string, o: nat)
    requires p in s.dir && IsAuditLog(p) && t.dir == s.dir && WholeLines(s.dir[p]) && Read(parse, s, p, o)
    requires t.rows == Upserted(s.rows, Scan(parse, p, s.dir[p], o))
    requires RowsFrom(s.rows, FullScan(parse, s.dir) + s.past)
    ensures s.rows.Keys <= t.rows.Keys <= s.rows.Keys + FullScanIds(parse, s.dir)
    ensures Ids(Scan(parse, p, s.dir[p], 0)) <= t.rows.Keys
    ensures Read(parse, t, p, |s.dir[p]|)
    ensures RowsFrom(t.rows, FullScan(parse, t.dir) + s.past)
  {
    hide IsAuditLog, Scan, FullScan, FullScanIds, Mixes, RowsFrom, Upserted;
    var c := s.dir[p];
    var before, rest := Scan(parse, p, c[..o], 0), Scan(parse, p, c, o);
    ScanCut(parse, p, c, 0, o);
    EventSetConcat(before, rest);
    assert Ids(before + rest) == Ids(before) + Ids(rest);
    UpsertedMixes(s.rows, rest);
    RowsStayFrom(parse, s.dir, p, s.past, s.rows, t.rows, rest);
    assert c[..|c|] == c;
  }

  lemma FileCutKeepsValid(parse: Parser, s: State, t: State, p: string)
    requires Valid(parse, s) && FileCut(parse, s, t, p)
    ensures Valid(parse, t) && s.rows.Keys <= t.rows.Keys <= s.rows.Keys + FullScanIds(parse, s.dir)
  {
    hide IsAuditLog, Scan, FullScan, FullScanIds, RowsFrom, Resumable, Read, SafeGrowth;
    var c := s.dir[p];
    var o := StartOf(s.offsets, p, c);
    var k :| o <= k <= |c| && ReadPart(parse, p, c, k) && Mixes(s.rows, t.rows, Scan(parse, p, c[..k], o));
    assert Tracked(parse, s, p);
    StartIsRead(parse, s, p);
    ReadStarts(parse, s, p, o);
    PartOfScan(parse, p, c, o, k);
    RowsStayFrom(parse, s.dir, p, s.past, s.rows, t.rows, Scan(parse, p, c[..k], o));
    forall q | q in t.dir && IsAuditLog(q)
      ensures Tracked(parse, t, q)
    {
      assert Tracked(parse, s, q);
      SameFileRead(parse, s, t, q, OffsetOf(s.offsets, q));
      SameFileRead(parse, s, t, q, OffsetOf(s.saved, q));
    }
  }

  lemma ReadStarts(parse: Parser, s: State, p: string, o: nat)
    requires p in s.dir && Read(parse, s, p, o)
    ensures Resumable(parse, p, s.dir[p], o)
  {
    LineStartResumable(parse, p, s.dir[p], o);
  }

  lemma RestartKeepsValid(parse: Parser, s: State, t: State)
    requires Valid(parse, s) && Restart(s, t)
    ensures Valid(parse, t)
  {
    hide IsAuditLog, Scan, FullScan, RowsFrom;
    forall p | p in t.dir && IsAuditLog(p)
      ensures Tracked(parse, t, p)
    {
      assert Tracked(parse, s, p);
      SameFileRead(parse, s, t, p, OffsetOf(s.saved, p));
    }
  }

  /**
   Over every run the table holds only records of the full scan, or rows from before a file was
   cut short, and all records before any offset.
   */
  lemma {:induction false} EveryRunIsSound(parse: Parser, run: seq<State>, i: nat)
    requires IsRun(parse, run) && i < |run|
    ensures Valid(parse, run[i])
  {
    hide Valid, Grow, Truncate, FileDone, FileCut, Restart;
    if i == 0 {
      EmptyIsValid(parse);
    } else {
      EveryRunIsSound(parse, run, i - 1);
      var s, t := run[i - 1], run[i];
      assert Step(parse, s, t);
      if Grow(s, t) {
        GrowKeepsValid(parse, s, t);
      } else if Restart(s, t) {
        RestartKeepsValid(parse, s, t);
      } else if exists p :: Truncate(s, t, p) {
        var p :| Truncate(s, t, p);
        TruncateKeepsValid(parse, s, t, p);
      } else if exists p :: FileDone(parse, s, t, p) {
        var p :| FileDone(parse, s, t, p);
        FileDoneKeepsValid(parse, s, t, p);
      } else {
        var p :| FileCut(parse, s, t, p);
        FileCutKeepsValid(parse, s, t, p);
      }
    }
  }

  lemma EmptyIsValid(parse: Parser)
    ensures Valid(parse, State(map[], map[], map[], map[], {}))
  {
  }

  /** A table with every file's records has all ids of the full scan, and no others unless a file was cut short. */
  lemma EverythingStored(parse: Parser, s: State, names: seq<string>)
    requires Valid(parse, s) && forall p :: p in names <==> p in s.dir
    requires forall j :: 0 <= j < |names| && IsAuditLog(names[j]) ==>
               Ids(Scan(parse, names[j], s.dir[names[j]], 0)) <= s.rows.Keys
    ensures FullScanIds(parse, s.dir) <= s.rows.Keys
    ensures s.past == {} ==> s.rows.Keys == FullScanIds(parse, s.dir)
  {
    hide Scan, IsAuditLog, Tracked;
    forall id | id in s.rows && s.past == {}
      ensures id in FullScanIds(parse, s.dir)
    {
      assert s.rows[id] in FullScan(parse, s.dir) + s.past;
    }
    forall e | e in FullScan(parse, s.dir)
      ensures e.id in s.rows
    {
      var p :| p in s.dir && IsAuditLog(p) && e in Scan(parse, p, s.dir[p], 0);
      assert p in names;
      assert e.id in Ids(Scan(parse, p, s.dir[p], 0));
    }
  }

  /** With distinct ids the table is the full scan itself. */
  lemma DistinctIdsMeanExactTable(parse: Parser, s: State)
    requires Valid(parse, s) && s.rows.Keys == FullScanIds(parse, s.dir) && s.past == {}
    requires forall e, f :: e in FullScan(parse, s.dir) && f in FullScan(parse, s.dir) && e.id == f.id ==> e == f
    ensures s.rows.Values == FullScan(parse, s.dir)
  {
    hide FullScan, Tracked, IsAuditLog;
    forall e | e in FullScan(parse, s.dir)
      ensures e in s.rows.Values
    {
      assert e.id in FullScanIds(parse, s.dir);
      assert s.rows[e.id] in FullScan(parse, s.dir) + s.past;
    }
  }

  // ----- what happens when a log grows by less than a line -----

  /**
   A reader that advances past an unterminated line loses nothing exactly when the cut falls
   between lines, or the part before the cut is already the whole record, or no part of the line
   holds a record.
   */
  ghost predicate CutHarmless(parse: Parser, p: string, c: string, d: string)
    requires |c| <= |d| && d[..|c|] == c
  {
    var s, e := TailStart(c), LineEnd(d, |c|);
    var before, after := c[s..], d[|c|..e];
    || s == |c|
    || (LineEvents(parse, p, s, before) != [] && AllSpace(after))
    || (LineEvents(parse, p, s, before) == [] && LineEvents(parse, p, |c|, after) == []
        && LineEvents(parse, p, s, before + after) == [])
  }

  lemma CutLineEnd(c: string, d: string, s: nat, e: nat)
    requires |c| <= |d| && d[..|c|] == c && s == TailStart(c) < |c| && e == LineEnd(d, |c|)
    ensures LineEnd(d, s) == e && d[|c| - 1] != '\n'
  {
    hide LineEnd, TailStart;
    forall k | s <= k < e - 1
      ensures d[k] != '\n'
    {
      if k < |c| {
        assert d[k] == d[..|c|][k];
      }
    }
    assert d[|c| - 1] == d[..|c|][|c| - 1];
    LineEndIs(d, s, e);
  }

  lemma CutLine(c: string, d: string)
    requires |c| <= |d| && d[..|c|] == c && TailStart(c) < |c|
    ensures var s, e := TailStart(c), LineEnd(d, |c|);
      && LineEnd(d, s) == e && d[..s] == c[..s] && LineStart(d, s) && (LineStart(d, e) || e == |d|)
      && d[s..e] == c[s..] + d[|c|..e] && s < |c| <= e <= |d| && d[|c| - 1] != '\n'
  {
    hide LineEnd, TailStart;
    var s, e := TailStart(c), LineEnd(d, |c|);
    CutLineEnd(c, d, s, e);
    PrefixSlices(c, d, s, e);
  }

  lemma PrefixSlices(c: string, d: string, s: nat, e: nat)
    requires |c| <= |d| && d[..|c|] == c && s <= |c| <= e <= |d|
    ensures d[..s] == c[..s] && d[s..e] == c[s..] + d[|c|..e]
    ensures s > 0 ==> d[s - 1] == c[s - 1]
  {
    assert forall k :: 0 <= k < |c| ==> d[..|c|][k] == d[k];
  }

  lemma PiecesOfALine(parse: Parser, p: string, c: string, d: string)
    requires |c| <= |d| && d[..|c|] == c && TailStart(c) < |c|
    ensures var s, e := TailStart(c), LineEnd(d, |c|);
      var before, after := c[s..], d[|c|..e];
      && Scan(parse, p, c, 0) == Scan(parse, p, d[..s], 0) + LineEvents(parse, p, s, before)
      && Scan(parse, p, d, 0) == Scan(parse, p, d[..s], 0) + (LineEvents(parse, p, s, before + after) + Scan(parse, p, d, e))
      && Scan(parse, p, d, |c|) == LineEvents(parse, p, |c|, after) + Scan(parse, p, d, e)
  {
    hide Scan, LineEvents, LineEnd, TailStart, LineStart;
    var s, e := TailStart(c), LineEnd(d, |c|);
    CutLine(c, d);
    ScanTail(parse, p, c, 0);
    CutHead(parse, p, d, s);
    if |c| < |d| {
      ScanHead(parse, p, d, |c|);
    } else {
      BlankLine(parse, p, |c|, d[|c|..e]);
    }
  }

  lemma CutHead(parse: Parser, p: string, d: string, s: nat)
    requires s < |d| && LineStart(d, s)
    ensures Scan(parse, p, d, 0) == Scan(parse, p, d[..s], 0)
                                  + (LineEvents(parse, p, s, d[s..LineEnd(d, s)]) + Scan(parse, p, d, LineEnd(d, s)))
  {
    hide Scan, LineEvents, LineEnd;
    ScanCut(parse, p, d, 0, s);
    ScanHead(parse, p, d, s);
  }

  lemma CutAtLineStart(parse: Parser, p: string, c: string, d: string)
    requires |c| <= |d| && d[..|c|] == c && TailStart(c) == |c|
    ensures EventSet(Scan(parse, p, c, 0)) + EventSet(Scan(parse, p, d, |c|)) == EventSet(Scan(parse, p, d, 0))
  {
    hide Scan, TailStart;
    ScanCut(parse, p, d, 0, |c|);
    EventSetConcat(Scan(parse, p, c, 0), Scan(parse, p, d, |c|));
  }

  /** The passes on either side of a cut find the full scan exactly when the cut is harmless. */
  lemma CutLosesNothingIff(parse: Parser, p: string, c: string, d: string)
    requires |c| <= |d| && d[..|c|] == c && OwnIdentity(parse, p)
    ensures EventSet(Scan(parse, p, c, 0)) + EventSet(Scan(parse, p, d, |c|)) == EventSet(Scan(parse, p, d, 0))
       <==> CutHarmless(parse, p, c, d)
  {
    hide Scan, LineEvents, LineEnd, TailStart, OwnIdentity, AllSpace;
    var s, e := TailStart(c), LineEnd(d, |c|);
    if s == |c| {
      CutAtLineStart(parse, p, c, d);
    } else {
      var before, after := c[s..], d[|c|..e];
      var pre, rest := Scan(parse, p, d[..s], 0), Scan(parse, p, d, e);
      var tail, piece, line := LineEvents(parse, p, s, before), LineEvents(parse, p, |c|, after), LineEvents(parse, p, s, before + after);
      PiecesOfALine(parse, p, c, d);
      EventSetConcat(pre, tail);
      EventSetConcat(piece, rest);
      EventSetConcat(pre, line + rest);
      EventSetConcat(line, rest);
      if CutHarmless(parse, p, c, d) {
        HarmlessPieces(parse, p, s, |c|, before, after);
      }
      if EventSet(Scan(parse, p, c, 0)) + EventSet(Scan(parse, p, d, |c|)) == EventSet(Scan(parse, p, d, 0)) {
        if tail != [] {
          assert tail[0] in EventSet(Scan(parse, p, d, 0));
          KeptTailIsWhole(parse, p, c, d, tail[0]);
        } else {
          PiecesHoldNothing(parse, p, c, d);
        }
      }
    }
  }

  lemma HarmlessPieces(parse: Parser, p: string, s: nat, k: nat, before: string, after: string)
    requires (LineEvents(parse, p, s, before) != [] && AllSpace(after))
          || (LineEvents(parse, p, s, before) == [] && LineEvents(parse, p, k, after) == []
              && LineEvents(parse, p, s, before + after) == [])
    ensures LineEvents(parse, p, s, before + after) == LineEvents(parse, p, s, before)
    ensures LineEvents(parse, p, k, after) == []
  {
    hide Trim;
    if LineEvents(parse, p, s, before) != [] {
      TrimExtends(before, after);
      BlankIffAllSpace(after);
    }
  }

  lemma KeptTailIsWhole(parse: Parser, p: string, c: string, d: string, x: Event)
    requires |c| <= |d| && d[..|c|] == c && OwnIdentity(parse, p) && TailStart(c) < |c|
    requires LineEvents(parse, p, TailStart(c), c[TailStart(c)..]) == [x] && x in Scan(parse, p, d, 0)
    ensures AllSpace(d[|c|..LineEnd(d, |c|)])
  {
    hide *;
    var s, e := TailStart(c), LineEnd(d, |c|);
    CutLine(c, d);
    FirstLine(d);
    OriginIs(parse, p, d, 0, s, c[s..], x);
    RecordIsNotBlank(parse, p, s, c[s..]);
    TrimExtends(c[s..], d[|c|..e]);
  }

  lemma PiecesHoldNothing(parse: Parser, p: string, c: string, d: string)
    requires |c| <= |d| && d[..|c|] == c && OwnIdentity(parse, p) && TailStart(c) < |c|
    requires EventSet(Scan(parse, p, c, 0)) + EventSet(Scan(parse, p, d, |c|)) == EventSet(Scan(parse, p, d, 0))
    requires LineEvents(parse, p, TailStart(c), c[TailStart(c)..]) == []
    ensures var s, e := TailStart(c), LineEnd(d, |c|);
      LineEvents(parse, p, |c|, d[|c|..e]) == [] && LineEvents(parse, p, s, c[s..] + d[|c|..e]) == []
  {
    hide Scan, LineEvents, LineEnd, TailStart, OwnIdentity, LineStart;
    var s, e := TailStart(c), LineEnd(d, |c|);
    var before, after := c[s..], d[|c|..e];
    PiecesOfALine(parse, p, c, d);
    var piece, line := LineEvents(parse, p, |c|, after), LineEvents(parse, p, s, before + after);
    if piece != [] {
      assert piece[0] in EventSet(Scan(parse, p, d, |c|));
      StrayPiece(parse, p, c, d, after, piece[0]);
      assert false;
    }
    if line != [] {
      assert line[0] in EventSet(Scan(parse, p, d, 0));
      CutLine(c, d);
      LostLine(parse, p, d, s, |c|, e, line[0]);
      assert false;
    }
  }

  lemma RecordIsNotBlank(parse: Parser, p: string, o: nat, line: string)
    requires LineEvents(parse, p, o, line) != []
    ensures Trim(line) != []
  {
  }

  /** A record found by a scan stands on the line it was read from. */
  lemma OriginIs(parse: Parser, p: string, c: string, o: nat, s: nat, text: string, x: Event)
    requires OwnIdentity(parse, p) && LineStart(c, o)
    requires LineEvents(parse, p, s, text) == [x] && x in Scan(parse, p, c, o)
    ensures o <= s < |c| && LineStart(c, s) && Trim(c[s..LineEnd(c, s)]) == Trim(text)
  {
    hide Scan, LineEvents, LineEnd, OwnIdentity, Trim;
    var t := ScanOrigin(parse, p, c, o, x);
    SameRecord(parse, p, s, text, t, c[t..LineEnd(c, t)], x);
  }

  /** A record read from the second half of a line is nowhere in the full scan. */
  lemma StrayPiece(parse: Parser, p: string, c: string, d: string, piece: string, x: Event)
    requires |c| <= |d| && d[..|c|] == c && OwnIdentity(parse, p) && TailStart(c) < |c|
    requires LineEvents(parse, p, |c|, piece) == [x]
    ensures x !in Scan(parse, p, d, 0)
  {
    hide *;
    CutLine(c, d);
    FirstLine(d);
    if x in Scan(parse, p, d, 0) {
      OriginIs(parse, p, d, 0, |c|, piece, x);
      NotALineStart(d, |c|);
      assert false;
    }
  }

  lemma FirstLine(d: string)
    ensures LineStart(d, 0)
  {
  }

  lemma NotALineStart(d: string, k: nat)
    requires 0 < k <= |d| && d[k - 1] != '\n'
    ensures !LineStart(d, k)
  {
  }

  /** The record of a cut line comes from none of the other lines and from neither piece. */
  lemma LostLine(parse: Parser, p: string, d: string, s: nat, k: nat, e: nat, x: Event)
    requires OwnIdentity(parse, p) && s < k <= e <= |d| && LineStart(d, s) && (LineStart(d, e) || e == |d|)
    requires LineEvents(parse, p, s, d[s..e]) == [x]
    ensures x !in Scan(parse, p, d[..s], 0) && x !in LineEvents(parse, p, k, d[k..e]) && x !in Scan(parse, p, d, e)
  {
    hide *;
    FirstLine(d[..s]);
    if x in Scan(parse, p, d[..s], 0) {
      OriginIs(parse, p, d[..s], 0, s, d[s..e], x);
      assert false;
    }
    if x in LineEvents(parse, p, k, d[k..e]) {
      OneRecord(parse, p, k, d[k..e], x);
      SameRecord(parse, p, s, d[s..e], k, d[k..e], x);
      assert false;
    }
    if x in Scan(parse, p, d, e) {
      NothingLeft(parse, p, d);
      OriginIs(parse, p, d, e, s, d[s..e], x);
      assert false;
    }
  }

  lemma OneRecord(parse: Parser, p: string, o: nat, line: string, x: Event)
    requires x in LineEvents(parse, p, o, line)
    ensures LineEvents(parse, p, o, line) == [x]
  {
  }
}
