/**
 Incremental ingestion into ClickHouse: batches, a committed offset that trails the reader, a
 step back before an unterminated line, and passes that may fail or be cut short anywhere.

 The table is the set of events it returns under FINAL: a replayed line adds nothing.
 */
module ClickHouseIngest {
  import opened Text
  import opened LogLines

  // ----- states, steps and runs -----

  /** `past` are the records stored before some file was cut short. */
  datatype State = State(dir: map<string, string>, rows: set<Event>, offsets: map<string, nat>, past: set<Event>)

  /**
   The stored offset is one to resume from, and everything read before it is stored; or it lies
   past the end of a file that was cut short.
   */
  ghost predicate Tracked(parse: Parser, s: State, p: string)
    requires p in s.dir
  {
    var o := OffsetOf(s.offsets, p);
    || Shrunk(s.offsets, p, s.dir[p])
    || (Resumable(parse, p, s.dir[p], o) && EventSet(Scan(parse, p, s.dir[p][..o], 0)) <= s.rows)
  }

  ghost predicate Valid(parse: Parser, s: State) {
    && s.offsets.Keys <= s.dir.Keys
    && s.rows <= FullScan(parse, s.dir) + s.past
    && (forall p :: p in s.dir && IsAuditLog(p) ==> Tracked(parse, s, p))
  }

  /** Files appear and grow by any number of bytes; one cut short stays shorter than its offset. */
  ghost predicate Grow(parse: Parser, s: State, t: State) {
    && t.rows == s.rows && t.offsets == s.offsets && t.past == s.past
    && s.dir.Keys <= t.dir.Keys
    && (forall p :: p in s.dir && IsAuditLog(p) ==>
          SafeGrowth(parse, p, s.dir[p], t.dir[p]) && (Shrunk(s.offsets, p, s.dir[p]) ==> Shrunk(s.offsets, p, t.dir[p])))
  }

  /** A file is replaced by any content shorter than its offset. */
  ghost predicate Truncate(s: State, t: State, p: string) {
    && p in s.dir && p in t.dir && t == s.(dir := s.dir[p := t.dir[p]], past := s.past + s.rows)
    && Shrunk(s.offsets, p, t.dir[p])
  }

  /** Where an error-free pass over a file may leave the offset. */
  ghost predicate Advances(parse: Parser, p: string, c: string, o: nat, n: nat) {
    && o <= n <= |c|
    && (n == o || c[n - 1] == '\n' || (n == |c| && LastLineHasRecord(parse, p, c, o)))
    && (n <= TailStart(c) ==> Scan(parse, p, c[..TailStart(c)], n) == [])
  }

  ghost predicate LastLineHasRecord(parse: Parser, p: string, c: string, o: nat)
    requires o <= |c|
  {
    var l := if o <= TailStart(c) then TailStart(c) else o;
    LineEvents(parse, p, l, c[l..]) != []
  }

  /** One file read to its end and stored; the offset is saved, or its saving fails. */
  ghost predicate FileDone(parse: Parser, s: State, t: State, p: string) {
    && p in s.dir && IsAuditLog(p) && t.dir == s.dir && t.past == s.past
    && var c := s.dir[p];
       var o := StartOf(s.offsets, p, c);
       && t.rows == s.rows + EventSet(Scan(parse, p, c, o))
       && (t.offsets == s.offsets || exists n: nat :: t.offsets == s.offsets[p := n] && Advances(parse, p, c, o, n))
  }

  /**
   A pass over one file that fails or crashes: some of the records it read are stored, no offset
   is.  A read fault ends the readable part at k.
   */
  ghost predicate FileCut(parse: Parser, s: State, t: State, p: string) {
    && p in s.dir && IsAuditLog(p) && t.dir == s.dir && t.offsets == s.offsets && t.past == s.past
    && var c := s.dir[p];
       var o := StartOf(s.offsets, p, c);
       exists k :: o <= k <= |c| && ReadPart(parse, p, c, k)
                   && s.rows <= t.rows <= s.rows + EventSet(Scan(parse, p, c[..k], o))
  }

  ghost predicate Step(parse: Parser, s: State, t: State) {
    || Grow(parse, s, t)
    || (exists p :: Truncate(s, t, p))
    || (exists p :: FileDone(parse, s, t, p))
    || (exists p :: FileCut(parse, s, t, p))
  }

  ghost predicate Steps(parse: Parser, run: seq<State>) {
    forall i :: 0 <= i < |run| - 1 ==> Step(parse, run[i], run[i + 1])
  }

  lemma StepsStart(parse: Parser, s: State)
    ensures Steps(parse, [s])
  {
  }

  lemma StepsAppend(parse: Parser, run: seq<State>, t: State)
    requires run != [] && Steps(parse, run) && Step(parse, run[|run| - 1], t)
    ensures Steps(parse, run + [t])
  {
    hide Step;
  }

  /** A run starts with nothing stored and takes any steps in any order. */
  ghost predicate IsRun(parse: Parser, run: seq<State>) {
    run != [] && run[0].rows == run[0].past == {} && run[0].offsets == map[] && Steps(parse, run)
  }

  // ----- every step keeps the invariant -----

  lemma InitialIsValid(parse: Parser, s: State)
    requires s.rows == {} && s.offsets == map[]
    ensures Valid(parse, s)
  {
    forall p | p in s.dir && IsAuditLog(p)
      ensures Tracked(parse, s, p)
    {
      NoOffsetYet(parse, p, s.dir[p]);
    }
  }

  lemma GrowKeepsValid(parse: Parser, s: State, t: State)
    requires Valid(parse, s) && Grow(parse, s, t)
    ensures Valid(parse, t)
  {
    hide IsAuditLog, Scan, SafeGrowth, Resumable;
    forall e | e in s.rows && e !in s.past
      ensures e in FullScan(parse, t.dir)
    {
      var p :| p in s.dir && IsAuditLog(p) && e in Scan(parse, p, s.dir[p], 0);
      ScanGrows(parse, p, s.dir[p], t.dir[p]);
      assert e in EventSet(Scan(parse, p, s.dir[p], 0));
    }
    forall p | p in t.dir && IsAuditLog(p)
      ensures Tracked(parse, t, p)
    {
      if p in s.dir {
        assert Tracked(parse, s, p);
        if !Shrunk(s.offsets, p, s.dir[p]) {
          ResumableGrows(parse, p, s.dir[p], t.dir[p], OffsetOf(s.offsets, p));
        }
      } else {
        NoOffsetYet(parse, p, t.dir[p]);
      }
    }
  }

  lemma TruncateKeepsValid(parse: Parser, s: State, t: State, p: string)
    requires Valid(parse, s) && Truncate(s, t, p)
    ensures Valid(parse, t)
  {
    hide IsAuditLog, Scan, Resumable, FullScan;
    forall q | q in t.dir && IsAuditLog(q)
      ensures Tracked(parse, t, q)
    {
      if q != p {
        assert Tracked(parse, s, q);
      }
    }
  }

  /** Where a pass starts, all before is stored. */
  lemma StartIsTracked(parse: Parser, s: State, p: string)
    requires p in s.dir && Tracked(parse, s, p)
    ensures var o := StartOf(s.offsets, p, s.dir[p]);
      Resumable(parse, p, s.dir[p], o) && EventSet(Scan(parse, p, s.dir[p][..o], 0)) <= s.rows
  {
    hide Scan, Resumable;
    NoOffsetYet(parse, p, s.dir[p]);
  }

  /** The offset an error-free pass leaves can be resumed from. */
  lemma AdvancesResumable(parse: Parser, p: string, c: string, o: nat, n: nat)
    requires Resumable(parse, p, c, o) && Advances(parse, p, c, o, n)
    ensures n <= |c| && Resumable(parse, p, c, n)
  {
    hide Scan, LineEvents, LineEnd, TailStart, Trim;
    if n != o {
      if c[n - 1] == '\n' {
        TailStartIs(c[..n], n);
      } else {
        var ts := TailStart(c);
        assert n == |c| && c[..n] == c && LastLineHasRecord(parse, p, c, o);
        if o <= ts {
          NothingAtEnd(parse, p, ts, c);
          LineEndIs(c, ts, |c|);
          assert c[ts..n] == c[ts..];
        } else {
          MidLineHasNoRecord(parse, p, c, o);
        }
      }
    }
  }

  lemma MidLineHasNoRecord(parse: Parser, p: string, c: string, o: nat)
    requires Resumable(parse, p, c, o) && TailStart(c) < o
    ensures LineEvents(parse, p, o, c[o..]) == []
  {
    hide LineEvents, LineEnd, TailStart, Trim;
    var ts := TailStart(c);
    assert forall k :: ts <= k < o ==> c[..o][k] == c[k];
    TailStartIs(c[..o], ts);
    RestIsBlank(parse, p, c, ts, o);
    LineEndIs(c, ts, |c|);
    assert c[o..|c|] == c[o..];
  }

  lemma FileDoneKeepsValid(parse: Parser, s: State, t: State, p: string)
    requires Valid(parse, s) && FileDone(parse, s, t, p)
    ensures Valid(parse, t)
    ensures s.rows <= t.rows <= s.rows + FullScan(parse, s.dir) && EventSet(Scan(parse, p, t.dir[p], 0)) <= t.rows
  {
    hide IsAuditLog, Scan, SafeGrowth, Resumable, FullScan, Advances;
    var c := s.dir[p];
    var o := StartOf(s.offsets, p, c);
    assert Tracked(parse, s, p);
    StartIsTracked(parse, s, p);
    ResumeScan(parse, p, c, o);
    EventSetConcat(Scan(parse, p, c[..o], 0), Scan(parse, p, c, o));
    InFullScan(parse, s.dir, p, Scan(parse, p, c, o));
    forall q | q in t.dir && IsAuditLog(q)
      ensures Tracked(parse, t, q)
    {
      assert Tracked(parse, s, q);
      if q == p && t.offsets != s.offsets {
        var n: nat :| t.offsets == s.offsets[p := n] && Advances(parse, p, c, o, n);
        AdvancesResumable(parse, p, c, o, n);
        ResumeScan(parse, p, c, n);
        EventSetConcat(Scan(parse, p, c[..n], 0), Scan(parse, p, c, n));
      }
    }
  }

  lemma FileCutKeepsValid(parse: Parser, s: State, t: State, p: string)
    requires Valid(parse, s) && FileCut(parse, s, t, p)
    ensures Valid(parse, t) && s.rows <= t.rows <= s.rows + FullScan(parse, s.dir)
  {
    hide IsAuditLog, Scan, SafeGrowth, Resumable, FullScan;
    var c := s.dir[p];
    var o := StartOf(s.offsets, p, c);
    var k :| o <= k <= |c| && ReadPart(parse, p, c, k)
             && s.rows <= t.rows <= s.rows + EventSet(Scan(parse, p, c[..k], o));
    assert Tracked(parse, s, p);
    StartIsTracked(parse, s, p);
    PartOfScan(parse, p, c, o, k);
    InFullScan(parse, s.dir, p, Scan(parse, p, c[..k], o));
    forall q | q in t.dir && IsAuditLog(q)
      ensures Tracked(parse, t, q)
    {
      assert Tracked(parse, s, q);
    }
  }

  /**
   Over every run: whatever is stored, the full scan finds or was stored before a file was cut
   short, and everything before a stored offset is stored.
   */
  lemma {:induction false} EveryRunIsSound(parse: Parser, run: seq<State>, i: nat)
    requires IsRun(parse, run) && i < |run|
    ensures Valid(parse, run[i])
  {
    hide Valid, Grow, Truncate, FileDone, FileCut;
    if i == 0 {
      InitialIsValid(parse, run[0]);
    } else {
      EveryRunIsSound(parse, run, i - 1);
      var s, t := run[i - 1], run[i];
      assert Step(parse, s, t);
      if Grow(parse, s, t) {
        GrowKeepsValid(parse, s, t);
      } else if exists p :: Truncate(s, t, p) {
        var p :| Truncate(s, t, p);
        TruncateKeepsValid(parse, s, t, p);
      } else if exists p :: FileDone(parse, s, t, p) {
        var p :| FileDone(parse, s, t, p);
        FileDoneKeepsValid(parse, s, t, p);
      } else {
        var p :| FileCut(parse, s, t, p);
        FileCutKeepsValid(parse, s, t, p);
      }
    }
  }

  // ----- a growth that is not safe loses the invariant -----

  /** A pass over a file, and then a growth that loses a record: the row it stored is a stray. */
  lemma LostRecordLeavesAStrayRow(parse: Parser, path: string, c: string, d: string) returns (run: seq<State>)
    requires IsAuditLog(path) && !(EventSet(Scan(parse, path, c, 0)) <= EventSet(Scan(parse, path, d, 0)))
    ensures IsRun(parse, run) && var s := run[|run| - 1];
      && s.dir == map[path := c] && s.rows == EventSet(Scan(parse, path, c, 0)) && s.past == {}
      && !Valid(parse, s.(dir := map[path := d]))
  {
    hide Scan, IsAuditLog, Grow, Truncate, FileCut, FullScan;
    var before := State(map[path := c], {}, map[], {});
    var after := before.(rows := EventSet(Scan(parse, path, c, 0)));
    assert {} + after.rows == after.rows;
    assert FileDone(parse, before, after, path);
    run := [before, after];
    OneFile(parse, path, d);
    assert FullScan(parse, map[path := d]) + {} == FullScan(parse, map[path := d]);
  }

  /**
   A complete record without its newline, extended by more text on the same line: after the pass in
   between, the store holds a record that the full scan does not find.
   */
  lemma UnsafeGrowthLeavesAStrayRow(parse: Parser, path: string, c: string, d: string) returns (run: seq<State>)
    requires |c| <= |d| && d[..|c|] == c && OwnIdentity(parse, path) && IsAuditLog(path)
    requires !SafeGrowth(parse, path, c, d)
    ensures IsRun(parse, run) && var s := run[|run| - 1];
      && s.dir == map[path := c] && s.rows == EventSet(Scan(parse, path, c, 0)) && s.past == {}
      && !Valid(parse, s.(dir := map[path := d]))
  {
    hide Scan, SafeGrowth, IsAuditLog, IsRun, Valid;
    ScanGrowsIffSafe(parse, path, c, d);
    run := LostRecordLeavesAStrayRow(parse, path, c, d);
  }

  /** On a concrete log: a record, then the same line with one more character. */
  lemma StrayRow() returns (run: seq<State>)
    ensures IsRun(OnlyBraces, run) && run[|run| - 1].dir == map["a.log" := "{}"]
    ensures !Valid(OnlyBraces, run[|run| - 1].(dir := map["a.log" := "{}}\n"]))
  {
    hide IsRun, Valid;
    var c, d := "{}", "{}}\n";
    BracesScan(c, d);
    run := LostRecordLeavesAStrayRow(OnlyBraces, "a.log", c, d);
  }

  lemma BracesScan(c: string, d: string)
    requires c == "{}" && d == "{}}\n"
    ensures IsAuditLog("a.log")
    ensures !(EventSet(Scan(OnlyBraces, "a.log", c, 0)) <= EventSet(Scan(OnlyBraces, "a.log", d, 0)))
  {
    hide Trim;
    var path := "a.log";
    assert path[1..] == ".log";
    LineEndIs(c, 0, 2);
    LineEndIs(d, 0, 4);
    TrimOfTrimmed(c);
    TrimmedLine("{}}", d);
    ScanHead(OnlyBraces, path, c, 0);
    ScanHead(OnlyBraces, path, d, 0);
    NothingLeft(OnlyBraces, path, c);
    NothingLeft(OnlyBraces, path, d);
    assert c[0..2] == c && d[0..4] == d && c[..2] == c && d[..4] == d;
    var e := Event("braces", 0, "", "", "", "", "", "");
    assert Scan(OnlyBraces, path, c, 0) == [e];
    assert Scan(OnlyBraces, path, d, 0) == [];
    assert e in EventSet([e]);
  }

  lemma TrimmedLine(text: string, line: string)
    requires Trimmed(text) && text != "" && line == text + "\n"
    ensures Trim(line) == text
  {
    hide Trim;
    assert line == [] + text + "\n";
    TrimUnique([], text, "\n");
  }

  // ----- the program -----

  /** The loop's state: what is flushed, what waits in the batch, and how far the reader is. */
  ghost predicate Reading(parse: Parser, path: string, data: string, offset: nat,
                          committed: nat, current: nat, flushed: seq<Event>, batch: seq<Event>)
  {
    && offset <= committed <= current <= |data|
    && (committed == offset || data[committed - 1] == '\n')
    && (current == offset || data[current - 1] == '\n')
    && flushed == Scan(parse, path, data[..committed], offset)
    && batch == Scan(parse, path, data[..current], committed)
  }

  lemma ReadSoFar(parse: Parser, path: string, data: string, offset: nat,
                  committed: nat, current: nat, flushed: seq<Event>, batch: seq<Event>)
    requires Reading(parse, path, data, offset, committed, current, flushed, batch)
    ensures Scan(parse, path, data[..current], offset) == flushed + batch
  {
    hide Scan;
    var f := data[..current];
    ScanCut(parse, path, f, offset, committed);
    assert f[..committed] == data[..committed];
  }

  /** After the next line: its record, if any, has joined the batch. */
  lemma ReadLine(parse: Parser, path: string, data: string, offset: nat,
                 committed: nat, current: nat, flushed: seq<Event>, batch: seq<Event>)
    requires Reading(parse, path, data, offset, committed, current, flushed, batch)
    ensures var e := LineEnd(data, current);
            var events := LineEvents(parse, path, current, data[current..e]);
            && Scan(parse, path, data[..e], committed) == batch + events
            && Scan(parse, path, data[..e], offset) == flushed + (batch + events)
            && Scan(parse, path, data[..e], e) == []
  {
    hide Scan, LineEvents, LineEnd;
    var e := LineEnd(data, current);
    ReadSoFar(parse, path, data, offset, committed, current, flushed, batch);
    ExtendScan(parse, path, data, committed, current);
    ExtendScan(parse, path, data, offset, current);
    NothingLeft(parse, path, data[..e]);
  }

  lemma PartlyStored(parse: Parser, path: string, data: string, offset: nat, k: nat, flushed: seq<Event>, batch: seq<Event>)
    requires offset <= k <= |data| && (k == |data| || k == offset || data[k - 1] == '\n')
    requires Scan(parse, path, data[..k], offset) == flushed + batch
    ensures EventSet(flushed) + EventSet(batch) <= EventSet(Scan(parse, path, data, offset))
  {
    hide Scan;
    EventSetConcat(flushed, batch);
    if k < |data| {
      ScanCut(parse, path, data, offset, k);
      EventSetConcat(Scan(parse, path, data[..k], offset), Scan(parse, path, data, k));
    } else {
      assert data[..k] == data;
    }
  }

  /** Where the last iteration may leave the offset, given the start of the last line read. */
  lemma LastOffset(parse: Parser, path: string, data: string, offset: nat, lineOffset: nat, n: nat)
    requires offset <= lineOffset <= |data| && (lineOffset == offset || data[lineOffset - 1] == '\n')
    requires forall k :: lineOffset <= k < |data| ==> data[k] != '\n'
    requires
      || n == lineOffset
      || (n == |data| && LineEvents(parse, path, lineOffset, data[lineOffset..]) != [])
      || (offset <= n <= lineOffset && (n == offset || data[n - 1] == '\n')
          && Scan(parse, path, data[..lineOffset], n) == [])
    ensures Advances(parse, path, data, offset, n)
  {
    hide Scan, LineEvents, LineEnd, TailStart;
    var ts := TailStart(data);
    if lineOffset > 0 && data[lineOffset - 1] != '\n' {
      assert ts < offset;
    } else {
      TailStartIs(data, lineOffset);
      NothingLeft(parse, path, data[..ts]);
      if n > lineOffset {
        NothingAtEnd(parse, path, lineOffset, data);
      }
    }
  }

  lemma AllRead(parse: Parser, s: State, p: string)
    requires Valid(parse, s) && p in s.dir && IsAuditLog(p) && StartOf(s.offsets, p, s.dir[p]) == |s.dir[p]|
    ensures EventSet(Scan(parse, p, s.dir[p], 0)) <= s.rows
  {
    hide Scan, Resumable, IsAuditLog;
    assert Tracked(parse, s, p);
    StartIsTracked(parse, s, p);
    assert s.dir[p][..|s.dir[p]|] == s.dir[p];
  }

  lemma EverythingStored(parse: Parser, s: State, names: seq<string>)
    requires Valid(parse, s) && forall p :: p in names <==> p in s.dir
    requires forall j :: 0 <= j < |names| && IsAuditLog(names[j]) ==>
               EventSet(Scan(parse, names[j], s.dir[names[j]], 0)) <= s.rows
    ensures FullScan(parse, s.dir) <= s.rows
  {
    hide Scan, IsAuditLog, Tracked;
    forall e | e in FullScan(parse, s.dir)
      ensures e in s.rows
    {
      var p :| p in s.dir && IsAuditLog(p) && e in Scan(parse, p, s.dir[p], 0);
      assert p in names;
      assert e in EventSet(Scan(parse, p, s.dir[p], 0));
    }
  }

  /** A pass over one file that failed after reading k bytes. */
  lemma CutIsStep(parse: Parser, s: State, t: State, p: string, k: nat)
    requires p in s.dir && IsAuditLog(p) && t == s.(rows := t.rows)
    requires StartOf(s.offsets, p, s.dir[p]) <= k <= |s.dir[p]| && ReadPart(parse, p, s.dir[p], k)
    requires s.rows <= t.rows <= s.rows + EventSet(Scan(parse, p, s.dir[p][..k], StartOf(s.offsets, p, s.dir[p])))
    ensures FileCut(parse, s, t, p) && Step(parse, s, t)
  {
    hide Scan, ReadPart, Grow, Truncate, FileDone, IsAuditLog, StartOf;
  }

  /** A pass over one file that read it to its end. */
  lemma DoneIsStep(parse: Parser, s: State, t: State, p: string, n: nat)
    requires p in s.dir && IsAuditLog(p) && t == s.(rows := t.rows, offsets := t.offsets)
    requires var c := s.dir[p];
      var o := StartOf(s.offsets, p, c);
      && t.rows == s.rows + EventSet(Scan(parse, p, c, o)) && Advances(parse, p, c, o, n)
      && (t.offsets == s.offsets || t.offsets == s.offsets[p := n])
    ensures FileDone(parse, s, t, p) && Step(parse, s, t)
  {
    hide Scan, Grow, Truncate, FileCut, IsAuditLog, StartOf, Advances;
  }

  class ClickHouseStore {
    const parse: Parser
    const batchSize: int
    var rows: set<Event>
    var offsets: map<string, nat>

    constructor (parse: Parser, batchSize: int)
      ensures this.parse == parse && this.batchSize == batchSize && rows == {} && offsets == map[]
    {
      this.parse, this.batchSize, this.rows, this.offsets := parse, batchSize, {}, map[];
    }

    /** One insert; a failed one may still have stored any part of the batch. */
    method InsertBatch(batch: seq<Event>) returns (ok: bool)
      modifies this`rows
      ensures old(rows) <= rows <= old(rows) + EventSet(batch)
      ensures ok ==> rows == old(rows) + EventSet(batch)
    {
      ok := *;
      var stored := EventSet(batch);
      if !ok {
        stored :| stored <= EventSet(batch);
      }
      rows := rows + stored;
    }

    /** A failed save may still have taken effect. */
    method SaveOffset(path: string, offset: nat) returns (ok: bool)
      modifies this`offsets
      ensures offsets == old(offsets)[path := offset] || (!ok && offsets == old(offsets))
    {
      ok := *;
      var taken: bool := *;
      if ok || taken {
        offsets := offsets[path := offset];
      }
    }

    /**
     Reads one file from an offset.  `fault` is a read error after so many bytes.  On an
     error-free return everything from the offset on is stored, the new offset has not gone
     backwards or past the file, and only an unterminated last line would be read again.
     */
    method SyncFile(path: string, content: string, offset: nat, fault: Option<nat>) returns (newOffset: nat, ok: bool)
      requires offset <= |content|
      requires fault.Some? ==> offset + fault.value <= |content|
      modifies this`rows
      ensures old(rows) <= rows
      ensures ok ==> fault.None? && Advances(parse, path, content, offset, newOffset)
      ensures ok ==> rows == old(rows) + EventSet(Scan(parse, path, content, offset))
      ensures !ok ==> var k := if fault.Some? then offset + fault.value else |content|;
                rows <= old(rows) + EventSet(Scan(parse, path, content[..k], offset))
    {
      hide Scan, LineEvents, LineEnd, TailStart, Advances;
      var data := if fault.Some? then content[..offset + fault.value] else content;
      assert content[..|content|] == content;
      var currentOffset: nat := offset;
      var batch: seq<Event> := [];
      var committedOffset: nat := offset;
      ghost var flushed: seq<Event> := [];
      NothingLeft(parse, path, data[..offset]);
      while true
        invariant Reading(parse, path, data, offset, committedOffset, currentOffset, flushed, batch)
        invariant rows == old(rows) + EventSet(flushed)
        decreases |data| - currentOffset
      {
        var lineOffset := currentOffset;
        currentOffset := LineEnd(data, lineOffset);
        var line := data[lineOffset..currentOffset];
        ReadLine(parse, path, data, offset, committedOffset, lineOffset, flushed, batch);
        var events := LineEvents(parse, path, lineOffset, line);
        var atEnd := line == [] || line[|line| - 1] != '\n';
        batch := batch + events;
        PartlyStored(parse, path, data, offset, currentOffset, flushed, batch);
        if events != [] && |batch| >= batchSize {
          ok := InsertBatch(batch);
          if !ok {
            return committedOffset, false;
          }
          EventSetConcat(flushed, batch);
          flushed, batch, committedOffset := flushed + batch, [], currentOffset;
        }
        if atEnd {
          assert currentOffset == |data| && data[..currentOffset] == data;
          if fault.None? {
            if |line| > 0 {
              currentOffset := lineOffset;
            }
            if |batch| > 0 {
              ok := InsertBatch(batch);
              if !ok {
                return committedOffset, false;
              }
              EventSetConcat(flushed, batch);
              committedOffset := currentOffset;
            }
            LastOffset(parse, path, data, offset, lineOffset, committedOffset);
            return committedOffset, true;
          }
          if |batch| > 0 {
            ok := InsertBatch(batch);
          }
          return committedOffset, false;
        }
      }
    }

    /** One file of a pass: read it, and save where the reader got. */
    method SyncOne(dir: map<string, string>, path: string, offset: nat, fault: Option<nat>, ghost past: set<Event>)
      returns (ok: bool)
      requires path in dir && IsAuditLog(path) && offset == StartOf(offsets, path, dir[path])
      requires Valid(parse, State(dir, rows, offsets, past))
      requires fault.Some? ==> offset + fault.value <= |dir[path]| && ReadPart(parse, path, dir[path], offset + fault.value)
      modifies this
      ensures Valid(parse, State(dir, rows, offsets, past))
      ensures Step(parse, State(dir, old(rows), old(offsets), past), State(dir, rows, offsets, past))
      ensures old(rows) <= rows <= old(rows) + FullScan(parse, dir)
      ensures ok ==> EventSet(Scan(parse, path, dir[path], 0)) <= rows
      ensures forall q :: q != path ==> OffsetOf(offsets, q) == OffsetOf(old(offsets), q)
    {
      hide Valid, FullScan, Scan, IsAuditLog, Advances, ReadPart, Step, FileDone, FileCut, StartOf;
      ghost var before := State(dir, rows, offsets, past);
      var content := dir[path];
      var newOffset;
      newOffset, ok := SyncFile(path, content, offset, fault);
      ghost var after := State(dir, rows, offsets, past);
      if !ok {
        WholeFileIsReadPart(parse, path, content);
        CutIsStep(parse, before, after, path, if fault.Some? then offset + fault.value else |content|);
        FileCutKeepsValid(parse, before, after, path);
        return;
      }
      if newOffset != offset {
        ok := SaveOffset(path, newOffset);
      }
      after := State(dir, rows, offsets, past);
      DoneIsStep(parse, before, after, path, newOffset);
      FileDoneKeepsValid(parse, before, after, path);
    }

    /**
     A pass over the directory.  `faults` are the read errors met on the way.  However it ends,
     the store stays sound.  When it ends without error it has added exactly the full scan, files
     that were cut short included; and it holds nothing else unless a file was cut short before.
     */
    method SyncDir(dir: map<string, string>, names: seq<string>, faults: map<string, nat>, ghost past: set<Event>)
      returns (ok: bool, ghost run: seq<State>)
      requires forall p :: p in names <==> p in dir
      requires forall i, j :: 0 <= i < j < |names| ==> names[i] != names[j]
      requires Valid(parse, State(dir, rows, offsets, past)) && SafeFaults(parse, dir, offsets, faults)
      modifies this
      ensures Valid(parse, State(dir, rows, offsets, past))
      ensures old(rows) <= rows <= old(rows) + FullScan(parse, dir)
      ensures ok ==> rows == old(rows) + FullScan(parse, dir)
      ensures ok && past == {} ==> rows == FullScan(parse, dir)
      ensures run != [] && run[0] == State(dir, old(rows), old(offsets), past)
      ensures run[|run| - 1] == State(dir, rows, offsets, past) && Steps(parse, run)
    {
      hide Valid, FullScan, Scan, IsAuditLog, Advances, ReadPart, Steps, Step, SafeFaults;
      run := [State(dir, rows, offsets, past)];
      StepsStart(parse, run[0]);
      ok := *;
      if !ok {
        return;
      }
      var loaded := offsets;
      for i := 0 to |names|
        invariant Valid(parse, State(dir, rows, offsets, past))
        invariant run != [] && run[0] == State(dir, old(rows), old(offsets), past)
        invariant run[|run| - 1] == State(dir, rows, offsets, past) && Steps(parse, run)
        invariant old(rows) <= rows <= old(rows) + FullScan(parse, dir)
        invariant forall j :: i <= j < |names| ==> OffsetOf(offsets, names[j]) == OffsetOf(loaded, names[j])
        invariant forall j :: 0 <= j < i && IsAuditLog(names[j]) ==>
                    EventSet(Scan(parse, names[j], dir[names[j]], 0)) <= rows
      {
        var path := names[i];
        if !IsAuditLog(path) {
          continue;
        }
        var content := dir[path];
        var offset := OffsetOf(loaded, path);
        if offset > |content| {
          offset := 0;
        }
        assert offset == StartOf(offsets, path, content) == StartOf(old(offsets), path, content);
        FaultIsSafe(parse, dir, old(offsets), faults, path);
        if offset == |content| {
          AllRead(parse, State(dir, rows, offsets, past), path);
          continue;
        }
        ok := SyncOne(dir, path, offset, if path in faults then Some(faults[path]) else None, past);
        StepsAppend(parse, run, State(dir, rows, offsets, past));
        run := run + [State(dir, rows, offsets, past)];
        if !ok {
          return;
        }
      }
      EverythingStored(parse, State(dir, rows, offsets, past), names);
      if past == {} {
        OnlyScanned(parse, State(dir, rows, offsets, past));
      }
    }
  }

  lemma OnlyScanned(parse: Parser, s: State)
    requires Valid(parse, s) && s.past == {}
    ensures s.rows <= FullScan(parse, s.dir)
  {
    hide FullScan, Tracked;
  }
}
