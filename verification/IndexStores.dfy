/**
 The loops of the SQL store and of the search store, each a sequence of the steps that
 `IndexIngest` reasons about.
 */
module IndexStores {
  import opened Text
  import opened LogLines
  import opened IndexIngest

  // ----- scans of what has been read so far -----

  /** The table after the next line: the records before it, then its own. */
  lemma UpsertLine(parse: Parser, path: string, data: string, offset: nat, current: nat, rows: map<string, Event>)
    requires offset <= current <= |data| && (current == offset || data[current - 1] == '\n')
    ensures var e := LineEnd(data, current);
      && Upserted(rows, Scan(parse, path, data[..e], offset))
         == Upserted(Upserted(rows, Scan(parse, path, data[..current], offset)),
                     LineEvents(parse, path, current, data[current..e]))
      && Mixes(rows, Upserted(rows, Scan(parse, path, data[..e], offset)), Scan(parse, path, data, offset))
      && Mixes(rows, Upserted(rows, Scan(parse, path, data[..current], offset)), Scan(parse, path, data, offset))
  {
    hide Scan, LineEvents, LineEnd, Mixes, Upserted;
    var e := LineEnd(data, current);
    ExtendScan(parse, path, data, offset, current);
    UpsertedConcat(rows, Scan(parse, path, data[..current], offset), LineEvents(parse, path, current, data[current..e]));
    UpsertedMixes(rows, Scan(parse, path, data[..e], offset));
    PrefixOfScan(parse, path, data, offset, e);
    MixesMore(rows, Upserted(rows, Scan(parse, path, data[..e], offset)),
              Scan(parse, path, data[..e], offset), Scan(parse, path, data, offset));
    UpsertedMixes(rows, Scan(parse, path, data[..current], offset));
    PrefixOfScan(parse, path, data, offset, current);
    MixesMore(rows, Upserted(rows, Scan(parse, path, data[..current], offset)),
              Scan(parse, path, data[..current], offset), Scan(parse, path, data, offset));
  }

  lemma UpsertOne(rows: map<string, Event>, events: seq<Event>)
    requires |events| <= 1
    ensures Upserted(rows, events) == if events == [] then rows else rows[events[0].id := events[0]]
  {
    if events != [] {
      assert Upserted(rows, events) == Upserted(rows[events[0].id := events[0]], events[1..]);
      assert events[1..] == [];
    }
  }

  lemma CutIsStep(parse: Parser, s: State, t: State, p: string, k: nat)
    requires p in s.dir && IsAuditLog(p) && t.dir == s.dir && t.offsets == s.offsets && t.saved == s.saved && t.past == s.past
    requires StartOf(s.offsets, p, s.dir[p]) <= k <= |s.dir[p]| && ReadPart(parse, p, s.dir[p], k)
    requires Mixes(s.rows, t.rows, Scan(parse, p, s.dir[p][..k], StartOf(s.offsets, p, s.dir[p])))
    ensures FileCut(parse, s, t, p) && Step(parse, s, t)
  {
    hide Mixes, Scan, ReadPart, Grow, Truncate, Restart, FileDone;
  }

  class SqlAuditStore {
    const parse: Parser
    var rows: map<string, Event>
    var offsets: map<string, nat>

    constructor (parse: Parser)
      ensures this.parse == parse && rows == map[] && offsets == map[]
    {
      this.parse, this.rows, this.offsets := parse, map[], map[];
    }

    ghost function View(dir: map<string, string>, past: set<Event>): (s: State)
      reads this
    {
      State(dir, rows, offsets, offsets, past)
    }

    /** A failed statement may still have taken effect. */
    method UpsertEvent(event: Event) returns (ok: bool)
      modifies this`rows
      ensures rows == old(rows)[event.id := event] || (!ok && rows == old(rows))
    {
      ok := *;
      var taken: bool := *;
      if ok || taken {
        rows := rows[event.id := event];
      }
    }

    method SaveFileOffset(path: string, offset: nat) returns (ok: bool)
      modifies this`offsets
      ensures offsets == old(offsets)[path := offset] || (!ok && offsets == old(offsets))
    {
      ok := *;
      var taken: bool := *;
      if ok || taken {
        offsets := offsets[path := offset];
      }
    }

    /** Upserts line by line; an error gives back the offset it started from. */
    method SyncFile(path: string, content: string, offset: nat, fault: Option<nat>) returns (next: nat, ok: bool)
      requires offset <= |content|
      requires fault.Some? ==> offset + fault.value <= |content|
      modifies this`rows
      ensures ok ==> fault.None? && next == |content| && rows == Upserted(old(rows), Scan(parse, path, content, offset))
      ensures !ok ==> next == offset
      ensures !ok ==> var k := if fault.Some? then offset + fault.value else |content|;
                Mixes(old(rows), rows, Scan(parse, path, content[..k], offset))
    {
      hide Scan, LineEvents, LineEnd, Mixes, Upserted;
      var data := if fault.Some? then content[..offset + fault.value] else content;
      assert content[..|content|] == content;
      var currentOffset: nat := offset;
      NothingLeft(parse, path, data[..offset]);
      UpsertOne(rows, []);
      while true
        invariant offset <= currentOffset <= |data| && (currentOffset == offset || data[currentOffset - 1] == '\n')
        invariant rows == Upserted(old(rows), Scan(parse, path, data[..currentOffset], offset))
        decreases |data| - currentOffset
      {
        var lineOffset := currentOffset;
        currentOffset := LineEnd(data, lineOffset);
        var line := data[lineOffset..currentOffset];
        var events := LineEvents(parse, path, lineOffset, line);
        UpsertLine(parse, path, data, offset, lineOffset, old(rows));
        UpsertOne(rows, events);
        if |events| > 0 {
          ok := UpsertEvent(events[0]);
          if !ok {
            return offset, false;
          }
        }
        if line == [] || line[|line| - 1] != '\n' {
          assert currentOffset == |data| && data[..currentOffset] == data;
          if fault.Some? {
            return offset, false;
          }
          break;
        }
      }
      return currentOffset, true;
    }

    method SyncDir(dir: map<string, string>, names: seq<string>, faults: map<string, nat>, ghost past: set<Event>)
      returns (ok: bool, ghost run: seq<State>)
      requires forall p :: p in names <==> p in dir
      requires forall i, j :: 0 <= i < j < |names| ==> names[i] != names[j]
      requires Valid(parse, View(dir, past)) && SafeFaults(parse, dir, offsets, faults)
      modifies this
      ensures Valid(parse, View(dir, past))
      ensures old(rows).Keys <= rows.Keys <= old(rows).Keys + FullScanIds(parse, dir)
      ensures ok ==> rows.Keys == old(rows).Keys + FullScanIds(parse, dir)
      ensures ok && past == {} ==> rows.Keys == FullScanIds(parse, dir)
      ensures run != [] && run[0] == old(View(dir, past)) && run[|run| - 1] == View(dir, past) && Steps(parse, run)
    {
      hide Valid, FullScanIds, Scan, IsAuditLog, ReadPart, Steps, Upserted, Mixes, Step, SafeFaults;
      run := [View(dir, past)];
      StepsStart(parse, run[0]);
      ghost var start := offsets;
      for i := 0 to |names|
        invariant Valid(parse, View(dir, past))
        invariant old(rows).Keys <= rows.Keys <= old(rows).Keys + FullScanIds(parse, dir)
        invariant run != [] && run[0] == old(View(dir, past)) && run[|run| - 1] == View(dir, past) && Steps(parse, run)
        invariant forall j :: i <= j < |names| ==> OffsetOf(offsets, names[j]) == OffsetOf(start, names[j])
        invariant forall j :: 0 <= j < i && IsAuditLog(names[j]) ==>
                    Ids(Scan(parse, names[j], dir[names[j]], 0)) <= rows.Keys
      {
        var path := names[i];
        if !IsAuditLog(path) {
          continue;
        }
        ghost var before := View(dir, past);
        var content := dir[path];
        ok := *;
        if !ok {
          return;
        }
        var offset := OffsetOf(offsets, path);
        if |content| < offset {
          offset := 0;
        }
        assert offset == StartOf(offsets, path, content) == StartOf(start, path, content);
        FaultIsSafe(parse, dir, start, faults, path);
        var next;
        next, ok := SyncFile(path, content, offset, if path in faults then Some(faults[path]) else None);
        if !ok {
          CutIsStep(parse, before, View(dir, past), path, if path in faults then offset + faults[path] else |content|);
          FileCutKeepsValid(parse, before, View(dir, past), path);
          StepsAppend(parse, run, View(dir, past));
          run := run + [View(dir, past)];
          return;
        }
        ok := SaveFileOffset(path, next);
        assert FileDone(parse, before, View(dir, past), path);
        DoneIsStep(parse, before, View(dir, past), path);
        FileDoneKeepsValid(parse, before, View(dir, past), path);
        StepsAppend(parse, run, View(dir, past));
        run := run + [View(dir, past)];
        if !ok {
          return;
        }
      }
      ok := true;
      EverythingStored(parse, View(dir, past), names);
    }
  }

  lemma DoneIsStep(parse: Parser, s: State, t: State, p: string)
    requires FileDone(parse, s, t, p)
    ensures Step(parse, s, t)
  {
    hide FileDone, Grow, Truncate, Restart, FileCut;
  }

  class SearchAuditStore {
    const parse: Parser
    var rows: map<string, Event>
    var offsets: map<string, nat>
    var saved: map<string, nat>

    constructor (parse: Parser)
      ensures this.parse == parse && rows == map[] && offsets == map[] && saved == map[]
    {
      this.parse, this.rows, this.offsets, this.saved := parse, map[], map[], map[];
    }

    ghost function View(dir: map<string, string>, past: set<Event>): (s: State)
      reads this
    {
      State(dir, rows, offsets, saved, past)
    }

    /** A failed bulk request may have indexed some of its documents; callers learn no more. */
    method BulkIndex(docs: seq<Event>) returns (ok: bool)
      modifies this`rows
      ensures ok ==> rows == Upserted(old(rows), docs)
      ensures Mixes(old(rows), rows, docs)
    {
      ok := *;
      UpsertedMixes(rows, docs);
      if ok {
        rows := Upserted(rows, docs);
      } else {
        var some :| 0 <= some <= |docs|;
        var part := docs[..some];
        UpsertedMixes(rows, part);
        assert EventSet(part) <= EventSet(docs);
        MixesMore(rows, Upserted(rows, part), part, docs);
        rows := Upserted(rows, part);
      }
    }

    /** The offset in memory moves even when writing the state file fails. */
    method SaveFileOffset(path: string, offset: nat) returns (ok: bool)
      modifies this`offsets, this`saved
      ensures offsets == old(offsets)[path := offset]
      ensures saved == offsets || (!ok && saved == old(saved))
    {
      offsets := offsets[path := offset];
      ok := *;
      if ok {
        saved := offsets;
      }
    }

    method SyncFile(path: string, content: string, offset: nat, fault: Option<nat>) returns (next: nat, ok: bool)
      requires offset <= |content|
      requires fault.Some? ==> offset + fault.value <= |content|
      modifies this`rows
      ensures ok ==> fault.None? && next == |content| && rows == Upserted(old(rows), Scan(parse, path, content, offset))
      ensures !ok ==> next == offset
      ensures !ok ==> var k := if fault.Some? then offset + fault.value else |content|;
                Mixes(old(rows), rows, Scan(parse, path, content[..k], offset))
    {
      hide Scan, LineEvents, LineEnd, Mixes, Upserted;
      var data := if fault.Some? then content[..offset + fault.value] else content;
      assert content[..|content|] == content;
      var currentOffset: nat := offset;
      var docs: seq<Event> := [];
      ghost var indexed: seq<Event> := [];
      NothingLeft(parse, path, data[..offset]);
      UpsertOne(rows, []);
      while true
        invariant offset <= currentOffset <= |data| && (currentOffset == offset || data[currentOffset - 1] == '\n')
        invariant rows == Upserted(old(rows), indexed)
        invariant indexed + docs == Scan(parse, path, data[..currentOffset], offset)
        decreases |data| - currentOffset
      {
        var lineOffset := currentOffset;
        currentOffset := LineEnd(data, lineOffset);
        var line := data[lineOffset..currentOffset];
        var events := LineEvents(parse, path, lineOffset, line);
        ExtendScan(parse, path, data, offset, lineOffset);
        assert indexed + docs + events == indexed + (docs + events);
        docs := docs + events;
        BatchesMix(parse, path, data, offset, currentOffset, old(rows), indexed, docs);
        if |events| > 0 && |docs| >= BULK_BATCH_SIZE {
          ok := BulkIndex(docs);
          if !ok {
            HalfBatch(parse, path, data, offset, currentOffset, old(rows), rows, indexed, docs);
            return offset, false;
          }
          UpsertedConcat(old(rows), indexed, docs);
          indexed, docs := indexed + docs, [];
        }
        if line == [] || line[|line| - 1] != '\n' {
          assert currentOffset == |data| && data[..currentOffset] == data;
          if fault.Some? {
            BatchesMix(parse, path, data, offset, currentOffset, old(rows), indexed, docs);
            return offset, false;
          }
          break;
        }
      }
      if |docs| > 0 {
        ok := BulkIndex(docs);
        if !ok {
          HalfBatch(parse, path, data, offset, currentOffset, old(rows), rows, indexed, docs);
          return offset, false;
        }
        UpsertedConcat(old(rows), indexed, docs);
      } else {
        assert indexed + docs == indexed;
      }
      return currentOffset, true;
    }

    method SyncDir(dir: map<string, string>, names: seq<string>, faults: map<string, nat>, ghost past: set<Event>)
      returns (ok: bool, ghost run: seq<State>)
      requires forall p :: p in names <==> p in dir
      requires forall i, j :: 0 <= i < j < |names| ==> names[i] != names[j]
      requires Valid(parse, View(dir, past)) && SafeFaults(parse, dir, offsets, faults)
      modifies this
      ensures Valid(parse, View(dir, past))
      ensures old(rows).Keys <= rows.Keys <= old(rows).Keys + FullScanIds(parse, dir)
      ensures ok ==> rows.Keys == old(rows).Keys + FullScanIds(parse, dir)
      ensures ok && past == {} ==> rows.Keys == FullScanIds(parse, dir)
      ensures run != [] && run[0] == old(View(dir, past)) && run[|run| - 1] == View(dir, past) && Steps(parse, run)
    {
      hide Valid, FullScanIds, Scan, IsAuditLog, ReadPart, Steps, Upserted, Mixes, Step, SafeFaults;
      run := [View(dir, past)];
      StepsStart(parse, run[0]);
      ghost var start := offsets;
      for i := 0 to |names|
        invariant Valid(parse, View(dir, past))
        invariant old(rows).Keys <= rows.Keys <= old(rows).Keys + FullScanIds(parse, dir)
        invariant run != [] && run[0] == old(View(dir, past)) && run[|run| - 1] == View(dir, past) && Steps(parse, run)
        invariant forall j :: i <= j < |names| ==> OffsetOf(offsets, names[j]) == OffsetOf(start, names[j])
        invariant forall j :: 0 <= j < i && IsAuditLog(names[j]) ==>
                    Ids(Scan(parse, names[j], dir[names[j]], 0)) <= rows.Keys
      {
        var path := names[i];
        if !IsAuditLog(path) {
          continue;
        }
        ghost var before := View(dir, past);
        var content := dir[path];
        var offset := OffsetOf(offsets, path);
        if |content| < offset {
          offset := 0;
        }
        assert offset == StartOf(offsets, path, content) == StartOf(start, path, content);
        FaultIsSafe(parse, dir, start, faults, path);
        var next;
        next, ok := SyncFile(path, content, offset, if path in faults then Some(faults[path]) else None);
        if !ok {
          CutIsStep(parse, before, View(dir, past), path, if path in faults then offset + faults[path] else |content|);
          FileCutKeepsValid(parse, before, View(dir, past), path);
          StepsAppend(parse, run, View(dir, past));
          run := run + [View(dir, past)];
          return;
        }
        ok := SaveFileOffset(path, next);
        assert FileDone(parse, before, View(dir, past), path);
        DoneIsStep(parse, before, View(dir, past), path);
        FileDoneKeepsValid(parse, before, View(dir, past), path);
        StepsAppend(parse, run, View(dir, past));
        run := run + [View(dir, past)];
        if !ok {
          return;
        }
      }
      ok := true;
      EverythingStored(parse, View(dir, past), names);
    }
  }

  lemma BatchesMix(parse: Parser, path: string, data: string, offset: nat, k: nat,
                   rows: map<string, Event>, indexed: seq<Event>, docs: seq<Event>)
    requires offset <= k <= |data| && (k == |data| || k == offset || data[k - 1] == '\n')
    requires indexed + docs == Scan(parse, path, data[..k], offset)
    ensures EventSet(indexed + docs) <= EventSet(Scan(parse, path, data, offset))
    ensures Mixes(rows, Upserted(rows, indexed), Scan(parse, path, data, offset))
  {
    hide Scan, Mixes, Upserted;
    PrefixOfScan(parse, path, data, offset, k);
    EventSetConcat(indexed, docs);
    UpsertedMixes(rows, indexed);
    MixesMore(rows, Upserted(rows, indexed), indexed, Scan(parse, path, data, offset));
  }

  lemma HalfBatch(parse: Parser, path: string, data: string, offset: nat, k: nat,
                  rows: map<string, Event>, rows': map<string, Event>, indexed: seq<Event>, docs: seq<Event>)
    requires offset <= k <= |data| && (k == |data| || k == offset || data[k - 1] == '\n')
    requires indexed + docs == Scan(parse, path, data[..k], offset)
    requires Mixes(Upserted(rows, indexed), rows', docs)
    ensures Mixes(rows, rows', Scan(parse, path, data, offset))
  {
    hide Scan, Mixes, Upserted;
    PrefixOfScan(parse, path, data, offset, k);
    UpsertedMixes(rows, indexed);
    MixesTwice(rows, Upserted(rows, indexed), rows', indexed, docs);
    MixesMore(rows, rows', indexed + docs, Scan(parse, path, data, offset));
  }

  // ----- growth by less than a line, on a concrete log -----

  /** The first byte of a record read in one pass, the rest in the next: the record is lost. */
  lemma PartialLineIsLost() returns (c: string, d: string)
    ensures |c| <= |d| && d[..|c|] == c
    ensures Scan(OnlyBraces, "a.log", c, 0) == [] && Scan(OnlyBraces, "a.log", d, |c|) == []
    ensures |Scan(OnlyBraces, "a.log", d, 0)| == 1
  {
    hide Scan, LineEnd, Trim;
    c, d := "{", "{}\n";
    TrimUnique("", "{", "");
    TrimUnique("", "}", "\n");
    TrimUnique("", "{}", "\n");
    LineEndIs(c, 0, 1);
    LineEndIs(d, 0, 3);
    LineEndIs(d, 1, 3);
    assert c[0..1] == "" + "{" + "" && d[0..3] == "" + "{}" + "\n" && d[1..3] == "" + "}" + "\n";
    ScanHead(OnlyBraces, "a.log", c, 0);
    ScanHead(OnlyBraces, "a.log", d, 0);
    ScanHead(OnlyBraces, "a.log", d, 1);
    NothingLeft(OnlyBraces, "a.log", c);
    NothingLeft(OnlyBraces, "a.log", d);
  }
}
