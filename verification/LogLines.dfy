/**
 Audit log files as text, the lines a buffered reader delivers from an offset, and the full scan
 of a file: the specification every incremental ingestion loop is measured against.
 */
module LogLines {
  import opened Text

  datatype Event = Event(
    id: string, timestamp: int, eventType: string, username: string,
    sourceIP: string, targetHost: string, details: string, sessionID: string)

  /** A record parser: path, absolute offset of the line, trimmed line. */
  type Parser = (string, nat, string) -> Option<Event>

  // ----- lines -----

  /** Where the line that starts at `o` ends: behind its newline, or at the end of the text. */
  function LineEnd(c: string, o: nat): (e: nat)
    requires o <= |c|
    ensures o <= e <= |c| && (o < |c| ==> o < e)
    ensures forall k :: o <= k < e - 1 ==> c[k] != '\n'
    ensures e < |c| ==> c[e - 1] == '\n'
    decreases |c| - o
  {
    if o == |c| then o else if c[o] == '\n' then o + 1 else LineEnd(c, o + 1)
  }

  /** Where the last, unterminated line starts; the end of the text when there is none. */
  function TailStart(c: string): (s: nat)
    ensures s <= |c| && (s > 0 ==> c[s - 1] == '\n')
    ensures forall k :: s <= k < |c| ==> c[k] != '\n'
  {
    if c == [] || c[|c| - 1] == '\n' then |c| else TailStart(c[..|c| - 1])
  }

  lemma LineEndIs(c: string, o: nat, e: nat)
    requires o < e <= |c|
    requires forall k :: o <= k < e - 1 ==> c[k] != '\n'
    requires e == |c| || c[e - 1] == '\n'
    ensures LineEnd(c, o) == e
  {
    hide LineEnd;
    var f := LineEnd(c, o);
    assert f != e ==> f - 1 < e - 1 || e - 1 < f - 1;
  }

  lemma TailStartIs(c: string, s: nat)
    requires s <= |c| && (s > 0 ==> c[s - 1] == '\n')
    requires forall k :: s <= k < |c| ==> c[k] != '\n'
    ensures TailStart(c) == s
  {
    hide TailStart;
  }

  lemma LineEndInPrefix(c: string, k: nat, o: nat)
    requires o <= k <= |c|
    ensures LineEnd(c[..k], o) == if LineEnd(c, o) <= k then LineEnd(c, o) else k
  {
    var e := LineEnd(c, o);
    if o < k {
      LineEndIs(c[..k], o, if e <= k then e else k);
    }
  }

  // ----- records -----

  /** The record of one line, if it has one: none for blank lines and lines that do not parse. */
  function LineEvents(parse: Parser, path: string, o: nat, line: string): (r: seq<Event>)
    ensures |r| <= 1
  {
    var trimmed := Trim(line);
    if trimmed == [] then [] else
      match parse(path, o, trimmed)
      case None => []
      case Some(e) => [e]
  }

  /** The records of all lines from an offset on, in file order. */
  function Scan(parse: Parser, path: string, c: string, o: nat): (r: seq<Event>)
    requires o <= |c|
    decreases |c| - o
  {
    if o == |c| then [] else
      var e := LineEnd(c, o);
      LineEvents(parse, path, o, c[o..e]) + Scan(parse, path, c, e)
  }

  function EventSet(s: seq<Event>): (r: set<Event>) {
    set e | e in s
  }

  lemma EventSetConcat(a: seq<Event>, b: seq<Event>)
    ensures EventSet(a + b) == EventSet(a) + EventSet(b)
  {
  }

  /** The plain reader: one pass over the whole file with a running offset. */
  method ReadAuditEvents(parse: Parser, path: string, c: string) returns (events: seq<Event>)
    ensures events == Scan(parse, path, c, 0)
  {
    hide LineEvents, Scan, LineEnd;
    events := [];
    var currentOffset: nat := 0;
    while true
      invariant currentOffset <= |c|
      invariant events + Scan(parse, path, c, currentOffset) == Scan(parse, path, c, 0)
      decreases |c| - currentOffset
    {
      var lineOffset := currentOffset;
      currentOffset := LineEnd(c, lineOffset);
      var line := c[lineOffset..currentOffset];
      if lineOffset < |c| {
        ReadOne(parse, path, c, lineOffset, events);
      } else {
        BlankLine(parse, path, lineOffset, line);
      }
      events := events + LineEvents(parse, path, lineOffset, line);
      if line == [] || line[|line| - 1] != '\n' {
        break;
      }
    }
    NothingLeft(parse, path, c);
    assert events + [] == events;
  }

  // ----- the records, line by line -----

  /** The text between s and e is one line, without its newline. */
  ghost predicate IsLine(c: string, s: int, e: int) {
    && 0 <= s <= e <= |c| && (s == 0 || c[s - 1] == '\n') && (e == |c| || c[e] == '\n')
    && forall k :: s <= k < e ==> c[k] != '\n'
  }

  /** The line holds the record. */
  ghost predicate Holds(parse: Parser, path: string, c: string, s: int, e: int, x: Event) {
    IsLine(c, s, e) && Trim(c[s..e]) != "" && parse(path, s, Trim(c[s..e])) == Some(x)
  }

  lemma TrimNewline(s: string)
    ensures Trim(s + "\n") == Trim(s)
  {
    hide Trim, TrimLeft, TrimRight;
    var left, right := TrimParts(s);
    assert s + "\n" == left + Trim(s) + (right + "\n");
    TrimUnique(left, Trim(s), right + "\n");
  }

  lemma LineHolds(parse: Parser, path: string, c: string, o: nat, x: Event)
    requires o < |c| && (o == 0 || c[o - 1] == '\n')
    ensures x in LineEvents(parse, path, o, c[o..LineEnd(c, o)]) <==> exists e :: Holds(parse, path, c, o, e, x)
  {
    hide Trim, LineEnd;
    var f := LineEnd(c, o);
    var e := if c[f - 1] == '\n' then f - 1 else f;
    if e < f {
      assert c[o..f] == c[o..e] + "\n";
      TrimNewline(c[o..e]);
    }
    assert IsLine(c, o, e);
    assert forall e' :: IsLine(c, o, e') ==> e' == e;
    assert Holds(parse, path, c, o, e, x) <==> x in LineEvents(parse, path, o, c[o..f]);
  }

  lemma {:induction false} RecordsFrom(parse: Parser, path: string, c: string, o: nat, x: Event)
    requires o <= |c| && (o == 0 || c[o - 1] == '\n' || o == |c|)
    ensures x in Scan(parse, path, c, o) <==> exists s, e :: o <= s < |c| && Holds(parse, path, c, s, e, x)
    decreases |c| - o
  {
    hide Holds, LineEvents, LineEnd;
    if o < |c| {
      var f := LineEnd(c, o);
      RecordsFrom(parse, path, c, f, x);
      LineHolds(parse, path, c, o, x);
      forall s, e | o < s < f && Holds(parse, path, c, s, e, x)
        ensures false
      {
        LineStarts(parse, path, c, s, e, x);
      }
    }
  }

  lemma LineStarts(parse: Parser, path: string, c: string, s: int, e: int, x: Event)
    requires Holds(parse, path, c, s, e, x)
    ensures IsLine(c, s, e)
  {
  }

  /**
   The records of a file are those of its lines: each one that is not blank is parsed as it stands
   between its white space, with the place where it starts.
   */
  lemma RecordsAre(parse: Parser, path: string, c: string, x: Event)
    ensures x in Scan(parse, path, c, 0) <==> exists s, e :: Holds(parse, path, c, s, e, x)
  {
    hide Holds, Scan;
    RecordsFrom(parse, path, c, 0, x);
    forall s, e | Holds(parse, path, c, s, e, x)
      ensures 0 <= s < |c|
    {
      NotAtEnd(parse, path, c, s, e, x);
    }
  }

  lemma NotAtEnd(parse: Parser, path: string, c: string, s: int, e: int, x: Event)
    requires Holds(parse, path, c, s, e, x)
    ensures 0 <= s < |c|
  {
    BlankIffAllSpace(c[s..e]);
  }

  lemma NothingLeft(parse: Parser, path: string, c: string)
    ensures Scan(parse, path, c, |c|) == []
  {
  }

  lemma BlankLine(parse: Parser, path: string, o: nat, line: string)
    requires line == []
    ensures LineEvents(parse, path, o, line) == []
  {
    BlankIffAllSpace(line);
  }

  lemma ReadOne(parse: Parser, path: string, c: string, o: nat, events: seq<Event>)
    requires o < |c|
    ensures events + Scan(parse, path, c, o)
         == (events + LineEvents(parse, path, o, c[o..LineEnd(c, o)])) + Scan(parse, path, c, LineEnd(c, o))
  {
    hide *;
    ScanHead(parse, path, c, o);
    var line, rest := LineEvents(parse, path, o, c[o..LineEnd(c, o)]), Scan(parse, path, c, LineEnd(c, o));
    assert events + (line + rest) == (events + line) + rest;
  }

  // ----- cutting a scan -----

  /** A scan can be cut at the start of any line. */
  lemma {:induction false} ScanCut(parse: Parser, path: string, c: string, o: nat, k: nat)
    requires o <= k <= |c| && (k > o ==> c[k - 1] == '\n')
    ensures Scan(parse, path, c, o) == Scan(parse, path, c[..k], o) + Scan(parse, path, c, k)
    decreases k - o
  {
    hide LineEvents;
    if o < k {
      var e := LineEnd(c, o);
      LineEndInPrefix(c, k, o);
      assert e <= k;
      assert c[..k][o..e] == c[o..e];
      ScanCut(parse, path, c, e, k);
    }
  }

  /** The last line apart from the others. */
  lemma ScanTail(parse: Parser, path: string, c: string, o: nat)
    requires o <= TailStart(c)
    ensures var s := TailStart(c);
      Scan(parse, path, c, o) == Scan(parse, path, c[..s], o) + LineEvents(parse, path, s, c[s..])
  {
    hide Scan, LineEvents, LineEnd, TailStart, Trim;
    var s := TailStart(c);
    ScanCut(parse, path, c, o, s);
    NothingLeft(parse, path, c);
    if s < |c| {
      LineEndIs(c, s, |c|);
      ScanHead(parse, path, c, s);
      assert c[s..|c|] == c[s..];
      assert LineEvents(parse, path, s, c[s..]) + [] == LineEvents(parse, path, s, c[s..]);
    } else {
      BlankLine(parse, path, s, c[s..]);
    }
  }

  /** A record of a scan sits on a line that starts at or behind the offset. */
  lemma {:induction false} ScanOrigin(parse: Parser, path: string, c: string, o: nat, e: Event) returns (s: nat)
    requires o <= |c| && (o > 0 ==> c[o - 1] == '\n') && e in Scan(parse, path, c, o)
    ensures o <= s < |c| && (s > 0 ==> c[s - 1] == '\n')
    ensures LineEvents(parse, path, s, c[s..LineEnd(c, s)]) == [e]
    decreases |c| - o
  {
    hide LineEvents;
    var n := LineEnd(c, o);
    var first := LineEvents(parse, path, o, c[o..n]);
    if e in first {
      s := o;
      assert first == [e];
    } else {
      assert e in Scan(parse, path, c, n);
      s := ScanOrigin(parse, path, c, n, e);
    }
  }

  // ----- growth -----

  /**
   The file only grows, and a last line that already holds a record is only extended by white
   space up to its newline.
   */
  ghost predicate SafeGrowth(parse: Parser, path: string, c: string, d: string) {
    && |c| <= |d| && d[..|c|] == c
    && var s := TailStart(c);
       LineEvents(parse, path, s, c[s..]) != [] ==> Trim(d[s..LineEnd(d, s)]) == Trim(c[s..])
  }

  /** Equal trimmed text at the same place is the same record. */
  lemma LineEventsByTrim(parse: Parser, path: string, o: nat, a: string, b: string)
    requires Trim(a) == Trim(b)
    ensures LineEvents(parse, path, o, a) == LineEvents(parse, path, o, b)
  {
  }

  lemma GrownLine(c: string, d: string, s: nat)
    requires |c| <= |d| && d[..|c|] == c && s == TailStart(c)
    ensures s <= |d| && c[..s] == d[..s] && (s > 0 ==> d[s - 1] == '\n')
    ensures LineEnd(d, s) >= |c|
  {
    hide LineEnd, TailStart;
    assert forall k :: 0 <= k < |c| ==> d[..|c|][k] == d[k];
    assert c[..s] == d[..s];
  }

  lemma ScanGrows(parse: Parser, path: string, c: string, d: string)
    requires SafeGrowth(parse, path, c, d)
    ensures EventSet(Scan(parse, path, c, 0)) <= EventSet(Scan(parse, path, d, 0))
  {
    hide Scan, LineEvents, LineEnd, TailStart, Trim;
    var s := TailStart(c);
    ScanTail(parse, path, c, 0);
    GrownLine(c, d, s);
    ScanCut(parse, path, d, 0, s);
    if LineEvents(parse, path, s, c[s..]) != [] {
      LineEventsByTrim(parse, path, s, c[s..], d[s..LineEnd(d, s)]);
      NothingAtEnd(parse, path, s, c);
      ScanHead(parse, path, d, s);
    }
  }

  lemma NothingAtEnd(parse: Parser, path: string, s: nat, c: string)
    requires s <= |c| && LineEvents(parse, path, s, c[s..]) != []
    ensures s < |c|
  {
    BlankIffAllSpace(c[s..]);
  }

  lemma ScanHead(parse: Parser, path: string, c: string, o: nat)
    requires o < |c|
    ensures Scan(parse, path, c, o)
         == LineEvents(parse, path, o, c[o..LineEnd(c, o)]) + Scan(parse, path, c, LineEnd(c, o))
  {
  }

  /** Every record has its own identity: a record tells the offset and text it was read from. */
  ghost predicate OwnIdentity(parse: Parser, path: string) {
    forall o, p, a, b :: parse(path, o, a).Some? && parse(path, o, a) == parse(path, p, b) ==> o == p && a == b
  }

  /** The growth condition is exact: without it the old scan holds a record the new one lacks. */
  lemma ScanGrowsIffSafe(parse: Parser, path: string, c: string, d: string)
    requires |c| <= |d| && d[..|c|] == c && OwnIdentity(parse, path)
    ensures EventSet(Scan(parse, path, c, 0)) <= EventSet(Scan(parse, path, d, 0)) <==> SafeGrowth(parse, path, c, d)
  {
    if SafeGrowth(parse, path, c, d) {
      ScanGrows(parse, path, c, d);
    } else {
      var s := TailStart(c);
      var tail := LineEvents(parse, path, s, c[s..]);
      var e := tail[0];
      ScanTail(parse, path, c, 0);
      assert e in Scan(parse, path, c, 0);
      if e in Scan(parse, path, d, 0) {
        var t := ScanOrigin(parse, path, d, 0, e);
        SameRecord(parse, path, s, c[s..], t, d[t..LineEnd(d, t)], e);
        assert false;
      }
      assert e in EventSet(Scan(parse, path, c, 0));
    }
  }

  lemma SameRecord(parse: Parser, path: string, o: nat, a: string, p: nat, b: string, e: Event)
    requires OwnIdentity(parse, path)
    requires LineEvents(parse, path, o, a) == [e] && LineEvents(parse, path, p, b) == [e]
    ensures o == p && Trim(a) == Trim(b)
  {
  }

  // ----- resuming -----

  /**
   An offset from which a reader may go on: the start of a line, or a place inside a line whose
   record is complete before it and which is followed by white space only.
   */
  ghost predicate Resumable(parse: Parser, path: string, c: string, o: nat) {
    o <= |c| &&
    var s := TailStart(c[..o]);
    s == o || (LineEvents(parse, path, s, c[s..o]) != [] && Trim(c[s..LineEnd(c, s)]) == Trim(c[s..o]))
  }

  /** What was read before a resumable offset and what is read from it make the full scan. */
  lemma ResumeScan(parse: Parser, path: string, c: string, o: nat)
    requires Resumable(parse, path, c, o)
    ensures Scan(parse, path, c, 0) == Scan(parse, path, c[..o], 0) + Scan(parse, path, c, o)
  {
    hide Scan, LineEvents, LineEnd, TailStart, Trim;
    var s := TailStart(c[..o]);
    if s == o {
      ScanCut(parse, path, c, 0, o);
    } else {
      var before := c[..o];
      assert before[..s] == c[..s] && before[s..] == c[s..o];
      ScanTail(parse, path, before, 0);
      ScanCut(parse, path, c, 0, s);
      ScanHead(parse, path, c, s);
      LineEventsByTrim(parse, path, s, c[s..o], c[s..LineEnd(c, s)]);
      RestIsBlank(parse, path, c, s, o);
    }
  }

  lemma RestIsBlank(parse: Parser, path: string, c: string, s: nat, o: nat)
    requires s < o <= |c| && s == TailStart(c[..o])
    requires LineEvents(parse, path, s, c[s..o]) != [] && Trim(c[s..LineEnd(c, s)]) == Trim(c[s..o])
    ensures Scan(parse, path, c, o) == Scan(parse, path, c, LineEnd(c, s))
    ensures LineEnd(c, s) == LineEnd(c, o) && LineEvents(parse, path, o, c[o..LineEnd(c, o)]) == []
  {
    hide LineEnd, TailStart, Trim;
    var e := LineEnd(c, s);
    assert forall k :: s <= k < o ==> c[k] != '\n' by {
      assert forall k :: s <= k < o ==> c[..o][k] != '\n';
    }
    assert o <= e;
    if o < e {
      LineEndIs(c, o, e);
      assert c[s..e] == c[s..o] + c[o..e];
      TrimExtends(c[s..o], c[o..e]);
      BlankIffAllSpace(c[o..e]);
    } else {
      assert o == |c|;
      BlankIffAllSpace(c[o..LineEnd(c, o)]);
    }
  }

  /** A resumable offset stays one while the file grows. */
  lemma ResumableGrows(parse: Parser, path: string, c: string, d: string, o: nat)
    requires SafeGrowth(parse, path, c, d) && Resumable(parse, path, c, o)
    ensures Resumable(parse, path, d, o) && d[..o] == c[..o]
  {
    hide LineEvents, LineEnd, TailStart, Trim;
    var s := TailStart(c[..o]);
    assert d[..o] == c[..o];
    if s < o {
      assert d[s..o] == c[s..o];
      var e := LineEnd(c, s);
      if c[e - 1] == '\n' {
        assert forall k :: 0 <= k < |c| ==> d[k] == d[..|c|][k] == c[k];
        LineEndIs(d, s, e);
        assert d[s..e] == c[s..e];
      } else {
        TailStartIs(c, s);
        assert c[s..e] == c[s..];
        LineEventsByTrim(parse, path, s, c[s..], c[s..o]);
      }
    }
  }

  lemma NoOffsetYet(parse: Parser, p: string, c: string)
    ensures Resumable(parse, p, c, 0) && EventSet(Scan(parse, p, c[..0], 0)) == {}
  {
    assert c[..0] == [];
  }

  lemma ExtendScan(parse: Parser, path: string, d: string, o: nat, m: nat)
    requires o <= m <= |d| && (m == o || d[m - 1] == '\n')
    ensures Scan(parse, path, d[..LineEnd(d, m)], o)
         == Scan(parse, path, d[..m], o) + LineEvents(parse, path, m, d[m..LineEnd(d, m)])
  {
    hide Scan, LineEvents, LineEnd;
    var e := LineEnd(d, m);
    var f := d[..e];
    ScanCut(parse, path, f, o, m);
    assert f[..m] == d[..m];
    NothingLeft(parse, path, f);
    if m < e {
      LineEndInPrefix(d, e, m);
      ScanHead(parse, path, f, m);
      assert f[m..e] == d[m..e];
    } else {
      BlankLine(parse, path, m, d[m..e]);
    }
  }

  // ----- whole lines -----

  ghost predicate WholeLines(c: string) {
    c == [] || c[|c| - 1] == '\n'
  }

  ghost predicate LineStart(c: string, o: nat) {
    o <= |c| && (o == 0 || c[o - 1] == '\n')
  }

  ghost predicate WholeGrowth(c: string, d: string) {
    |c| <= |d| && d[..|c|] == c && WholeLines(c) && WholeLines(d)
  }

  lemma WholeGrowthIsSafe(parse: Parser, p: string, c: string, d: string)
    requires WholeGrowth(c, d)
    ensures SafeGrowth(parse, p, c, d)
  {
    hide LineEvents, LineEnd;
    BlankLine(parse, p, |c|, c[|c|..]);
  }

  lemma LineStartResumable(parse: Parser, p: string, c: string, o: nat)
    requires LineStart(c, o)
    ensures Resumable(parse, p, c, o)
  {
    TailStartIs(c[..o], o);
  }

  lemma PrefixOfScan(parse: Parser, path: string, data: string, offset: nat, k: nat)
    requires offset <= k <= |data| && (k == |data| || k == offset || data[k - 1] == '\n')
    ensures EventSet(Scan(parse, path, data[..k], offset)) <= EventSet(Scan(parse, path, data, offset))
  {
    hide Scan;
    if k < |data| {
      ScanCut(parse, path, data, offset, k);
      EventSetConcat(Scan(parse, path, data[..k], offset), Scan(parse, path, data, k));
    } else {
      assert data[..k] == data;
    }
  }

  // ----- readers that are cut short -----

  /** A reader that stopped at k stopped where stopping is as safe as growing from there. */
  ghost predicate ReadPart(parse: Parser, p: string, c: string, k: nat)
    requires k <= |c|
  {
    SafeGrowth(parse, p, c[..k], c)
  }

  lemma WholeFileIsReadPart(parse: Parser, p: string, c: string)
    ensures c[..|c|] == c && ReadPart(parse, p, c, |c|)
  {
    hide LineEvents, LineEnd, TailStart, Trim;
    var s := TailStart(c);
    assert c[..|c|] == c;
    if s < |c| {
      LineEndIs(c, s, |c|);
      assert c[s..|c|] == c[s..];
    } else {
      BlankLine(parse, p, s, c[s..]);
    }
  }

  /** Whatever a cut-short reader finds behind a resumable offset, the full scan finds. */
  lemma PartOfScan(parse: Parser, p: string, c: string, o: nat, k: nat)
    requires Resumable(parse, p, c, o) && o <= k <= |c| && SafeGrowth(parse, p, c[..k], c)
    ensures EventSet(Scan(parse, p, c[..k], o)) <= EventSet(Scan(parse, p, c, 0))
  {
    hide Scan, LineEvents, Trim, LineEnd, SafeGrowth;
    ResumableInPrefix(parse, p, c, o, k);
    ResumeScan(parse, p, c[..k], o);
    EventSetConcat(Scan(parse, p, c[..k][..o], 0), Scan(parse, p, c[..k], o));
    ScanGrows(parse, p, c[..k], c);
  }

  lemma ResumableInPrefix(parse: Parser, p: string, c: string, o: nat, k: nat)
    requires Resumable(parse, p, c, o) && o <= k <= |c|
    ensures Resumable(parse, p, c[..k], o)
  {
    hide LineEvents, LineEnd, TailStart, Trim;
    var d := c[..k];
    assert d[..o] == c[..o];
    var s := TailStart(c[..o]);
    if s < o {
      var e := LineEnd(c, s);
      RestIsBlank(parse, p, c, s, o);
      LineEndInPrefix(c, k, s);
      var f := LineEnd(d, s);
      assert o <= f <= k && f <= e && d[s..o] == c[s..o];
      BlankSlice(parse, p, c, s, o, f);
      assert d[s..f] == c[s..f];
      assert c[s..f] == c[s..o] + c[o..f];
    }
  }

  lemma BlankSlice(parse: Parser, p: string, c: string, s: nat, o: nat, f: nat)
    requires s < o <= |c| && o <= f <= LineEnd(c, s)
    requires LineEvents(parse, p, s, c[s..o]) != [] && Trim(c[s..LineEnd(c, s)]) == Trim(c[s..o])
    ensures Trim(c[s..o] + c[o..f]) == Trim(c[s..o])
  {
    hide LineEnd, Trim;
    var e := LineEnd(c, s);
    assert c[s..e] == c[s..o] + c[o..e];
    TrimExtends(c[s..o], c[o..e]);
    assert forall i :: 0 <= i < |c[o..f]| ==> c[o..f][i] == c[o..e][i];
    TrimExtends(c[s..o], c[o..f]);
  }

  // ----- directories -----

  predicate IsAuditLog(name: string) {
    HasSuffix(name, ".jsonl") || HasSuffix(name, ".log")
  }

  /** The files that are read: those whose names end in one of the two suffixes. */
  lemma AuditLogNames(name: string)
    ensures IsAuditLog(name) <==> exists stem: string :: name == stem + ".jsonl" || name == stem + ".log"
  {
    if |name| >= 6 && name[|name| - 6..] == ".jsonl" {
      assert name == name[..|name| - 6] + ".jsonl";
    }
    if |name| >= 4 && name[|name| - 4..] == ".log" {
      assert name == name[..|name| - 4] + ".log";
    }
    if stem: string :| name == stem + ".jsonl" || name == stem + ".log" {
      assert name == stem + ".jsonl" ==> name[|name| - 6..] == ".jsonl";
      assert name == stem + ".log" ==> name[|name| - 4..] == ".log";
    }
  }

  function OffsetOf(offsets: map<string, nat>, path: string): (o: nat) {
    if path in offsets then offsets[path] else 0
  }

  /** The offset lies past the end: the file was cut short after it was read. */
  predicate Shrunk(offsets: map<string, nat>, path: string, c: string) {
    OffsetOf(offsets, path) > |c|
  }

  /** Where a pass starts to read: at the offset, or at the beginning of a file that was cut short. */
  function StartOf(offsets: map<string, nat>, path: string, c: string): (o: nat)
    ensures o <= |c|
  {
    if Shrunk(offsets, path, c) then 0 else OffsetOf(offsets, path)
  }

  /** Read errors, in bytes after the start, each at a place where stopping is safe. */
  ghost predicate SafeFaults(parse: Parser, dir: map<string, string>, offsets: map<string, nat>, faults: map<string, nat>) {
    forall p :: p in faults && p in dir ==>
      var k := StartOf(offsets, p, dir[p]) + faults[p]; k <= |dir[p]| && ReadPart(parse, p, dir[p], k)
  }

  /** How far a reader gets that may meet a fault. */
  lemma FaultIsSafe(parse: Parser, dir: map<string, string>, offsets: map<string, nat>, faults: map<string, nat>, p: string)
    requires SafeFaults(parse, dir, offsets, faults) && p in dir
    ensures var c := dir[p];
      var k := if p in faults then StartOf(offsets, p, c) + faults[p] else |c|;
      StartOf(offsets, p, c) <= k <= |c| && ReadPart(parse, p, c, k)
  {
    hide ReadPart;
    WholeFileIsReadPart(parse, p, dir[p]);
  }

  /** How many records the batching stores collect before they send them. */
  const BULK_BATCH_SIZE := 200

  /** The events the plain reader finds in every log file of the directory. */
  ghost function FullScan(parse: Parser, dir: map<string, string>): (r: set<Event>) {
    set p, e | p in dir && IsAuditLog(p) && e in Scan(parse, p, dir[p], 0) :: e
  }

  lemma InFullScan(parse: Parser, dir: map<string, string>, p: string, s: seq<Event>)
    requires p in dir && IsAuditLog(p)
    requires EventSet(s) <= EventSet(Scan(parse, p, dir[p], 0))
    ensures EventSet(s) <= FullScan(parse, dir)
  {
    hide IsAuditLog, Scan;
    forall e | e in EventSet(s)
      ensures e in FullScan(parse, dir)
    {
      assert e in EventSet(Scan(parse, p, dir[p], 0));
    }
  }

  lemma OneFile(parse: Parser, path: string, d: string)
    requires IsAuditLog(path)
    ensures FullScan(parse, map[path := d]) == EventSet(Scan(parse, path, d, 0))
  {
    hide Scan, IsAuditLog;
    var dir := map[path := d];
    assert path in dir && dir[path] == d;
    assert forall p :: p in dir ==> p == path;
  }

  // ----- a concrete parser -----

  /** A parser that knows one record. */
  function OnlyBraces(path: string, o: nat, text: string): (r: Option<Event>) {
    if text == "{}" then Some(Event("braces", 0, "", "", "", "", "", "")) else None
  }
}
