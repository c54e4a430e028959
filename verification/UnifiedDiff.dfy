/**
 The text of a unified configuration diff.  The printer is the program's; the reader is the
 reference it is measured against: reading the printed text back gives the labels and the
 hunks, and the hunks alone turn the old lines into the new ones.
 */
module UnifiedDiff {
  import opened Text
  import opened ConfigDiff
  import opened ConfigHunks

  const NO_DIFFERENCES := "No differences.\n"
  const CONTEXT_LINES: nat := 3

  // ----- content to lines -----

  function CollapseCrLf(s: string): (r: string) {
    if s == [] then []
    else if |s| >= 2 && s[0] == '\r' && s[1] == '\n' then "\n" + CollapseCrLf(s[2..])
    else [s[0]] + CollapseCrLf(s[1..])
  }

  function TrimSuffix(s: string, suffix: string): (r: string) {
    if HasSuffix(s, suffix) then s[..|s| - |suffix|] else s
  }

  /** Content up to the line-ending convention and one final newline. */
  function Normalized(content: string): (r: string) {
    TrimSuffix(CollapseCrLf(content), "\n")
  }

  function DiffLines(content: string): (r: seq<string>) {
    if Normalized(content) == "" then [] else Split(Normalized(content), '\n')
  }

  /** The lines hold no newline and carry the whole normalized content. */
  lemma DiffLinesFaithful(content: string)
    ensures EachWithout(DiffLines(content), '\n')
    ensures Join(DiffLines(content), '\n') == Normalized(content)
  {
    JoinOfSplit(Normalized(content), '\n');
  }

  lemma SameLinesIffSameText(a: string, b: string)
    ensures DiffLines(a) == DiffLines(b) <==> Normalized(a) == Normalized(b)
  {
    DiffLinesFaithful(a);
    DiffLinesFaithful(b);
  }

  /** Lines, each with one of the two line endings. */
  ghost function Ended(lines: seq<string>, crlf: seq<bool>): (s: string)
    requires |crlf| == |lines|
  {
    if lines == [] then "" else lines[0] + (if crlf[0] then "\r\n" else "\n") + Ended(lines[1..], crlf[1..])
  }

  /** A line that does not run into its ending. */
  ghost predicate IsLine(line: string) {
    Without(line, '\n') && (line == "" || line[|line| - 1] != '\r')
  }

  ghost predicate AreLines(lines: seq<string>) {
    forall k :: 0 <= k < |lines| ==> IsLine(lines[k])
  }

  lemma {:induction false} CollapseLine(line: string, crlf: bool, x: string)
    requires IsLine(line)
    ensures CollapseCrLf(line + (if crlf then "\r\n" else "\n") + x) == line + "\n" + CollapseCrLf(x)
  {
    var ending := if crlf then "\r\n" else "\n";
    var s := line + ending + x;
    if line == "" {
      assert s[|ending|..] == x && s[..|ending|] == ending;
      assert s[0] == ending[0];
      assert crlf ==> s[1] == '\n';
    } else {
      var rest := line[1..] + ending + x;
      assert s[1..] == rest && s[0] == line[0];
      assert IsLine(line[1..]);
      CollapseLine(line[1..], crlf, x);
      assert |line| > 1 ==> s[1] == line[1];
      assert line == [line[0]] + line[1..];
    }
  }

  lemma {:induction false} CollapseEnd(line: string)
    requires IsLine(line)
    ensures CollapseCrLf(line) == line
  {
    if line != "" {
      assert IsLine(line[1..]);
      CollapseEnd(line[1..]);
      assert |line| > 1 ==> line[1] != '\n';
      assert line == [line[0]] + line[1..];
    }
  }

  lemma {:induction false} CollapseEnded(lines: seq<string>, crlf: seq<bool>, x: string)
    requires |crlf| == |lines| && AreLines(lines)
    ensures CollapseCrLf(Ended(lines, crlf) + x) == Terminated(lines) + CollapseCrLf(x)
  {
    hide IsLine, CollapseCrLf;
    if lines == [] {
      assert Ended(lines, crlf) + x == x;
    } else {
      var rest := Ended(lines[1..], crlf[1..]) + x;
      assert Ended(lines, crlf) + x == lines[0] + (if crlf[0] then "\r\n" else "\n") + rest;
      CollapseLine(lines[0], crlf[0], rest);
      CollapseEnded(lines[1..], crlf[1..], x);
      assert Terminated(lines) + CollapseCrLf(x) == lines[0] + "\n" + (Terminated(lines[1..]) + CollapseCrLf(x));
    }
  }

  lemma {:induction false} TerminatedIsJoined(lines: seq<string>, last: string)
    ensures Terminated(lines) + last == Join(lines + [last], '\n')
    decreases |lines|
  {
    if lines == [] {
      assert lines + [last] == [last];
    } else {
      TerminatedIsJoined(lines[1..], last);
      assert (lines + [last])[1..] == lines[1..] + [last];
      assert Terminated(lines) + last == lines[0] + "\n" + (Terminated(lines[1..]) + last);
    }
  }

  lemma JoinedIsLines(lines: seq<string>, last: string)
    requires AreLines(lines) && IsLine(last) && (lines != [] || last != "")
    ensures var s := Join(lines + [last], '\n'); s != "" && Split(s, '\n') == lines + [last]
  {
    hide Split;
    var all := lines + [last];
    assert EachWithout(all, '\n');
    SplitOfJoin(all, '\n');
    if lines != [] {
      JoinCons(lines[0], lines[1..] + [last], '\n');
      assert all == [lines[0]] + (lines[1..] + [last]);
    }
  }

  /** Whatever the line endings, and with or without one at the end, the lines are the lines. */
  lemma LinesOfContent(lines: seq<string>, crlf: seq<bool>, last: string, lastEnding: string)
    requires |crlf| == |lines| && AreLines(lines) && IsLine(last) && (lines != [] || last != "")
    requires lastEnding == "\n" || lastEnding == "\r\n" || (lastEnding == "" && last != "")
    ensures DiffLines(Ended(lines, crlf) + last + lastEnding) == lines + [last]
  {
    hide Split, CollapseCrLf, Ended, Terminated, Join, IsLine, AreLines;
    var content := Ended(lines, crlf) + last + lastEnding;
    assert content == Ended(lines, crlf) + (last + lastEnding);
    CollapseEnded(lines, crlf, last + lastEnding);
    TerminatedIsJoined(lines, last);
    JoinedIsLines(lines, last);
    var joined := Join(lines + [last], '\n');
    CollapseLast(last, lastEnding);
    if lastEnding == "" {
      NoNewlineAtEnd(Terminated(lines), last);
      assert last + "" == last;
    } else {
      assert Terminated(lines) + (last + "\n") == joined + "\n";
      var all := joined + "\n";
      assert all[|joined|..] == "\n" && all[..|joined|] == joined;
    }
  }

  /** A content of nothing but one line ending, or of nothing at all, has no lines. */
  lemma NoLinesInNothing()
    ensures DiffLines("") == DiffLines("\n") == DiffLines("\r\n") == []
  {
    hide CollapseCrLf, Split;
    assert IsLine("");
    NothingCollapsed();
    CollapseLine("", false, "");
    CollapseLine("", true, "");
    var a, b, c: string := "", "\n", "\r\n";
    assert "" + "\n" + "" == b && "" + "\r\n" + "" == c && a + "\n" + a == b;
    assert b[..0] == "" && b[0..] == b;
  }

  lemma CollapseLast(last: string, ending: string)
    requires IsLine(last) && (ending == "\n" || ending == "\r\n" || ending == "")
    ensures CollapseCrLf(last + ending) == last + if ending == "" then "" else "\n"
  {
    hide IsLine, CollapseCrLf;
    if ending == "" {
      CollapseEnd(last);
      assert last + "" == last;
    } else {
      CollapseLine(last, ending == "\r\n", "");
      NothingCollapsed();
      assert last + ending + "" == last + ending && last + "\n" + "" == last + "\n";
    }
  }

  lemma NothingCollapsed()
    ensures CollapseCrLf("") == ""
  {
  }

  lemma NoNewlineAtEnd(a: string, last: string)
    requires IsLine(last) && last != ""
    ensures TrimSuffix(a + last, "\n") == a + last
  {
    var s := a + last;
    assert s[|s| - 1] == last[|last| - 1];
    assert s[|s| - 1..] == [s[|s| - 1]];
  }

  // ----- printing -----

  function KindChar(k: Kind): (c: char) {
    match k case Context => ' ' case Removed => '-' case Added => '+'
  }

  function HeaderLine(h: Hunk): (s: string) {
    "@@ -" + Join([Join([Itoa(h.oldStart), Itoa(h.oldCount)], ','), "+" + Join([Itoa(h.newStart), Itoa(h.newCount)], ',')], ' ') + " @@"
  }

  function BodyText(b: seq<BodyLine>): (lines: seq<string>)
    ensures |lines| == |b|
  {
    if b == [] then [] else [[KindChar(b[0].kind)] + b[0].text] + BodyText(b[1..])
  }

  function HunkText(h: Hunk): (lines: seq<string>) {
    [HeaderLine(h)] + BodyText(h.body)
  }

  function HunksText(hunks: seq<Hunk>): (lines: seq<string>) {
    if hunks == [] then [] else HunkText(hunks[0]) + HunksText(hunks[1..])
  }

  // ----- reading -----

  datatype Unified = Unified(fromLabel: string, toLabel: string, hunks: seq<Hunk>)

  function ReadRange(s: string): (r: Option<(int, int)>) {
    var parts := Split(s, ',');
    if |parts| != 2 then None else
      match (ParseInt(parts[0]), ParseInt(parts[1]))
      case (Some(a), Some(b)) => Some((a, b))
      case _ => None
  }

  function ReadHeader(s: string): (r: Option<(int, int, int, int)>) {
    if !HasPrefix(s, "@@ -") || !HasSuffix(s, " @@") || |s| < 7 then None else
      var parts := Split(s[4..|s| - 3], ' ');
      if |parts| != 2 || !HasPrefix(parts[1], "+") then None else
        match (ReadRange(parts[0]), ReadRange(parts[1][1..]))
        case (Some((a, b)), Some((c, d))) => Some((a, b, c, d))
        case _ => None
  }

  predicate IsBodyText(s: string) {
    s != [] && (s[0] == ' ' || s[0] == '-' || s[0] == '+')
  }

  function ReadBody(lines: seq<string>): (r: (seq<BodyLine>, seq<string>))
    ensures |r.1| <= |lines|
  {
    if lines == [] || !IsBodyText(lines[0]) then ([], lines) else
      var kind := if lines[0][0] == ' ' then Context else if lines[0][0] == '-' then Removed else Added;
      var (body, rest) := ReadBody(lines[1..]);
      ([BodyLine(kind, lines[0][1..])] + body, rest)
  }

  function ReadHunks(lines: seq<string>): (r: Option<seq<Hunk>>)
    decreases |lines|
  {
    if lines == [] then Some([]) else
      match ReadHeader(lines[0])
      case None => None
      case Some((a, b, c, d)) =>
        var (body, rest) := ReadBody(lines[1..]);
        match ReadHunks(rest)
        case None => None
        case Some(hunks) => Some([Hunk(a, b, c, d, body)] + hunks)
  }

  function ReadUnified(text: string): (r: Option<Unified>) {
    var lines := Split(text, '\n');
    var n := |lines|;
    if n < 3 || lines[n - 1] != [] || !HasPrefix(lines[0], "--- ") || !HasPrefix(lines[1], "+++ ") then None else
      match ReadHunks(lines[2..n - 1])
      case None => None
      case Some(hunks) => Some(Unified(lines[0][4..], lines[1][4..], hunks))
  }

  // ----- the reader understands the printer -----

  lemma ItoaWithout(n: int, c: char)
    requires !IsDigit(c) && c != '-'
    ensures Without(Itoa(n), c)
  {
    ItoaIsPlain(n);
  }

  lemma ReadRangeOf(a: int, b: int)
    ensures ReadRange(Join([Itoa(a), Itoa(b)], ',')) == Some((a, b))
    ensures Without(Join([Itoa(a), Itoa(b)], ','), ' ') && Without(Join([Itoa(a), Itoa(b)], ','), '\n')
  {
    hide Itoa, ParseInt, Split, IsDigit;
    var parts := [Itoa(a), Itoa(b)];
    assert Join(parts, ',') == Itoa(a) + [','] + Itoa(b) by {
      assert parts[1..] == [Itoa(b)];
    }
    PlainSeparators();
    ItoaWithout(a, ',');
    ItoaWithout(b, ',');
    ItoaWithout(a, ' ');
    ItoaWithout(b, ' ');
    ItoaWithout(a, '\n');
    ItoaWithout(b, '\n');
    SplitOfJoin(parts, ',');
    ParseOfItoa(a);
    ParseOfItoa(b);
  }

  lemma PlainSeparators()
    ensures !IsDigit(',') && !IsDigit(' ') && !IsDigit('\n')
  {
  }

  lemma ReadHeaderOf(h: Hunk)
    ensures ReadHeader(HeaderLine(h)) == Some((h.oldStart, h.oldCount, h.newStart, h.newCount))
    ensures Without(HeaderLine(h), '\n')
  {
    hide Itoa, Split, Join, ReadRange;
    var x := Join([Itoa(h.oldStart), Itoa(h.oldCount)], ',');
    var y := Join([Itoa(h.newStart), Itoa(h.newCount)], ',');
    ReadRangeOf(h.oldStart, h.oldCount);
    ReadRangeOf(h.newStart, h.newCount);
    var parts := [x, "+" + y];
    assert EachWithout(parts, ' ');
    SplitOfJoin(parts, ' ');
    JoinTwo(x, "+" + y, ' ');
    var mid := Join(parts, ' ');
    var s := HeaderLine(h);
    assert s == "@@ -" + mid + " @@";
    assert s[..4] == "@@ -" && s[|s| - 3..] == " @@" && s[4..|s| - 3] == mid;
    assert ("+" + y)[1..] == y;
  }

  lemma JoinTwo(x: string, y: string, sep: char)
    ensures Join([x, y], sep) == x + [sep] + y
  {
    assert [x, y][1..] == [y];
  }

  lemma {:induction false} ReadBodyOf(b: seq<BodyLine>, rest: seq<string>)
    requires rest == [] || !IsBodyText(rest[0])
    ensures ReadBody(BodyText(b) + rest) == (b, rest)
  {
    if b == [] {
      assert BodyText(b) + rest == rest;
    } else {
      hide ReadBody, BodyText;
      ReadBodyOf(b[1..], rest);
      BodyTextCons(b, rest);
      ReadBodyCons(b[0], BodyText(b[1..]) + rest);
      assert b == [b[0]] + b[1..];
    }
  }

  lemma BodyTextCons(b: seq<BodyLine>, rest: seq<string>)
    requires b != []
    ensures BodyText(b) + rest == [[KindChar(b[0].kind)] + b[0].text] + (BodyText(b[1..]) + rest)
  {
    hide KindChar;
  }

  lemma ReadBodyCons(x: BodyLine, lines: seq<string>)
    ensures ReadBody([[KindChar(x.kind)] + x.text] + lines) == ([x] + ReadBody(lines).0, ReadBody(lines).1)
  {
    var line := [KindChar(x.kind)] + x.text;
    assert line[1..] == x.text;
    assert ([line] + lines)[1..] == lines;
  }

  lemma HeaderIsNoBody(h: Hunk)
    ensures !IsBodyText(HeaderLine(h))
  {
    hide Join;
    assert HeaderLine(h)[0] == '@';
  }

  lemma ReadOneHunk(h: Hunk, rest: seq<string>, hunks: seq<Hunk>)
    requires rest == [] || !IsBodyText(rest[0])
    requires ReadHunks(rest) == Some(hunks)
    ensures ReadHunks(HunkText(h) + rest) == Some([h] + hunks)
  {
    hide HeaderLine, ReadHeader, BodyText, ReadBody, IsBodyText;
    ReadHeaderOf(h);
    ReadBodyOf(h.body, rest);
    var lines := HunkText(h) + rest;
    assert lines[1..] == BodyText(h.body) + rest && lines[0] == HeaderLine(h);
  }

  lemma {:induction false} ReadHunksOf(hunks: seq<Hunk>)
    ensures ReadHunks(HunksText(hunks)) == Some(hunks)
    ensures HunksText(hunks) == [] || !IsBodyText(HunksText(hunks)[0])
  {
    hide HeaderLine, ReadHunks, BodyText, IsBodyText;
    if hunks == [] {
      NothingToRead();
    } else {
      ReadHunksOf(hunks[1..]);
      HeaderIsNoBody(hunks[0]);
      ReadOneHunk(hunks[0], HunksText(hunks[1..]), hunks[1..]);
      assert hunks == [hunks[0]] + hunks[1..];
    }
  }

  lemma NothingToRead()
    ensures ReadHunks([]) == Some([])
  {
  }

  function UnifiedLines(u: Unified): (lines: seq<string>) {
    ["--- " + u.fromLabel, "+++ " + u.toLabel] + HunksText(u.hunks)
  }

  ghost predicate BodiesWithout(hunks: seq<Hunk>, c: char) {
    forall k, l :: 0 <= k < |hunks| && 0 <= l < |hunks[k].body| ==> Without(hunks[k].body[l].text, c)
  }

  lemma {:induction false} BodyTextWithout(b: seq<BodyLine>)
    requires forall l :: 0 <= l < |b| ==> Without(b[l].text, '\n')
    ensures EachWithout(BodyText(b), '\n')
  {
    if b != [] {
      BodyTextWithout(b[1..]);
      assert Without(b[0].text, '\n');
      assert Without([KindChar(b[0].kind)] + b[0].text, '\n');
    }
  }

  lemma {:induction false} HunksTextWithout(hunks: seq<Hunk>)
    requires BodiesWithout(hunks, '\n')
    ensures EachWithout(HunksText(hunks), '\n')
  {
    if hunks != [] {
      ReadHeaderOf(hunks[0]);
      assert forall l :: 0 <= l < |hunks[0].body| ==> Without(hunks[0].body[l].text, '\n');
      BodyTextWithout(hunks[0].body);
      forall k, l | 0 <= k < |hunks[1..]| && 0 <= l < |hunks[1..][k].body|
        ensures Without(hunks[1..][k].body[l].text, '\n')
      {
        assert hunks[1..][k] == hunks[k + 1];
      }
      HunksTextWithout(hunks[1..]);
    }
  }

  /** Reading the printed text gives back the labels and the hunks. */
  lemma ReadUnifiedOf(u: Unified)
    requires BodiesWithout(u.hunks, '\n')
    requires Without(u.fromLabel, '\n') && Without(u.toLabel, '\n')
    ensures ReadUnified(Terminated(UnifiedLines(u))) == Some(u)
  {
    hide ReadHunks, HunksText, Split, Terminated;
    HunksTextWithout(u.hunks);
    ReadHunksOf(u.hunks);
    var lines := UnifiedLines(u);
    assert Without("--- " + u.fromLabel, '\n') && Without("+++ " + u.toLabel, '\n');
    assert EachWithout(lines, '\n');
    SplitOfTerminated(lines);
    var all := lines + [[]];
    assert all[2..|all| - 1] == HunksText(u.hunks);
    assert all[0] == "--- " + u.fromLabel && all[1] == "+++ " + u.toLabel;
    assert ("--- " + u.fromLabel)[4..] == u.fromLabel && ("+++ " + u.toLabel)[4..] == u.toLabel;
    assert ("--- " + u.fromLabel)[..4] == "--- " && ("+++ " + u.toLabel)[..4] == "+++ ";
  }

  // ----- the program -----

  method HasChanges(d: seq<DiffLine>) returns (r: bool)
    ensures r <==> Changes(d) > 0
  {
    for k := 0 to |d|
      invariant Changes(d) == Changes(d[k..])
    {
      assert d[k..][1..] == d[k + 1..];
      if d[k].kind != Context {
        return true;
      }
    }
    return false;
  }

  /** What a reader of the printed diff can rely on. */
  ghost predicate Rebuilds(text: string, fromLabel: string, toLabel: string, from: seq<string>, to: seq<string>) {
    exists hunks: seq<Hunk> ::
      && ReadUnified(text) == Some(Unified(fromLabel, toLabel, hunks))
      && ApplyHunks(from, 0, hunks) == Some(to)
      && (forall k :: 0 <= k < |hunks| ==>
            && NamesSlice(from, hunks[k].oldStart, hunks[k].oldCount, OldBody(hunks[k].body))
            && NamesSlice(to, hunks[k].newStart, hunks[k].newCount, NewBody(hunks[k].body)))
  }

  /** The text is the printing of the minimal script's hunks with three lines of context. */
  ghost predicate PrintsMinimalHunks(text: string, fromLabel: string, toLabel: string, from: seq<string>, to: seq<string>) {
    exists spans ::
      && IsHunkCover(spans, EditScript(from, to, 0, 0), 3)
      && text == Terminated(UnifiedLines(Unified(fromLabel, toLabel, HunksAt(EditScript(from, to, 0, 0), spans))))
  }

  /** That description leaves no choice. */
  lemma PrintedTextIsUnique(s: string, t: string, fromLabel: string, toLabel: string, from: seq<string>, to: seq<string>)
    requires PrintsMinimalHunks(s, fromLabel, toLabel, from, to) && PrintsMinimalHunks(t, fromLabel, toLabel, from, to)
    ensures s == t
  {
    hide UnifiedLines, Terminated, HunksAt, EditScript, NearChange, Covers;
    var d := EditScript(from, to, 0, 0);
    var a :| IsHunkCover(a, d, 3) && s == Terminated(UnifiedLines(Unified(fromLabel, toLabel, HunksAt(d, a))));
    var b :| IsHunkCover(b, d, 3) && t == Terminated(UnifiedLines(Unified(fromLabel, toLabel, HunksAt(d, b))));
    CoverDeterminesSpans(a, b, |d|);
  }

  lemma {:induction false} HunksAtIndex(d: seq<DiffLine>, spans: seq<Span>, k: nat)
    requires forall k :: 0 <= k < |spans| ==> 0 <= spans[k].first <= spans[k].last < |d|
    ensures |HunksAt(d, spans)| == |spans|
    ensures k < |spans| ==> HunksAt(d, spans)[k] == HunkAt(d, spans[k])
  {
    if spans != [] {
      HunksAtIndex(d, spans[1..], if k == 0 then 0 else k - 1);
    }
  }

  lemma {:induction false} BodyAt(d: seq<DiffLine>, l: nat)
    ensures |Body(d)| == |d|
    ensures l < |d| ==> Body(d)[l].text == d[l].text
  {
    if d != [] {
      BodyAt(d[1..], if l == 0 then 0 else l - 1);
    }
  }

  lemma {:induction false} ScriptTextWithout(d: seq<DiffLine>, c: char, k: nat)
    requires EachWithout(OldSide(d), c) && EachWithout(NewSide(d), c) && k < |d|
    ensures Without(d[k].text, c)
  {
    var old1, new1 := OldSide(d[1..]), NewSide(d[1..]);
    assert OldSide(d) == (if d[0].kind.Added? then [] else [d[0].text]) + old1;
    assert NewSide(d) == (if d[0].kind.Removed? then [] else [d[0].text]) + new1;
    if k == 0 {
      assert d[0].kind.Added? ==> Without(NewSide(d)[0], c);
      assert !d[0].kind.Added? ==> Without(OldSide(d)[0], c);
    } else {
      forall i | 0 <= i < |old1| ensures Without(old1[i], c) {
        assert old1[i] == OldSide(d)[i + if d[0].kind.Added? then 0 else 1];
      }
      forall i | 0 <= i < |new1| ensures Without(new1[i], c) {
        assert new1[i] == NewSide(d)[i + if d[0].kind.Removed? then 0 else 1];
      }
      ScriptTextWithout(d[1..], c, k - 1);
    }
  }

  lemma HunkBodiesWithout(d: seq<DiffLine>, spans: seq<Span>)
    requires forall k :: 0 <= k < |spans| ==> 0 <= spans[k].first <= spans[k].last < |d|
    requires EachWithout(OldSide(d), '\n') && EachWithout(NewSide(d), '\n')
    ensures BodiesWithout(HunksAt(d, spans), '\n')
  {
    hide Body, OldSide, NewSide, HunksAt;
    var hunks := HunksAt(d, spans);
    forall k, l | 0 <= k < |hunks| && 0 <= l < |hunks[k].body|
      ensures Without(hunks[k].body[l].text, '\n')
    {
      HunksAtIndex(d, spans, k);
      BodyAt(d[spans[k].first..spans[k].last + 1], l);
      ScriptTextWithout(d, '\n', spans[k].first + l);
    }
  }

  lemma PrintedRebuilds(fromLabel: string, toLabel: string, d: seq<DiffLine>, spans: seq<Span>)
    requires Numbered(d, 0, 0) && IsHunkCover(spans, d, CONTEXT_LINES)
    requires EachWithout(OldSide(d), '\n') && EachWithout(NewSide(d), '\n')
    requires Without(fromLabel, '\n') && Without(toLabel, '\n')
    ensures Rebuilds(Terminated(UnifiedLines(Unified(fromLabel, toLabel, HunksAt(d, spans)))),
                     fromLabel, toLabel, OldSide(d), NewSide(d))
  {
    hide OldSide, NewSide, HunksAt, HunkAt, ApplyHunks, ReadUnified, UnifiedLines, Terminated, NearChange, Covers, NamesSlice, OldBody, NewBody, Numbered;
    var hunks := HunksAt(d, spans);
    HunkBodiesWithout(d, spans);
    ReadUnifiedOf(Unified(fromLabel, toLabel, hunks));
    HunksRebuildNewText(d, spans, CONTEXT_LINES);
    forall k | 0 <= k < |hunks|
      ensures NamesSlice(OldSide(d), hunks[k].oldStart, hunks[k].oldCount, OldBody(hunks[k].body))
           && NamesSlice(NewSide(d), hunks[k].newStart, hunks[k].newCount, NewBody(hunks[k].body))
    {
      HunksAtIndex(d, spans, k);
      HeaderNamesSlices(d, spans[k]);
    }
  }

  lemma HunksTextAppend(hunks: seq<Hunk>, h: Hunk)
    ensures HunksText(hunks + [h]) == HunksText(hunks) + HunkText(h)
  {
    if hunks == [] {
      assert [] + [h] == [h] && HunksText([h]) == HunkText(h) + [];
    } else {
      assert (hunks + [h])[1..] == hunks[1..] + [h];
      HunksTextAppend(hunks[1..], h);
    }
  }

  lemma BodyStep(lines: seq<DiffLine>, k: nat)
    requires k < |lines|
    ensures Terminated(BodyText(Body(lines[k..])))
         == [KindChar(lines[k].kind)] + lines[k].text + "\n" + Terminated(BodyText(Body(lines[k + 1..])))
  {
    assert lines[k..][1..] == lines[k + 1..];
    assert Body(lines[k..])[1..] == Body(lines[k + 1..]);
  }

  /** Appends the lines of one hunk, each behind its marker. */
  method PrintBody(text: string, lines: seq<DiffLine>) returns (r: string)
    ensures r == text + Terminated(BodyText(Body(lines)))
  {
    hide Body, BodyText, Terminated;
    ghost var whole := text + Terminated(BodyText(Body(lines)));
    r := text;
    assert lines[0..] == lines;
    for k := 0 to |lines|
      invariant r + Terminated(BodyText(Body(lines[k..]))) == whole
    {
      BodyStep(lines, k);
      ghost var rest := Terminated(BodyText(Body(lines[k + 1..])));
      var line := [KindChar(lines[k].kind)] + lines[k].text + "\n";
      assert r + (line + rest) == (r + line) + rest;
      r := r + line;
    }
    assert lines[|lines|..] == [];
    NoBody();
    assert r + [] == r;
  }

  lemma NoBody()
    ensures Terminated(BodyText(Body([]))) == []
  {
  }

  /** Appends the header and the body of one hunk to the text written so far. */
  method PrintHunk(text: string, lines: seq<DiffLine>) returns (r: string)
    requires lines != []
    ensures r == text + Terminated(HunkText(Hunk(Max(lines[0].oldNum, 1), |OldSide(lines)|,
                                                 Max(lines[0].newNum, 1), |NewSide(lines)|, Body(lines))))
  {
    hide Body, BodyText, Terminated, OldSide, NewSide;
    var oldStart, newStart, oldCount, newCount := DiffRange(lines);
    var header := HeaderLine(Hunk(oldStart, oldCount, newStart, newCount, []));
    r := PrintBody(text + header + "\n", lines);
    TerminatedCons(header, BodyText(Body(lines)));
    ghost var body := Terminated(BodyText(Body(lines)));
    assert (text + header + "\n") + body == text + (header + "\n" + body);
  }

  lemma TerminatedCons(x: string, lines: seq<string>)
    ensures Terminated([x] + lines) == x + "\n" + Terminated(lines)
  {
    assert ([x] + lines)[1..] == lines;
  }

  lemma StartsLikeADiff(u: Unified)
    ensures Terminated(UnifiedLines(u)) != NO_DIFFERENCES
  {
    hide HunksText;
    var lines := UnifiedLines(u);
    assert Terminated(lines)[0] == lines[0][0] == '-';
  }

  /** The two label lines and then every hunk, appended one after the other. */
  method PrintDiff(fromLabel: string, toLabel: string, d: seq<DiffLine>, spans: seq<Span>) returns (text: string)
    requires forall k :: 0 <= k < |spans| ==> 0 <= spans[k].first <= spans[k].last < |d|
    ensures text == Terminated(UnifiedLines(Unified(fromLabel, toLabel, HunksAt(d, spans))))
  {
    hide HunkText, HunksText, Terminated;
    text := "--- " + fromLabel + "\n" + "+++ " + toLabel + "\n";
    ghost var hunks := [];
    NothingPrinted(fromLabel, toLabel);
    for k := 0 to |spans|
      invariant HunksAt(d, spans[..k]) == hunks
      invariant text == Terminated(UnifiedLines(Unified(fromLabel, toLabel, hunks)))
    {
      var s := spans[k];
      text := PrintHunk(text, d[s.first..s.last + 1]);
      PrintedOneMore(Unified(fromLabel, toLabel, hunks), HunkAt(d, s));
      HunksAtAppend(d, spans[..k], s);
      assert spans[..k + 1] == spans[..k] + [s];
      hunks := hunks + [HunkAt(d, s)];
    }
    assert spans[..|spans|] == spans;
  }

  /**
   The printed diff.  It is the no-difference message exactly when the two contents agree up to
   line endings and one final newline; otherwise its text alone rebuilds the new lines.
   */
  method BuildUnifiedDiff(fromLabel: string, toLabel: string, fromContent: string, toContent: string)
    returns (text: string)
    ensures text == "No differences.\n" <==> Normalized(fromContent) == Normalized(toContent)
    ensures Normalized(fromContent) != Normalized(toContent) ==>
              PrintsMinimalHunks(text, fromLabel, toLabel, DiffLines(fromContent), DiffLines(toContent))
    ensures Normalized(fromContent) != Normalized(toContent) && Without(fromLabel, '\n') && Without(toLabel, '\n') ==>
              Rebuilds(text, fromLabel, toLabel, DiffLines(fromContent), DiffLines(toContent))
  {
    hide DiffLines, Normalized, Rebuilds, IsMinimalDiff, Numbered, HunksAt, UnifiedLines, Terminated, Covers, NearChange;
    var from, to := DiffLines(fromContent), DiffLines(toContent);
    var d := ComputeDiffLines(from, to);
    var changed := HasChanges(d);
    MinimalFacts(d, from, to);
    SameLinesIffSameText(fromContent, toContent);
    if !changed {
      return NO_DIFFERENCES;
    }
    var spans := BuildHunks(d, CONTEXT_LINES);
    text := PrintDiff(fromLabel, toLabel, d, spans);
    assert PrintsMinimalHunks(text, fromLabel, toLabel, from, to);
    StartsLikeADiff(Unified(fromLabel, toLabel, HunksAt(d, spans)));
    if Without(fromLabel, '\n') && Without(toLabel, '\n') {
      DiffLinesFaithful(fromContent);
      DiffLinesFaithful(toContent);
      PrintedRebuilds(fromLabel, toLabel, d, spans);
    }
  }

  lemma MinimalFacts(d: seq<DiffLine>, a: seq<string>, b: seq<string>)
    requires IsMinimalDiff(d, a, b)
    ensures OldSide(d) == a && NewSide(d) == b && Numbered(d, 0, 0)
    ensures Changes(d) == 0 <==> a == b
  {
    NoChangesIffEqual(d, a, b);
  }

  lemma NothingPrinted(fromLabel: string, toLabel: string)
    ensures HunksText([]) == []
    ensures Terminated(UnifiedLines(Unified(fromLabel, toLabel, [])))
         == "--- " + fromLabel + "\n" + "+++ " + toLabel + "\n"
  {
    TerminatedCons("--- " + fromLabel, ["+++ " + toLabel]);
    TerminatedCons("+++ " + toLabel, []);
    assert ["--- " + fromLabel] + ["+++ " + toLabel] == UnifiedLines(Unified(fromLabel, toLabel, []));
  }

  lemma PrintedOneMore(u: Unified, h: Hunk)
    ensures Terminated(UnifiedLines(u)) + Terminated(HunkText(h))
         == Terminated(UnifiedLines(Unified(u.fromLabel, u.toLabel, u.hunks + [h])))
  {
    hide Terminated, HunkText, HunksText;
    HunksTextAppend(u.hunks, h);
    TerminatedConcat(UnifiedLines(u), HunkText(h));
    assert UnifiedLines(u) + HunkText(h) == UnifiedLines(Unified(u.fromLabel, u.toLabel, u.hunks + [h]));
  }

  lemma {:induction false} HunksAtAppend(d: seq<DiffLine>, spans: seq<Span>, s: Span)
    requires forall k :: 0 <= k < |spans| ==> 0 <= spans[k].first <= spans[k].last < |d|
    requires 0 <= s.first <= s.last < |d|
    ensures forall k :: 0 <= k < |spans + [s]| ==> 0 <= (spans + [s])[k].first <= (spans + [s])[k].last < |d|
    ensures HunksAt(d, spans + [s]) == HunksAt(d, spans) + [HunkAt(d, s)]
  {
    hide HunkAt;
    if spans == [] {
      assert spans + [s] == [s];
    } else {
      HunksAtAppend(d, spans[1..], s);
      assert (spans + [s])[1..] == spans[1..] + [s];
    }
  }
}
