/**
 Grouping the lines of a script into context hunks, the hunk headers, and what a reader of the
 hunks can do with them: rebuild the new text from the old one.
 */
module ConfigHunks {
  import opened ConfigDiff
  import opened Text

  // ----- spans of script indexes -----

  /** Both ends belong to the span. */
  datatype Span = Span(first: int, last: int)

  ghost predicate Covers(spans: seq<Span>, i: int) {
    exists k :: 0 <= k < |spans| && spans[k].first <= i <= spans[k].last
  }

  predicate Changed(d: seq<DiffLine>, i: int)
    requires 0 <= i < |d|
  {
    !d[i].kind.Context?
  }

  /** Some changed line lies at most `context` lines away. */
  ghost predicate NearChange(d: seq<DiffLine>, context: nat, i: int) {
    0 <= i < |d| && exists c :: 0 <= c < |d| && Changed(d, c) && c - context <= i <= c + context
  }

  /** Spans are in bounds, in order, and at least one line stays uncovered between neighbours. */
  ghost predicate Separated(spans: seq<Span>, n: int) {
    && (forall k :: 0 <= k < |spans| ==> 0 <= spans[k].first <= spans[k].last < n)
    && (forall k, l :: 0 <= k < l < |spans| ==> spans[k].last + 1 < spans[l].first)
  }

  /** The spans are exactly the neighbourhoods of the changed lines. */
  ghost predicate IsHunkCover(spans: seq<Span>, d: seq<DiffLine>, context: nat) {
    Separated(spans, |d|) && forall i :: Covers(spans, i) <==> NearChange(d, context, i)
  }

  lemma FirstIsCovered(s: seq<Span>, n: int, i: int)
    requires Separated(s, n)
    ensures s != [] ==> Covers(s, s[0].first) && !Covers(s, s[0].last + 1)
    ensures s != [] && s[0].first <= i <= s[0].last ==> Covers(s, i)
    ensures s != [] && i < s[0].first ==> !Covers(s, i)
  {
  }

  lemma HeadsAgree(s: seq<Span>, t: seq<Span>, n: int)
    requires Separated(s, n) && Separated(t, n) && SameCover(s, t)
    ensures s == [] <==> t == []
    ensures s != [] ==> s[0] == t[0]
  {
    FirstIsCovered(s, n, 0);
    FirstIsCovered(t, n, 0);
    if s != [] && t != [] {
      FirstIsCovered(s, n, t[0].first);
      FirstIsCovered(t, n, s[0].first);
      FirstIsCovered(s, n, t[0].last + 1);
      FirstIsCovered(t, n, s[0].last + 1);
    }
  }

  ghost predicate SameCover(s: seq<Span>, t: seq<Span>) {
    forall i :: Covers(s, i) <==> Covers(t, i)
  }

  lemma SameCoverTail(s: seq<Span>, t: seq<Span>, n: int)
    requires Separated(s, n) && Separated(t, n) && SameCover(s, t)
    requires s != [] && t != [] && s[0] == t[0]
    ensures SameCover(s[1..], t[1..])
  {
    forall i
      ensures Covers(s[1..], i) <==> Covers(t[1..], i)
    {
      CoversTail(s, i, n);
      CoversTail(t, i, n);
    }
  }

  lemma SeparatedTail(s: seq<Span>, n: int)
    requires s != [] && Separated(s, n)
    ensures Separated(s[1..], n)
  {
  }

  /** Separated spans are determined by the set of lines they cover. */
  lemma {:induction false} CoverDeterminesSpans(s: seq<Span>, t: seq<Span>, n: int)
    requires Separated(s, n) && Separated(t, n) && SameCover(s, t)
    ensures s == t
  {
    HeadsAgree(s, t, n);
    if s != [] {
      SameCoverTail(s, t, n);
      SeparatedTail(s, n);
      SeparatedTail(t, n);
      CoverDeterminesSpans(s[1..], t[1..], n);
      assert s == [s[0]] + s[1..] && t == [t[0]] + t[1..];
    }
  }

  lemma CoversTail(s: seq<Span>, i: int, n: int)
    requires s != [] && Separated(s, n)
    ensures Covers(s[1..], i) <==> Covers(s, i) && i > s[0].last
  {
    if Covers(s[1..], i) {
      var k :| 0 <= k < |s[1..]| && s[1..][k].first <= i <= s[1..][k].last;
      assert s[k + 1].first <= i <= s[k + 1].last;
    }
    if Covers(s, i) && i > s[0].last {
      var k :| 0 <= k < |s| && s[k].first <= i <= s[k].last;
      assert s[1..][k - 1] == s[k];
    }
  }

  function Max(a: int, b: int): int { if a > b then a else b }

  function Min(a: int, b: int): int { if a < b then a else b }

  /** The indexes of the changed lines, in order. */
  method ChangeIndexes(d: seq<DiffLine>) returns (r: seq<int>)
    ensures forall k :: 0 <= k < |r| ==> 0 <= r[k] < |d| && Changed(d, r[k])
    ensures forall k, l :: 0 <= k < l < |r| ==> r[k] < r[l]
    ensures forall i :: 0 <= i < |d| && Changed(d, i) ==> i in r
  {
    r := [];
    for i := 0 to |d|
      invariant forall k :: 0 <= k < |r| ==> 0 <= r[k] < i && Changed(d, r[k])
      invariant forall k, l :: 0 <= k < l < |r| ==> r[k] < r[l]
      invariant forall c :: 0 <= c < i && Changed(d, c) ==> c in r
    {
      if d[i].kind != Context {
        r := r + [i];
      }
    }
  }

  /** Near one of the first m changes. */
  ghost predicate NearFirst(changes: seq<int>, m: nat, n: int, context: nat, i: int)
    requires m <= |changes|
  {
    0 <= i < n && exists k :: 0 <= k < m && changes[k] - context <= i <= changes[k] + context
  }

  lemma CoversAppend(s: seq<Span>, x: Span, i: int)
    ensures Covers(s + [x], i) <==> Covers(s, i) || x.first <= i <= x.last
  {
    var t := s + [x];
    if Covers(s, i) {
      var k :| 0 <= k < |s| && s[k].first <= i <= s[k].last;
      assert t[k] == s[k];
    }
    if x.first <= i <= x.last {
      assert t[|s|] == x;
    }
  }

  lemma NearFirstStep(changes: seq<int>, m: nat, n: int, context: nat, i: int)
    requires m < |changes|
    ensures NearFirst(changes, m + 1, n, context, i)
       <==> NearFirst(changes, m, n, context, i)
            || (0 <= i < n && changes[m] - context <= i <= changes[m] + context)
  {
    if 0 <= i < n && changes[m] - context <= i <= changes[m] + context {
      assert m < m + 1;
    }
  }

  lemma NearFirstAll(d: seq<DiffLine>, changes: seq<int>, context: nat, i: int)
    requires forall k :: 0 <= k < |changes| ==> 0 <= changes[k] < |d| && Changed(d, changes[k])
    requires forall c :: 0 <= c < |d| && Changed(d, c) ==> c in changes
    ensures NearFirst(changes, |changes|, |d|, context, i) <==> NearChange(d, context, i)
  {
    if NearChange(d, context, i) {
      var c :| 0 <= c < |d| && Changed(d, c) && c - context <= i <= c + context;
      assert c in changes;
    }
  }

  method BuildHunks(d: seq<DiffLine>, context: nat) returns (hunks: seq<Span>)
    ensures IsHunkCover(hunks, d, context)
  {
    var changes := ChangeIndexes(d);
    hunks := [];
    if |changes| == 0 {
      return;
    }
    var start := Max(changes[0] - context, 0);
    var end := Min(changes[0] + context, |d| - 1);
    forall i
      ensures Covers(hunks + [Span(start, end)], i) <==> NearFirst(changes, 1, |d|, context, i)
    {
      CoversAppend(hunks, Span(start, end), i);
      NearFirstStep(changes, 0, |d|, context, i);
    }
    var m := 1;
    while m < |changes|
      invariant 1 <= m <= |changes|
      invariant 0 <= start <= end < |d|
      invariant start <= Max(changes[m - 1] - context, 0)
      invariant end == Min(changes[m - 1] + context, |d| - 1)
      invariant Separated(hunks + [Span(start, end)], |d|)
      invariant forall i :: Covers(hunks + [Span(start, end)], i) <==> NearFirst(changes, m, |d|, context, i)
    {
      var idx := changes[m];
      var nextStart := Max(idx - context, 0);
      var nextEnd := Min(idx + context, |d| - 1);
      ghost var before := hunks + [Span(start, end)];
      ghost var h0, s0, e0 := hunks, start, end;
      if nextStart <= end + 1 {
        end := Max(end, nextEnd);
      } else {
        hunks := hunks + [Span(start, end)];
        start := nextStart;
        end := nextEnd;
      }
      m := m + 1;
      forall i
        ensures Covers(hunks + [Span(start, end)], i) <==> NearFirst(changes, m, |d|, context, i)
      {
        assert Covers(before, i) <==> NearFirst(changes, m - 1, |d|, context, i);
        CoversAppend(h0, Span(s0, e0), i);
        CoversAppend(hunks, Span(start, end), i);
        NearFirstStep(changes, m - 1, |d|, context, i);
      }
      SeparatedStep(h0, Span(s0, e0), Span(start, end), |d|);
    }
    hunks := hunks + [Span(start, end)];
    forall i
      ensures Covers(hunks, i) <==> NearChange(d, context, i)
    {
      NearFirstAll(d, changes, context, i);
    }
  }

  lemma SeparatedStep(hunks: seq<Span>, x: Span, y: Span, n: int)
    requires Separated(hunks + [x], n)
    requires 0 <= y.first <= y.last < n
    ensures y.first == x.first ==> Separated(hunks + [y], n)
    ensures y.first > x.last + 1 ==> Separated(hunks + [x] + [y], n)
  {
    var s := hunks + [x];
    assert s[|hunks|] == x;
    var t := if y.first == x.first then hunks + [y] else s + [y];
    if y.first == x.first || y.first > x.last + 1 {
      forall k | 0 <= k < |t|
        ensures 0 <= t[k].first <= t[k].last < n
      {
        assert k < |s| ==> 0 <= s[k].first <= s[k].last < n;
      }
      forall k, l | 0 <= k < l < |t|
        ensures t[k].last + 1 < t[l].first
      {
        assert l < |s| ==> s[k].last + 1 < s[l].first;
        assert k < |hunks| ==> s[k].last + 1 < s[|hunks|].first;
      }
    }
  }

  // ----- headers and bodies -----

  datatype BodyLine = BodyLine(kind: Kind, text: string)

  datatype Hunk = Hunk(oldStart: int, oldCount: int, newStart: int, newCount: int, body: seq<BodyLine>)

  function OldBody(b: seq<BodyLine>): (r: seq<string>) {
    if b == [] then [] else (if b[0].kind.Added? then [] else [b[0].text]) + OldBody(b[1..])
  }

  function NewBody(b: seq<BodyLine>): (r: seq<string>) {
    if b == [] then [] else (if b[0].kind.Removed? then [] else [b[0].text]) + NewBody(b[1..])
  }

  function Body(d: seq<DiffLine>): (b: seq<BodyLine>) {
    if d == [] then [] else [BodyLine(d[0].kind, d[0].text)] + Body(d[1..])
  }

  lemma {:induction false} BodySides(d: seq<DiffLine>)
    ensures OldBody(Body(d)) == OldSide(d)
    ensures NewBody(Body(d)) == NewSide(d)
  {
    if d != [] {
      assert Body(d)[1..] == Body(d[1..]);
      BodySides(d[1..]);
    }
  }

  /** The header of one hunk, counted line by line. */
  method DiffRange(lines: seq<DiffLine>) returns (oldStart: int, newStart: int, oldCount: int, newCount: int)
    ensures oldStart == if lines == [] then 1 else Max(lines[0].oldNum, 1)
    ensures newStart == if lines == [] then 1 else Max(lines[0].newNum, 1)
    ensures oldCount == |OldSide(lines)| && newCount == |NewSide(lines)|
  {
    oldStart, newStart, oldCount, newCount := 1, 1, 0, 0;
    if |lines| == 0 {
      return;
    }
    oldStart := Max(lines[0].oldNum, 1);
    newStart := Max(lines[0].newNum, 1);
    for k := 0 to |lines|
      invariant oldCount == |OldSide(lines[..k])| && newCount == |NewSide(lines[..k])|
    {
      assert lines[..k + 1] == lines[..k] + [lines[k]];
      SidesConcat(lines[..k], [lines[k]]);
      if lines[k].kind != Added {
        oldCount := oldCount + 1;
      }
      if lines[k].kind != Removed {
        newCount := newCount + 1;
      }
    }
    assert lines[..|lines|] == lines;
  }

  /** The hunk printed for one span of the script. */
  ghost function HunkAt(d: seq<DiffLine>, s: Span): (h: Hunk)
    requires 0 <= s.first <= s.last < |d|
  {
    var lines := d[s.first..s.last + 1];
    Hunk(Max(lines[0].oldNum, 1), |OldSide(lines)|, Max(lines[0].newNum, 1), |NewSide(lines)|, Body(lines))
  }

  ghost function HunksAt(d: seq<DiffLine>, spans: seq<Span>): (h: seq<Hunk>)
    requires forall k :: 0 <= k < |spans| ==> 0 <= spans[k].first <= spans[k].last < |d|
  {
    if spans == [] then [] else [HunkAt(d, spans[0])] + HunksAt(d, spans[1..])
  }

  // ----- a reader of hunks -----

  /**
   Applies hunks to a text of which `pos` lines are already consumed.  `oldStart - 1` lines
   precede the hunk, the next `oldCount` lines must be its context and removed lines, and they
   are replaced by its context and added lines.
   */
  function ApplyHunks(text: seq<string>, pos: nat, hunks: seq<Hunk>): (r: Option<seq<string>>)
    requires pos <= |text|
    decreases |hunks|
  {
    if hunks == [] then Some(text[pos..]) else
      var h := hunks[0];
      var start := h.oldStart - 1;
      if start < pos || h.oldCount < 0 || start + h.oldCount > |text| then None
      else if text[start..start + h.oldCount] != OldBody(h.body) then None
      else
        match ApplyHunks(text, start + h.oldCount, hunks[1..])
        case None => None
        case Some(rest) => Some(text[pos..start] + NewBody(h.body) + rest)
  }

  lemma SliceSides(d: seq<DiffLine>, lo: nat, hi: nat)
    requires lo <= hi <= |d|
    ensures |OldSide(d[..lo])| <= |OldSide(d[..hi])| <= |OldSide(d)|
    ensures |NewSide(d[..lo])| <= |NewSide(d[..hi])| <= |NewSide(d)|
    ensures OldSide(d)[|OldSide(d[..lo])|..|OldSide(d[..hi])|] == OldSide(d[lo..hi])
    ensures NewSide(d)[|NewSide(d[..lo])|..|NewSide(d[..hi])|] == NewSide(d[lo..hi])
  {
    assert d[..hi] == d[..lo] + d[lo..hi];
    assert d == d[..hi] + d[hi..];
    SidesConcat(d[..lo], d[lo..hi]);
    SidesConcat(d[..hi], d[hi..]);
  }

  lemma {:induction false} ContextSides(d: seq<DiffLine>)
    requires forall k :: 0 <= k < |d| ==> d[k].kind.Context?
    ensures OldSide(d) == NewSide(d)
  {
    if d != [] {
      ContextSides(d[1..]);
    }
  }

  /** `count` lines of the text, after the first `start - 1`, are exactly `lines`. */
  ghost predicate NamesSlice(text: seq<string>, start: int, count: int, lines: seq<string>) {
    0 <= start - 1 <= start - 1 + count <= |text| && text[start - 1..start - 1 + count] == lines
  }

  /** What the header of a span of a numbered script says. */
  lemma HunkAtIs(d: seq<DiffLine>, s: Span)
    requires Numbered(d, 0, 0) && 0 <= s.first <= s.last < |d|
    ensures HunkAt(d, s) == Hunk(|OldSide(d[..s.first])| + 1, |OldSide(d[s.first..s.last + 1])|,
                                 |NewSide(d[..s.first])| + 1, |NewSide(d[s.first..s.last + 1])|,
                                 Body(d[s.first..s.last + 1]))
  {
    assert d[s.first..s.last + 1][0] == d[s.first] && NumberedAt(d, s.first, 0, 0);
  }

  lemma SliceIsNamed(d: seq<DiffLine>, lo: nat, hi: nat)
    requires lo <= hi <= |d|
    ensures NamesSlice(OldSide(d), |OldSide(d[..lo])| + 1, |OldSide(d[lo..hi])|, OldSide(d[lo..hi]))
    ensures NamesSlice(NewSide(d), |NewSide(d[..lo])| + 1, |NewSide(d[lo..hi])|, NewSide(d[lo..hi]))
  {
    assert d == (d[..lo] + d[lo..hi]) + d[hi..];
    SidesConcat(d[..lo] + d[lo..hi], d[hi..]);
    SidesConcat(d[..lo], d[lo..hi]);
  }

  /** Every hunk header names the slices of the two texts that its body spells out. */
  lemma HeaderNamesSlices(d: seq<DiffLine>, s: Span)
    requires Numbered(d, 0, 0) && 0 <= s.first <= s.last < |d|
    ensures var h := HunkAt(d, s); NamesSlice(OldSide(d), h.oldStart, h.oldCount, OldBody(h.body))
    ensures var h := HunkAt(d, s); NamesSlice(NewSide(d), h.newStart, h.newCount, NewBody(h.body))
  {
    hide *;
    HunkAtIs(d, s);
    BodySides(d[s.first..s.last + 1]);
    SliceIsNamed(d, s.first, s.last + 1);
  }

  lemma PrefixSides(d: seq<DiffLine>, lo: nat, hi: nat)
    requires lo <= hi <= |d|
    ensures |OldSide(d[..lo])| + |OldSide(d[lo..hi])| == |OldSide(d[..hi])| <= |OldSide(d)|
    ensures OldSide(d)[|OldSide(d[..lo])|..|OldSide(d[..hi])|] == OldSide(d[lo..hi])
  {
    assert d[..hi] == d[..lo] + d[lo..hi];
    SidesConcat(d[..lo], d[lo..hi]);
    SliceSides(d, lo, hi);
  }

  lemma GapIsContext(d: seq<DiffLine>, lo: nat, hi: nat)
    requires lo <= hi <= |d|
    requires forall k :: lo <= k < hi ==> !Changed(d, k)
    ensures |OldSide(d[..lo])| <= |OldSide(d[..hi])| <= |OldSide(d)|
    ensures OldSide(d)[|OldSide(d[..lo])|..|OldSide(d[..hi])|] == NewSide(d[lo..hi])
  {
    SliceSides(d, lo, hi);
    forall k | 0 <= k < |d[lo..hi]|
      ensures d[lo..hi][k].kind.Context?
    {
      assert !Changed(d, lo + k);
    }
    ContextSides(d[lo..hi]);
  }

  lemma NewSideInThree(d: seq<DiffLine>, p: nat, q: nat, r: nat)
    requires p <= q <= r <= |d|
    ensures NewSide(d[p..]) == NewSide(d[p..q]) + NewSide(d[q..r]) + NewSide(d[r..])
  {
    assert d[p..] == (d[p..q] + d[q..r]) + d[r..];
    SidesConcat(d[p..q] + d[q..r], d[r..]);
    SidesConcat(d[p..q], d[q..r]);
  }

  /** One hunk applied: what comes out is the untouched gap, the hunk's new side and the rest. */
  lemma ApplyOne(text: seq<string>, pos: nat, h: Hunk, hunks: seq<Hunk>, gap: seq<string>, rest: seq<string>)
    requires pos <= h.oldStart - 1 <= h.oldStart - 1 + h.oldCount <= |text|
    requires text[pos..h.oldStart - 1] == gap
    requires text[h.oldStart - 1..h.oldStart - 1 + h.oldCount] == OldBody(h.body)
    requires ApplyHunks(text, h.oldStart - 1 + h.oldCount, hunks) == Some(rest)
    ensures ApplyHunks(text, pos, [h] + hunks) == Some(gap + NewBody(h.body) + rest)
  {
    assert ([h] + hunks)[1..] == hunks;
  }

  /** Every change from script index p on lies in some span. */
  ghost predicate CoversChanges(d: seq<DiffLine>, p: nat, spans: seq<Span>) {
    forall i :: p <= i < |d| && Changed(d, i) ==> Covers(spans, i)
  }

  lemma CoversChangesStep(d: seq<DiffLine>, p: nat, spans: seq<Span>)
    requires Separated(spans, |d|) && spans != [] && CoversChanges(d, p, spans) && p <= spans[0].first
    ensures forall k :: p <= k < spans[0].first ==> !Changed(d, k)
    ensures Separated(spans[1..], |d|) && CoversChanges(d, spans[0].last + 1, spans[1..])
    ensures |spans| > 1 ==> spans[0].last + 1 <= spans[1].first
  {
    SeparatedTail(spans, |d|);
    forall k | p <= k < spans[0].first
      ensures !Changed(d, k)
    {
      FirstIsCovered(spans, |d|, k);
    }
    forall i | spans[0].last + 1 <= i < |d| && Changed(d, i)
      ensures Covers(spans[1..], i)
    {
      CoversTail(spans, i, |d|);
    }
  }

  lemma ApplyNone(d: seq<DiffLine>, p: nat)
    requires p <= |d| && CoversChanges(d, p, [])
    ensures |OldSide(d[..p])| <= |OldSide(d)|
    ensures ApplyHunks(OldSide(d), |OldSide(d[..p])|, []) == Some(NewSide(d[p..]))
  {
    forall k | p <= k < |d|
      ensures !Changed(d, k)
    {
      assert !Covers([], k);
    }
    GapIsContext(d, p, |d|);
    assert d[..|d|] == d && d[p..|d|] == d[p..];
    var text, pos := OldSide(d), |OldSide(d[..p])|;
    assert text[pos..] == text[pos..|text|];
  }

  lemma ApplySpan(d: seq<DiffLine>, p: nat, s: Span, hunks: seq<Hunk>)
    requires Numbered(d, 0, 0) && p <= s.first <= s.last < |d|
    requires forall k :: p <= k < s.first ==> !Changed(d, k)
    requires |OldSide(d[..s.last + 1])| <= |OldSide(d)|
    requires ApplyHunks(OldSide(d), |OldSide(d[..s.last + 1])|, hunks) == Some(NewSide(d[s.last + 1..]))
    ensures |OldSide(d[..p])| <= |OldSide(d)|
    ensures ApplyHunks(OldSide(d), |OldSide(d[..p])|, [HunkAt(d, s)] + hunks) == Some(NewSide(d[p..]))
  {
    hide *;
    GapIsContext(d, p, s.first);
    HunkAtIs(d, s);
    PrefixSides(d, s.first, s.last + 1);
    BodySides(d[s.first..s.last + 1]);
    NewSideInThree(d, p, s.first, s.last + 1);
    ApplyOne(OldSide(d), |OldSide(d[..p])|, HunkAt(d, s), hunks, NewSide(d[p..s.first]), NewSide(d[s.last + 1..]));
  }

  lemma {:induction false} ApplyRebuilds(d: seq<DiffLine>, p: nat, spans: seq<Span>)
    requires p <= |d| && Numbered(d, 0, 0) && Separated(spans, |d|) && CoversChanges(d, p, spans)
    requires spans != [] ==> p <= spans[0].first
    ensures |OldSide(d[..p])| <= |OldSide(d)|
    ensures ApplyHunks(OldSide(d), |OldSide(d[..p])|, HunksAt(d, spans)) == Some(NewSide(d[p..]))
    decreases |spans|
  {
    if spans == [] {
      ApplyNone(d, p);
    } else {
      CoversChangesStep(d, p, spans);
      ApplyRebuilds(d, spans[0].last + 1, spans[1..]);
      ApplySpan(d, p, spans[0], HunksAt(d, spans[1..]));
    }
  }

  /**
   The patch round trip: for every script of two texts and every amount of context, the printed
   hunks alone turn the old text into the new one.
   */
  lemma HunksRebuildNewText(d: seq<DiffLine>, spans: seq<Span>, context: nat)
    requires Numbered(d, 0, 0) && IsHunkCover(spans, d, context)
    ensures ApplyHunks(OldSide(d), 0, HunksAt(d, spans)) == Some(NewSide(d))
  {
    forall i | 0 <= i < |d| && Changed(d, i)
      ensures Covers(spans, i)
    {
      assert NearChange(d, context, i);
    }
    assert CoversChanges(d, 0, spans);
    ApplyRebuilds(d, 0, spans);
    assert d[..0] == [] && d[0..] == d;
  }
}
