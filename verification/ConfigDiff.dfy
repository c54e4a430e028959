/**
 The line diff between two configuration texts: an LCS table filled in place and the walk
 over it that produces the edit script.

 `Lcs` and `EditScript` are the recursive readings of the table and of the walk.  Everything
 promised about the script is stated against definitions that do not mention either of them:
 the two sides of a script, common subsequences given by index embeddings, and the number of
 changed lines of an arbitrary script.
 */
module ConfigDiff {

  datatype Kind = Context | Removed | Added

  datatype DiffLine = DiffLine(kind: Kind, text: string, oldNum: int, newNum: int)

  // ----- reading a script -----

  /** The old text a script speaks of: its context and removed lines. */
  function OldSide(d: seq<DiffLine>): (r: seq<string>) {
    if d == [] then [] else (if d[0].kind.Added? then [] else [d[0].text]) + OldSide(d[1..])
  }

  /** The new text a script speaks of: its context and added lines. */
  function NewSide(d: seq<DiffLine>): (r: seq<string>) {
    if d == [] then [] else (if d[0].kind.Removed? then [] else [d[0].text]) + NewSide(d[1..])
  }

  /** The lines a script leaves alone. */
  ghost function Kept(d: seq<DiffLine>): (r: seq<string>) {
    if d == [] then [] else (if d[0].kind.Context? then [d[0].text] else []) + Kept(d[1..])
  }

  /** How many lines a script inserts or deletes. */
  ghost function Changes(d: seq<DiffLine>): (n: nat) {
    if d == [] then 0 else (if d[0].kind.Context? then 0 else 1) + Changes(d[1..])
  }

  /** Line k carries the 1-based position it has on each side, counted from (i, j). */
  ghost predicate NumberedAt(d: seq<DiffLine>, k: nat, i: int, j: int)
    requires k < |d|
  {
    d[k].oldNum == i + 1 + |OldSide(d[..k])| && d[k].newNum == j + 1 + |NewSide(d[..k])|
  }

  ghost predicate Numbered(d: seq<DiffLine>, i: int, j: int) {
    forall k :: 0 <= k < |d| ==> NumberedAt(d, k, i, j)
  }

  /** Inside a run of changes every removal precedes every addition. */
  ghost predicate RemovalsFirst(d: seq<DiffLine>) {
    forall k :: 0 <= k < |d| - 1 ==> !(d[k].kind.Added? && d[k + 1].kind.Removed?)
  }

  // ----- common subsequences, by index embedding -----

  ghost predicate Increasing(f: seq<nat>) {
    forall k, l :: 0 <= k < l < |f| ==> f[k] < f[l]
  }

  ghost predicate Embeds(s: seq<string>, a: seq<string>, f: seq<nat>) {
    |f| == |s| && Increasing(f) && forall k :: 0 <= k < |f| ==> f[k] < |a| && a[f[k]] == s[k]
  }

  ghost predicate IsSubsequence(s: seq<string>, a: seq<string>) {
    exists f :: Embeds(s, a, f)
  }

  ghost predicate IsCommonSubsequence(s: seq<string>, a: seq<string>, b: seq<string>) {
    IsSubsequence(s, a) && IsSubsequence(s, b)
  }

  // ----- the table and the walk, as recursive functions -----

  /** The entry the table holds for the suffixes a[i..] and b[j..]. */
  ghost function Lcs(a: seq<string>, b: seq<string>, i: nat, j: nat): (n: nat)
    requires i <= |a| && j <= |b|
    decreases |a| - i + |b| - j
  {
    if i == |a| || j == |b| then 0
    else if a[i] == b[j] then Lcs(a, b, i + 1, j + 1) + 1
    else if Lcs(a, b, i + 1, j) >= Lcs(a, b, i, j + 1) then Lcs(a, b, i + 1, j)
    else Lcs(a, b, i, j + 1)
  }

  ghost function EditScript(a: seq<string>, b: seq<string>, i: nat, j: nat): (d: seq<DiffLine>)
    requires i <= |a| && j <= |b|
    decreases |a| - i + |b| - j
  {
    if i == |a| && j == |b| then []
    else if i < |a| && j < |b| && a[i] == b[j] then
      [DiffLine(Context, a[i], i + 1, j + 1)] + EditScript(a, b, i + 1, j + 1)
    else if i < |a| && (j == |b| || Lcs(a, b, i + 1, j) >= Lcs(a, b, i, j + 1)) then
      [DiffLine(Removed, a[i], i + 1, j + 1)] + EditScript(a, b, i + 1, j)
    else
      [DiffLine(Added, b[j], i + 1, j + 1)] + EditScript(a, b, i, j + 1)
  }

  // ----- what the table means -----

  /** No common subsequence of the two suffixes is longer than the table entry. */
  lemma {:induction false} LcsIsUpperBound(a: seq<string>, b: seq<string>, i: nat, j: nat, f: seq<nat>, g: seq<nat>)
    requires i <= |a| && j <= |b|
    requires |f| == |g| && Increasing(f) && Increasing(g)
    requires forall k :: 0 <= k < |f| ==> i <= f[k] < |a| && j <= g[k] < |b| && a[f[k]] == b[g[k]]
    ensures |f| <= Lcs(a, b, i, j)
    decreases |a| - i + |b| - j
  {
    if f == [] {
      return;
    }
    assert i <= f[0] < |a| && j <= g[0] < |b| && a[f[0]] == b[g[0]];
    if a[i] == b[j] {
      forall k | 0 <= k < |f[1..]|
        ensures i + 1 <= f[1..][k] < |a| && j + 1 <= g[1..][k] < |b| && a[f[1..][k]] == b[g[1..][k]]
      {
        assert f[1..][k] == f[k + 1] && g[1..][k] == g[k + 1];
      }
      LcsIsUpperBound(a, b, i + 1, j + 1, f[1..], g[1..]);
    } else if f[0] > i {
      LcsIsUpperBound(a, b, i + 1, j, f, g);
    } else {
      LcsIsUpperBound(a, b, i, j + 1, f, g);
    }
  }

  lemma {:induction false} LcsStepDown(a: seq<string>, b: seq<string>, i: nat, j: nat)
    requires i <= |a| && j <= |b|
    ensures i < |a| ==> Lcs(a, b, i + 1, j) <= Lcs(a, b, i, j) <= Lcs(a, b, i + 1, j) + 1
    ensures j < |b| ==> Lcs(a, b, i, j + 1) <= Lcs(a, b, i, j) <= Lcs(a, b, i, j + 1) + 1
    decreases |a| - i + |b| - j
  {
    if i < |a| && j < |b| {
      LcsStepDown(a, b, i + 1, j + 1);
      LcsStepDown(a, b, i + 1, j);
      LcsStepDown(a, b, i, j + 1);
    }
  }

  // ----- any script at all -----

  ghost function Shift(f: seq<nat>): (r: seq<nat>) {
    seq(|f|, k requires 0 <= k < |f| => f[k] + 1)
  }

  lemma EmbedsUnderPrefix(s: seq<string>, a: seq<string>, f: seq<nat>, x: string)
    requires Embeds(s, a, f)
    ensures Embeds(s, [x] + a, Shift(f))
    ensures Embeds([x] + s, [x] + a, [0] + Shift(f))
  {
    var g := Shift(f);
    assert Increasing(g);
    assert Increasing([0] + g);
  }

  lemma {:induction false} KeptEmbeds(d: seq<DiffLine>) returns (f: seq<nat>, g: seq<nat>)
    ensures Embeds(Kept(d), OldSide(d), f)
    ensures Embeds(Kept(d), NewSide(d), g)
  {
    if d == [] {
      f, g := [], [];
      return;
    }
    f, g := KeptEmbeds(d[1..]);
    EmbedsUnderPrefix(Kept(d[1..]), OldSide(d[1..]), f, d[0].text);
    EmbedsUnderPrefix(Kept(d[1..]), NewSide(d[1..]), g, d[0].text);
    match d[0].kind
    case Context =>
      f, g := [0] + Shift(f), [0] + Shift(g);
    case Removed =>
      assert Kept(d) == Kept(d[1..]) && NewSide(d) == NewSide(d[1..]);
      f := Shift(f);
    case Added =>
      assert Kept(d) == Kept(d[1..]) && OldSide(d) == OldSide(d[1..]);
      g := Shift(g);
  }

  lemma {:induction false} ScriptCount(d: seq<DiffLine>)
    ensures |OldSide(d)| + |NewSide(d)| == Changes(d) + 2 * |Kept(d)|
  {
    if d != [] {
      ScriptCount(d[1..]);
    }
  }

  /** Whatever a script keeps is a common subsequence of its two sides, so the table bounds it. */
  lemma KeptAtMostLcs(d: seq<DiffLine>)
    ensures IsCommonSubsequence(Kept(d), OldSide(d), NewSide(d))
    ensures |Kept(d)| <= Lcs(OldSide(d), NewSide(d), 0, 0)
  {
    var f, g := KeptEmbeds(d);
    LcsIsUpperBound(OldSide(d), NewSide(d), 0, 0, f, g);
  }

  lemma {:induction false} SidesConcat(d: seq<DiffLine>, e: seq<DiffLine>)
    ensures OldSide(d + e) == OldSide(d) + OldSide(e)
    ensures NewSide(d + e) == NewSide(d) + NewSide(e)
  {
    hide OldSide, NewSide, Kept;
    if d == [] {
      NoSides();
      assert d + e == e;
    } else {
      SidesConcat(d[1..], e);
      SidesCons(d[0], d[1..]);
      SidesCons(d[0], d[1..] + e);
      assert d == [d[0]] + d[1..] && d + e == [d[0]] + (d[1..] + e);
    }
  }

  // ----- the script that the walk produces -----

  lemma SidesCons(x: DiffLine, d: seq<DiffLine>)
    ensures OldSide([x] + d) == (if x.kind.Added? then [] else [x.text]) + OldSide(d)
    ensures NewSide([x] + d) == (if x.kind.Removed? then [] else [x.text]) + NewSide(d)
    ensures Kept([x] + d) == (if x.kind.Context? then [x.text] else []) + Kept(d)
  {
    assert ([x] + d)[1..] == d;
  }

  lemma NoSides()
    ensures OldSide([]) == NewSide([]) == Kept([]) == []
  {
  }

  lemma SuffixParts(s: seq<string>, i: nat)
    requires i <= |s|
    ensures s[i..] == if i < |s| then [s[i]] + s[i + 1..] else []
  {
  }

  /** What one more line adds to the three sides of a script. */
  lemma SidesStep(a: seq<string>, b: seq<string>, i: nat, j: nat, x: DiffLine, d: seq<DiffLine>)
    requires i <= |a| && j <= |b|
    requires (x.kind.Added? || (i < |a| && x.text == a[i])) && (x.kind.Removed? || (j < |b| && x.text == b[j]))
    requires OldSide(d) == a[if x.kind.Added? then i else i + 1..] && NewSide(d) == b[if x.kind.Removed? then j else j + 1..]
    ensures OldSide([x] + d) == a[i..] && NewSide([x] + d) == b[j..]
    ensures |Kept([x] + d)| == |Kept(d)| + if x.kind.Context? then 1 else 0
  {
    hide OldSide, NewSide, Kept;
    SidesCons(x, d);
    SuffixParts(a, i);
    SuffixParts(b, j);
  }

  lemma {:induction false} EditScriptSides(a: seq<string>, b: seq<string>, i: nat, j: nat)
    requires i <= |a| && j <= |b|
    ensures OldSide(EditScript(a, b, i, j)) == a[i..]
    ensures NewSide(EditScript(a, b, i, j)) == b[j..]
    ensures |Kept(EditScript(a, b, i, j))| == Lcs(a, b, i, j)
    decreases |a| - i + |b| - j
  {
    hide OldSide, NewSide, Kept;
    if i == |a| && j == |b| {
      NoSides();
    } else if i < |a| && j < |b| && a[i] == b[j] {
      EditScriptSides(a, b, i + 1, j + 1);
      SidesStep(a, b, i, j, DiffLine(Context, a[i], i + 1, j + 1), EditScript(a, b, i + 1, j + 1));
    } else if i < |a| && (j == |b| || Lcs(a, b, i + 1, j) >= Lcs(a, b, i, j + 1)) {
      EditScriptSides(a, b, i + 1, j);
      SidesStep(a, b, i, j, DiffLine(Removed, a[i], i + 1, j + 1), EditScript(a, b, i + 1, j));
    } else {
      EditScriptSides(a, b, i, j + 1);
      SidesStep(a, b, i, j, DiffLine(Added, b[j], i + 1, j + 1), EditScript(a, b, i, j + 1));
    }
  }

  lemma {:induction false} NumberedCons(d: seq<DiffLine>, i: int, j: int)
    requires d != [] && d[0].oldNum == i + 1 && d[0].newNum == j + 1
    requires Numbered(d[1..], i + |OldSide(d[..1])|, j + |NewSide(d[..1])|)
    ensures Numbered(d, i, j)
  {
    forall k | 0 <= k < |d|
      ensures NumberedAt(d, k, i, j)
    {
      if k > 0 {
        assert NumberedAt(d[1..], k - 1, i + |OldSide(d[..1])|, j + |NewSide(d[..1])|);
        assert d[..k] == d[..1] + d[1..][..k - 1];
        SidesConcat(d[..1], d[1..][..k - 1]);
        assert d[k] == d[1..][k - 1];
      }
    }
  }

  lemma {:induction false} EditScriptNumbered(a: seq<string>, b: seq<string>, i: nat, j: nat)
    requires i <= |a| && j <= |b|
    ensures Numbered(EditScript(a, b, i, j), i, j)
    decreases |a| - i + |b| - j
  {
    var d := EditScript(a, b, i, j);
    if d != [] {
      if d[0].kind.Context? {
        EditScriptNumbered(a, b, i + 1, j + 1);
      } else if d[0].kind.Removed? {
        EditScriptNumbered(a, b, i + 1, j);
      } else {
        EditScriptNumbered(a, b, i, j + 1);
      }
      assert d[..1] == [d[0]] + [];
      SidesCons(d[0], []);
      NumberedCons(d, i, j);
    }
  }

  /** The tie-break of the walk: an addition is never directly followed by a removal. */
  lemma {:induction false} EditScriptRemovalsFirst(a: seq<string>, b: seq<string>, i: nat, j: nat)
    requires i <= |a| && j <= |b|
    ensures RemovalsFirst(EditScript(a, b, i, j))
    decreases |a| - i + |b| - j
  {
    var d := EditScript(a, b, i, j);
    if d != [] {
      if d[0].kind.Context? {
        EditScriptRemovalsFirst(a, b, i + 1, j + 1);
      } else if d[0].kind.Removed? {
        EditScriptRemovalsFirst(a, b, i + 1, j);
      } else {
        EditScriptRemovalsFirst(a, b, i, j + 1);
        if i < |a| {
          LcsStepDown(a, b, i, j + 1);
          LcsStepDown(a, b, i + 1, j);
        }
      }
    }
  }

  /**
   A minimal edit script between two line sequences: its sides are exactly the two texts, its
   lines are numbered from 1, its kept lines form a longest common subsequence, no script
   between the same texts changes fewer lines, and removals come before additions.
   */
  ghost predicate IsMinimalDiff(d: seq<DiffLine>, a: seq<string>, b: seq<string>) {
    && OldSide(d) == a
    && NewSide(d) == b
    && Numbered(d, 0, 0)
    && IsCommonSubsequence(Kept(d), a, b)
    && (forall s :: IsCommonSubsequence(s, a, b) ==> |s| <= |Kept(d)|)
    && (forall e :: OldSide(e) == a && NewSide(e) == b ==> Changes(d) <= Changes(e))
    && RemovalsFirst(d)
  }

  lemma EditScriptIsMinimal(a: seq<string>, b: seq<string>)
    ensures IsMinimalDiff(EditScript(a, b, 0, 0), a, b)
  {
    var d := EditScript(a, b, 0, 0);
    EditScriptSides(a, b, 0, 0);
    EditScriptNumbered(a, b, 0, 0);
    EditScriptRemovalsFirst(a, b, 0, 0);
    KeptAtMostLcs(d);
    ScriptCount(d);
    forall s | IsCommonSubsequence(s, a, b)
      ensures |s| <= |Kept(d)|
    {
      var f :| Embeds(s, a, f);
      var g :| Embeds(s, b, g);
      LcsIsUpperBound(a, b, 0, 0, f, g);
    }
    forall e | OldSide(e) == a && NewSide(e) == b
      ensures Changes(d) <= Changes(e)
    {
      KeptAtMostLcs(e);
      ScriptCount(e);
    }
  }

  /** A script with no changed line is the mark of equal texts. */
  lemma {:induction false} UnchangedMeansEqual(d: seq<DiffLine>)
    ensures Changes(d) == 0 ==> OldSide(d) == NewSide(d)
  {
    if d != [] {
      UnchangedMeansEqual(d[1..]);
    }
  }

  ghost function AllContext(a: seq<string>): (d: seq<DiffLine>)
    ensures OldSide(d) == a && NewSide(d) == a && Changes(d) == 0
  {
    if a == [] then [] else
      var rest := AllContext(a[1..]);
      var d := [DiffLine(Context, a[0], 0, 0)] + rest;
      assert d[1..] == rest;
      d
  }

  lemma NoChangesIffEqual(d: seq<DiffLine>, a: seq<string>, b: seq<string>)
    requires IsMinimalDiff(d, a, b)
    ensures Changes(d) == 0 <==> a == b
  {
    UnchangedMeansEqual(d);
    if a == b {
      var e := AllContext(a);
      assert OldSide(e) == a && NewSide(e) == b;
    }
  }

  // ----- the program -----

  /** One cell of the table holds its value. */
  ghost predicate Cell(lcs: array2<int>, a: seq<string>, b: seq<string>, i: nat, j: nat)
    reads lcs
    requires lcs.Length0 == |a| + 1 && lcs.Length1 == |b| + 1
    requires i <= |a| && j <= |b|
  {
    lcs[i, j] == Lcs(a, b, i, j)
  }

  /** Fills the table from the bottom-right corner. */
  method FillLcsTable(from: seq<string>, to: seq<string>) returns (lcs: array2<int>)
    ensures fresh(lcs)
    ensures lcs.Length0 == |from| + 1 && lcs.Length1 == |to| + 1
    ensures forall i, j :: 0 <= i <= |from| && 0 <= j <= |to| ==> Cell(lcs, from, to, i, j)
  {
    lcs := new int[|from| + 1, |to| + 1]((_, _) => 0);
    var i := |from| - 1;
    while i >= 0
      invariant -1 <= i <= |from| - 1
      invariant forall r, c :: i < r <= |from| && 0 <= c <= |to| ==> Cell(lcs, from, to, r, c)
      invariant forall r :: 0 <= r <= |from| ==> Cell(lcs, from, to, r, |to|)
    {
      var j := |to| - 1;
      while j >= 0
        invariant -1 <= j <= |to| - 1
        invariant forall r, c :: i < r <= |from| && 0 <= c <= |to| ==> Cell(lcs, from, to, r, c)
        invariant forall r :: 0 <= r <= |from| ==> Cell(lcs, from, to, r, |to|)
        invariant forall c :: j < c <= |to| ==> Cell(lcs, from, to, i, c)
      {
        assert Cell(lcs, from, to, i + 1, j + 1) && Cell(lcs, from, to, i + 1, j) && Cell(lcs, from, to, i, j + 1);
        label Before:
        if from[i] == to[j] {
          lcs[i, j] := lcs[i + 1, j + 1] + 1;
        } else if lcs[i + 1, j] >= lcs[i, j + 1] {
          lcs[i, j] := lcs[i + 1, j];
        } else {
          lcs[i, j] := lcs[i, j + 1];
        }
        assert Cell(lcs, from, to, i, j);
        forall r, c | 0 <= r <= |from| && 0 <= c <= |to| && (r != i || c != j) && old@Before(Cell(lcs, from, to, r, c))
          ensures Cell(lcs, from, to, r, c)
        {
        }
        j := j - 1;
      }
      i := i - 1;
    }
  }

  /** The lines written so far, followed by the script for what is left, make the whole script. */
  ghost predicate Walked(d: seq<DiffLine>, a: seq<string>, b: seq<string>, i: nat, j: nat)
    requires i <= |a| && j <= |b|
  {
    d + EditScript(a, b, i, j) == EditScript(a, b, 0, 0)
  }

  lemma WalkKeep(d: seq<DiffLine>, a: seq<string>, b: seq<string>, i: nat, j: nat)
    requires i < |a| && j < |b| && a[i] == b[j] && Walked(d, a, b, i, j)
    ensures Walked(d + [DiffLine(Context, a[i], i + 1, j + 1)], a, b, i + 1, j + 1)
  {
    var x := DiffLine(Context, a[i], i + 1, j + 1);
    assert d + ([x] + EditScript(a, b, i + 1, j + 1)) == (d + [x]) + EditScript(a, b, i + 1, j + 1);
  }

  lemma WalkRemove(d: seq<DiffLine>, a: seq<string>, b: seq<string>, i: nat, j: nat)
    requires i < |a| && j <= |b| && Walked(d, a, b, i, j)
    requires j == |b| || (a[i] != b[j] && Lcs(a, b, i + 1, j) >= Lcs(a, b, i, j + 1))
    ensures Walked(d + [DiffLine(Removed, a[i], i + 1, j + 1)], a, b, i + 1, j)
  {
    var x := DiffLine(Removed, a[i], i + 1, j + 1);
    assert d + ([x] + EditScript(a, b, i + 1, j)) == (d + [x]) + EditScript(a, b, i + 1, j);
  }

  lemma WalkAdd(d: seq<DiffLine>, a: seq<string>, b: seq<string>, i: nat, j: nat)
    requires i <= |a| && j < |b| && Walked(d, a, b, i, j)
    requires i == |a| || (a[i] != b[j] && Lcs(a, b, i + 1, j) < Lcs(a, b, i, j + 1))
    ensures Walked(d + [DiffLine(Added, b[j], i + 1, j + 1)], a, b, i, j + 1)
  {
    var x := DiffLine(Added, b[j], i + 1, j + 1);
    assert d + ([x] + EditScript(a, b, i, j + 1)) == (d + [x]) + EditScript(a, b, i, j + 1);
  }

  lemma WalkStarts(a: seq<string>, b: seq<string>)
    ensures Walked([], a, b, 0, 0)
  {
  }

  lemma WalkEnds(d: seq<DiffLine>, a: seq<string>, b: seq<string>)
    requires Walked(d, a, b, |a|, |b|)
    ensures d == EditScript(a, b, 0, 0)
  {
    assert d + [] == d;
  }

  /** The walk over the table, with its running line numbers and its two tail loops. */
  method ComputeDiffLines(from: seq<string>, to: seq<string>) returns (diff: seq<DiffLine>)
    ensures diff == EditScript(from, to, 0, 0)
    ensures IsMinimalDiff(diff, from, to)
  {
    hide Lcs, EditScript, IsMinimalDiff, Walked;
    var lcs := FillLcsTable(from, to);
    var i, j: nat := 0, 0;
    var oldNum, newNum := 1, 1;
    diff := [];
    WalkStarts(from, to);
    while i < |from| && j < |to|
      invariant i <= |from| && j <= |to|
      invariant oldNum == i + 1 && newNum == j + 1
      invariant Walked(diff, from, to, i, j)
      invariant forall r, c :: 0 <= r <= |from| && 0 <= c <= |to| ==> Cell(lcs, from, to, r, c)
      decreases |from| - i + |to| - j
    {
      assert Cell(lcs, from, to, i + 1, j) && Cell(lcs, from, to, i, j + 1);
      if from[i] == to[j] {
        WalkKeep(diff, from, to, i, j);
        diff := diff + [DiffLine(Context, from[i], oldNum, newNum)];
        i, j, oldNum, newNum := i + 1, j + 1, oldNum + 1, newNum + 1;
      } else if lcs[i + 1, j] >= lcs[i, j + 1] {
        WalkRemove(diff, from, to, i, j);
        diff := diff + [DiffLine(Removed, from[i], oldNum, newNum)];
        i, oldNum := i + 1, oldNum + 1;
      } else {
        WalkAdd(diff, from, to, i, j);
        diff := diff + [DiffLine(Added, to[j], oldNum, newNum)];
        j, newNum := j + 1, newNum + 1;
      }
    }
    while i < |from|
      invariant i <= |from| && j <= |to| && (i < |from| ==> j == |to|)
      invariant oldNum == i + 1 && newNum == j + 1
      invariant Walked(diff, from, to, i, j)
    {
      WalkRemove(diff, from, to, i, j);
      diff := diff + [DiffLine(Removed, from[i], oldNum, newNum)];
      i, oldNum := i + 1, oldNum + 1;
    }
    while j < |to|
      invariant i == |from| && j <= |to|
      invariant oldNum == i + 1 && newNum == j + 1
      invariant Walked(diff, from, to, i, j)
    {
      WalkAdd(diff, from, to, i, j);
      diff := diff + [DiffLine(Added, to[j], oldNum, newNum)];
      j, newNum := j + 1, newNum + 1;
    }
    WalkEnds(diff, from, to);
    EditScriptIsMinimal(from, to);
  }
}
