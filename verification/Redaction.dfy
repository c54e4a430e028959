/**
 Hiding secrets in a configuration tree, and putting them back when a client returns the tree
 it was shown.

 Go's untyped nil is both JSON null and the value of a missing key; `Null` plays both parts, as
 it does there.
 */
module Redaction {
  import opened Text
  import opened JsonText
  import UnifiedDiff

  const REDACTED := "***REDACTED***"
  const SENSITIVE_WORDS := ["password", "secret", "token", "key", "pass_hash", "private_key", "pw"]
  const PLACEHOLDER := Str(REDACTED)

  // ----- which keys are secret -----

  predicate OccursAt(s: string, sub: string, i: int) {
    0 <= i <= |s| - |sub| && s[i..i + |sub|] == sub
  }

  predicate Contains(s: string, sub: string) {
    exists i :: 0 <= i <= |s| - |sub| && OccursAt(s, sub, i)
  }

  predicate IsSensitiveKey(key: string) {
    exists w :: w in SENSITIVE_WORDS && Contains(ToLower(key), w)
  }

  method IsSensitiveConfigKey(key: string) returns (r: bool)
    ensures r <==> IsSensitiveKey(key)
    ensures r <==> HoldsSensitiveWord(key)
  {
    SensitiveIff(key);
    var lower := ToLower(key);
    for i := 0 to |SENSITIVE_WORDS|
      invariant forall j :: 0 <= j < i ==> !Contains(lower, SENSITIVE_WORDS[j])
    {
      if Contains(lower, SENSITIVE_WORDS[i]) {
        return true;
      }
    }
    return false;
  }

  ghost predicate IsSensitiveWord(w: string) {
    w == "password" || w == "secret" || w == "token" || w == "key" || w == "pass_hash" || w == "private_key" || w == "pw"
  }

  ghost predicate WordAt(key: string, w: string, i: int) {
    0 <= i <= |key| - |w| && SameLetters(key[i..i + |w|], w)
  }

  /** One of the seven words, whatever the case of its letters, anywhere in a key. */
  ghost predicate HoldsSensitiveWord(key: string) {
    exists w, i :: IsSensitiveWord(w) && WordAt(key, w, i)
  }

  lemma WordsAre(w: string)
    ensures w in SENSITIVE_WORDS <==> IsSensitiveWord(w)
    ensures IsSensitiveWord(w) ==> forall i :: 0 <= i < |w| ==> !('A' <= w[i] <= 'Z')
  {
  }

  lemma WordAtIff(key: string, w: string, i: int)
    requires IsSensitiveWord(w)
    ensures OccursAt(ToLower(key), w, i) <==> WordAt(key, w, i)
  {
    hide ToLower, SameLetters, IsSensitiveWord;
    WordsAre(w);
    if 0 <= i <= |key| - |w| {
      assert ToLower(key)[i..i + |w|] == ToLower(key[i..i + |w|]);
      LowerWord(key[i..i + |w|], w);
    }
  }

  lemma SensitiveIff(key: string)
    ensures IsSensitiveKey(key) <==> HoldsSensitiveWord(key)
  {
    hide ToLower, IsSensitiveWord, WordAt, OccursAt;
    if IsSensitiveKey(key) {
      var w :| w in SENSITIVE_WORDS && Contains(ToLower(key), w);
      var i :| 0 <= i <= |ToLower(key)| - |w| && OccursAt(ToLower(key), w, i);
      WordsAre(w);
      WordAtIff(key, w, i);
    }
    if HoldsSensitiveWord(key) {
      var w, i :| IsSensitiveWord(w) && WordAt(key, w, i);
      SensitiveWord(key, w, i);
    }
  }

  lemma SensitiveWord(key: string, w: string, i: int)
    requires IsSensitiveWord(w) && WordAt(key, w, i)
    ensures IsSensitiveKey(key)
  {
    hide ToLower, IsSensitiveWord, SameLetters;
    WordsAre(w);
    WordAtIff(key, w, i);
    assert Contains(ToLower(key), w);
  }

  // ----- redaction -----

  function RedactField(key: string, value: Json): (r: Json)
    decreases value, 1
  {
    if IsSensitiveKey(key) then PLACEHOLDER else Redact(value)
  }

  function Redact(t: Json): (r: Json)
    decreases t, 0
  {
    match t
    case Obj(m) => Obj(map k | k in m :: RedactField(k, m[k]))
    case Arr(xs) => Arr(seq(|xs|, i requires 0 <= i < |xs| => Redact(xs[i])))
    case _ => t
  }

  // ----- the merge -----

  function Field(t: Json, key: string): (r: Json) {
    if t.Obj? && key in t.fields then t.fields[key] else Null
  }

  function Item(t: Json, i: nat): (r: Json) {
    if t.Arr? && i < |t.items| then t.items[i] else Null
  }

  function Preserve(current: Json, incoming: Json): (r: Json)
    decreases incoming
  {
    match incoming
    case Str(s) => if s == REDACTED && current != Null then current else incoming
    case Obj(m) => Obj(map k | k in m :: Preserve(Field(current, k), m[k]))
    case Arr(xs) => Arr(seq(|xs|, i requires 0 <= i < |xs| => Preserve(Item(current, i), xs[i])))
    case _ => incoming
  }

  // ----- paths -----

  datatype Step = Key(name: string) | Index(i: nat)

  function At(t: Json, path: seq<Step>): (r: Option<Json>)
    decreases path
  {
    if path == [] then Some(t) else
      match path[0]
      case Key(k) => if t.Obj? && k in t.fields then At(t.fields[k], path[1..]) else None
      case Index(i) => if t.Arr? && i < |t.items| then At(t.items[i], path[1..]) else None
  }

  /** What a tree holds at a path, nil when it holds nothing. */
  function AtOrNull(t: Json, path: seq<Step>): (r: Json) {
    match At(t, path) case Some(v) => v case None => Null
  }

  /** No step of the path is a sensitive key. */
  ghost predicate ClearPath(path: seq<Step>) {
    forall i :: 0 <= i < |path| && path[i].Key? ==> !IsSensitiveKey(path[i].name)
  }

  // ----- restore undoes redaction, exactly when no secret is null -----

  /** No null sits under a sensitive key that redaction reaches. */
  ghost predicate NoNullSecret(t: Json) {
    match t
    case Obj(m) => forall k :: k in m ==> if IsSensitiveKey(k) then m[k] != Null else NoNullSecret(m[k])
    case Arr(xs) => forall i :: 0 <= i < |xs| ==> NoNullSecret(xs[i])
    case _ => true
  }

  lemma {:induction false} RestoreUndoesRedaction(t: Json)
    ensures Preserve(t, Redact(t)) == t <==> NoNullSecret(t)
  {
    hide IsSensitiveKey;
    match t
    case Obj(m) =>
      var back := Preserve(t, Redact(t));
      forall k | k in m
        ensures back.fields[k] == m[k] <==> if IsSensitiveKey(k) then m[k] != Null else NoNullSecret(m[k])
      {
        RestoreUndoesRedaction(m[k]);
        assert back.fields[k] == Preserve(m[k], RedactField(k, m[k]));
      }
      assert back == t <==> forall k :: k in m ==> back.fields[k] == m[k];
    case Arr(xs) =>
      var back := Preserve(t, Redact(t));
      forall i | 0 <= i < |xs|
        ensures back.items[i] == xs[i] <==> NoNullSecret(xs[i])
      {
        RestoreUndoesRedaction(xs[i]);
      }
      assert back == t <==> forall i :: 0 <= i < |xs| ==> back.items[i] == xs[i];
    case _ =>
  }

  /** The null that is lost: the placeholder stays in its place. */
  lemma NullSecretIsLost()
    ensures exists t :: Preserve(t, Redact(t)) != t
  {
    var t := Obj(map["pw" := Null]);
    var lower := ToLower("pw");
    assert lower == "pw" && OccursAt(lower, "pw", 0);
    assert SENSITIVE_WORDS[6] == "pw" && Contains(lower, "pw");
    assert IsSensitiveKey("pw");
    assert "pw" in t.fields;
    RestoreUndoesRedaction(t);
  }

  // ----- what the merge does, path by path -----

  /** Wherever the incoming tree has a value, the merge has the merge of the two values there. */
  lemma {:induction false} MergeAt(current: Json, incoming: Json, path: seq<Step>)
    ensures At(incoming, path).Some? ==>
              At(Preserve(current, incoming), path) == Some(Preserve(AtOrNull(current, path), At(incoming, path).value))
    decreases path
  {
    if path != [] {
      match path[0]
      case Key(k) =>
        if incoming.Obj? && k in incoming.fields {
          MergeAt(Field(current, k), incoming.fields[k], path[1..]);
          NothingBelowNull(path[1..]);
        }
      case Index(i) =>
        if incoming.Arr? && i < |incoming.items| {
          MergeAt(Item(current, i), incoming.items[i], path[1..]);
          NothingBelowNull(path[1..]);
        }
    }
  }

  lemma NothingBelowNull(path: seq<Step>)
    ensures AtOrNull(Null, path) == Null
  {
  }

  ghost predicate IsLeaf(t: Json) {
    !t.Obj? && !t.Arr?
  }

  /**
   The merge against any current tree keeps every non-placeholder leaf, every key set and every
   array length of the incoming tree, and fills each placeholder with the current value at the
   same path; a placeholder is left only where the current tree has nothing or a placeholder.
   */
  lemma MergeKeepsAndFills(current: Json, incoming: Json, path: seq<Step>)
    requires At(incoming, path).Some?
    ensures At(Preserve(current, incoming), path).Some?
    ensures var v := At(incoming, path).value;
            var m := At(Preserve(current, incoming), path).value;
            var c := AtOrNull(current, path);
            && (IsLeaf(v) && v != PLACEHOLDER ==> m == v)
            && (v.Obj? ==> m.Obj? && m.fields.Keys == v.fields.Keys)
            && (v.Arr? ==> m.Arr? && |m.items| == |v.items|)
            && (v == PLACEHOLDER ==> m == if c == Null then PLACEHOLDER else c)
            && (m == PLACEHOLDER ==> v == PLACEHOLDER && (c == Null || c == PLACEHOLDER))
  {
    MergeAt(current, incoming, path);
  }

  /** Whatever else the merge holds lies below a placeholder, and comes from the current tree. */
  lemma {:induction false} MergeAddsOnlyBelowPlaceholders(current: Json, incoming: Json, path: seq<Step>)
    requires At(incoming, path).None? && At(Preserve(current, incoming), path).Some?
    ensures exists n :: 0 <= n < |path| && At(incoming, path[..n]) == Some(PLACEHOLDER)
                        && At(Preserve(current, incoming), path) == At(AtOrNull(current, path[..n]), path[n..])
    decreases path
  {
    if incoming == PLACEHOLDER && current != Null {
      assert path[..0] == [] && path[0..] == path;
    } else {
      var merged := Preserve(current, incoming);
      var n := 0;
      match path[0]
      case Key(k) =>
        var c := Field(current, k);
        MergeAddsOnlyBelowPlaceholders(c, incoming.fields[k], path[1..]);
        n :| 0 <= n < |path[1..]| && At(incoming.fields[k], path[1..][..n]) == Some(PLACEHOLDER)
             && At(Preserve(c, incoming.fields[k]), path[1..]) == At(AtOrNull(c, path[1..][..n]), path[1..][n..]);
        PathPrefix(path, n);
        NothingBelowNull(path[1..][..n]);
        assert At(incoming, path[..n + 1]) == Some(PLACEHOLDER);
        assert AtOrNull(current, path[..n + 1]) == AtOrNull(c, path[1..][..n]);
      case Index(i) =>
        var c := Item(current, i);
        MergeAddsOnlyBelowPlaceholders(c, incoming.items[i], path[1..]);
        n :| 0 <= n < |path[1..]| && At(incoming.items[i], path[1..][..n]) == Some(PLACEHOLDER)
             && At(Preserve(c, incoming.items[i]), path[1..]) == At(AtOrNull(c, path[1..][..n]), path[1..][n..]);
        PathPrefix(path, n);
        NothingBelowNull(path[1..][..n]);
        assert At(incoming, path[..n + 1]) == Some(PLACEHOLDER);
        assert AtOrNull(current, path[..n + 1]) == AtOrNull(c, path[1..][..n]);
    }
  }

  lemma PathPrefix(path: seq<Step>, n: nat)
    requires n < |path|
    ensures path[..n + 1] != [] && path[..n + 1][0] == path[0]
    ensures path[..n + 1][1..] == path[1..][..n]
    ensures path[n + 1..] == path[1..][n..]
  {
  }

  // ----- what redaction shows and hides -----

  /** What can be seen of a tree at one place without looking deeper. */
  datatype Shape = Missing | Leaf(v: Json) | Fields(keys: set<string>) | Items(n: nat)

  ghost function ShapeOf(t: Option<Json>): (s: Shape) {
    match t
    case None => Missing
    case Some(Obj(m)) => Fields(m.Keys)
    case Some(Arr(xs)) => Items(|xs|)
    case Some(v) => Leaf(v)
  }

  /** The two trees look the same at every path without a sensitive key. */
  ghost predicate AgreeOffSecrets(a: Json, b: Json) {
    forall path :: ClearPath(path) ==> ShapeOf(At(a, path)) == ShapeOf(At(b, path))
  }

  lemma ClearTail(path: seq<Step>)
    requires path != [] && ClearPath(path)
    ensures ClearPath(path[1..])
    ensures path[0].Key? ==> !IsSensitiveKey(path[0].name)
  {
  }

  lemma {:induction false} RedactionShowsClearPaths(t: Json, path: seq<Step>)
    requires ClearPath(path)
    ensures ShapeOf(At(Redact(t), path)) == ShapeOf(At(t, path))
    decreases path
  {
    hide IsSensitiveKey;
    if path != [] {
      ClearTail(path);
      match path[0]
      case Key(k) =>
        if t.Obj? && k in t.fields {
          RedactionShowsClearPaths(t.fields[k], path[1..]);
        }
      case Index(i) =>
        if t.Arr? && i < |t.items| {
          RedactionShowsClearPaths(t.items[i], path[1..]);
        }
    }
  }

  /** A path through a sensitive key ends there, at the placeholder. */
  lemma {:induction false} RedactionHidesSecrets(t: Json, path: seq<Step>)
    requires !ClearPath(path) && At(Redact(t), path).Some?
    ensures At(Redact(t), path) == Some(PLACEHOLDER)
    ensures ClearPath(path[..|path| - 1])
    decreases path
  {
    hide IsSensitiveKey;
    match path[0]
    case Key(k) =>
      if IsSensitiveKey(k) {
        NothingBelowLeaf(PLACEHOLDER, path[1..]);
      } else {
        ClearFromTail(path);
        RedactionHidesSecrets(t.fields[k], path[1..]);
        assert path[..|path| - 1][1..] == path[1..][..|path| - 2];
      }
    case Index(i) =>
      ClearFromTail(path);
      RedactionHidesSecrets(t.items[i], path[1..]);
      assert path[..|path| - 1][1..] == path[1..][..|path| - 2];
  }

  lemma NothingBelowLeaf(t: Json, path: seq<Step>)
    requires IsLeaf(t) && At(t, path).Some?
    ensures path == []
  {
  }

  lemma ClearFromTail(path: seq<Step>)
    requires path != [] && !ClearPath(path)
    requires path[0].Key? ==> !IsSensitiveKey(path[0].name)
    ensures !ClearPath(path[1..])
  {
    var i :| 0 <= i < |path| && path[i].Key? && IsSensitiveKey(path[i].name);
    assert path[1..][i - 1] == path[i];
  }

  lemma AgreeBelow(a: Json, b: Json, step: Step, x: Json, y: Json)
    requires AgreeOffSecrets(a, b)
    requires step.Key? ==> !IsSensitiveKey(step.name)
    requires At(a, [step]) == Some(x) && At(b, [step]) == Some(y)
    ensures AgreeOffSecrets(x, y)
  {
    forall path | ClearPath(path)
      ensures ShapeOf(At(x, path)) == ShapeOf(At(y, path))
    {
      var long := [step] + path;
      assert ClearPath(long);
      assert long[1..] == path && [step][1..] == [];
    }
  }

  /** Two trees redact to the same tree exactly when they agree wherever no key is sensitive. */
  lemma {:induction false} RedactEqualIffAgree(a: Json, b: Json)
    ensures Redact(a) == Redact(b) <==> AgreeOffSecrets(a, b)
    decreases a
  {
    if Redact(a) == Redact(b) {
      forall path | ClearPath(path)
        ensures ShapeOf(At(a, path)) == ShapeOf(At(b, path))
      {
        RedactionShowsClearPaths(a, path);
        RedactionShowsClearPaths(b, path);
      }
    }
    if AgreeOffSecrets(a, b) {
      AgreeImpliesRedactEqual(a, b);
    }
  }

  lemma {:induction false} AgreeImpliesRedactEqual(a: Json, b: Json)
    requires AgreeOffSecrets(a, b)
    ensures Redact(a) == Redact(b)
    decreases a
  {
    hide IsSensitiveKey;
    assert ClearPath([]);
    assert ShapeOf(At(a, [])) == ShapeOf(At(b, []));
    match a
    case Obj(m) =>
      forall k | k in m
        ensures k in b.fields && RedactField(k, m[k]) == RedactField(k, b.fields[k])
      {
        if !IsSensitiveKey(k) {
          assert [Key(k)][1..] == [];
          AgreeBelow(a, b, Key(k), m[k], b.fields[k]);
          AgreeImpliesRedactEqual(m[k], b.fields[k]);
        }
      }
    case Arr(xs) =>
      forall i | 0 <= i < |xs|
        ensures Redact(xs[i]) == Redact(b.items[i])
      {
        assert [Index(i)][1..] == [];
        AgreeBelow(a, b, Index(i), xs[i], b.items[i]);
        AgreeImpliesRedactEqual(xs[i], b.items[i]);
      }
    case _ =>
  }

  // ----- the program -----

  /** Rewrites every entry of a map, in whatever order the map is walked. */
  method SanitizeConfig(ghost t: Json, cfg: map<string, Json>) returns (r: map<string, Json>)
    requires t == Obj(cfg)
    ensures r == map k | k in cfg :: RedactField(k, cfg[k])
    decreases t, 0
  {
    r := cfg;
    var todo := cfg.Keys;
    while todo != {}
      invariant todo <= cfg.Keys && r.Keys == cfg.Keys
      invariant forall k :: k in cfg ==> r[k] == if k in todo then cfg[k] else RedactField(k, cfg[k])
      decreases todo
    {
      var key :| key in todo;
      var sensitive := IsSensitiveConfigKey(key);
      if sensitive {
        r := r[key := PLACEHOLDER];
      } else {
        var value := SanitizeUntyped(cfg[key]);
        r := r[key := value];
      }
      todo := todo - {key};
    }
  }

  method SanitizeUntyped(value: Json) returns (r: Json)
    ensures r == Redact(value)
    decreases value, 1
  {
    match value
    case Obj(m) =>
      var fields := SanitizeConfig(value, m);
      r := Obj(fields);
    case Arr(xs) =>
      var items := xs;
      for i := 0 to |xs|
        invariant |items| == |xs|
        invariant forall j :: 0 <= j < |xs| ==> items[j] == if j < i then Redact(xs[j]) else xs[j]
      {
        var item := SanitizeUntyped(xs[i]);
        items := items[i := item];
      }
      r := Arr(items);
    case _ =>
      r := value;
  }

  /** A submitted document with its placeholders filled in, when a current one can be loaded. */
  function PrepareConfigDocument(current: Option<Json>, submitted: map<string, Json>): (r: map<string, Json>) {
    match current
    case None => submitted
    case Some(c) => Preserve(c, Obj(submitted)).fields
  }

  /** Showing a document and submitting it back unchanged changes nothing, unless a secret is null. */
  lemma SubmitBackUnchanged(cfg: map<string, Json>)
    ensures PrepareConfigDocument(Some(Obj(cfg)), Redact(Obj(cfg)).fields) == cfg <==> NoNullSecret(Obj(cfg))
  {
    RestoreUndoesRedaction(Obj(cfg));
  }

  lemma {:induction false} NothingCollapses(s: string)
    requires Without(s, '\r')
    ensures UnifiedDiff.CollapseCrLf(s) == s
  {
    if s != [] {
      assert s[0] != '\r';
      assert Without(s[1..], '\r');
      NothingCollapses(s[1..]);
      assert s == [s[0]] + s[1..];
    }
  }

  /** The printed text of a document has no carriage return and no final newline to normalize. */
  lemma DocumentTextIsNormal(cfg: map<string, Json>)
    ensures UnifiedDiff.Normalized(DocumentText(cfg)) == DocumentText(cfg)
  {
    hide DocumentText, UnifiedDiff.CollapseCrLf;
    DocumentTextEnds(cfg);
    NothingCollapses(DocumentText(cfg));
    var s := DocumentText(cfg);
    assert s[|s| - 1..] == [s[|s| - 1]];
  }

  /** Every value under such a key is shown as the placeholder, at any depth. */
  lemma SensitiveWordsAreHidden(t: map<string, Json>, key: string)
    requires key in t && HoldsSensitiveWord(key)
    ensures Redact(Obj(t)).fields[key] == Str("***REDACTED***")
  {
    SensitiveIff(key);
  }

  /** The lines of a document as it is shown: redacted and printed. */
  ghost function ShownLines(cfg: map<string, Json>): (lines: seq<string>) {
    UnifiedDiff.DiffLines(DocumentText(Redact(Obj(cfg)).fields))
  }

  /**
   What the diff of two documents says: nothing exactly when they agree off their secrets; else the
   minimal hunks between the redacted documents, from which the new redacted document is rebuilt.
   */
  ghost predicate IsDocumentDiff(text: string, fromLabel: string, toLabel: string, from: map<string, Json>, to: map<string, Json>) {
    && (text == "No differences.\n" <==> AgreeOffSecrets(Obj(from), Obj(to)))
    && (!AgreeOffSecrets(Obj(from), Obj(to)) ==>
          && UnifiedDiff.PrintsMinimalHunks(text, fromLabel, toLabel, ShownLines(from), ShownLines(to))
          && (Without(fromLabel, '\n') && Without(toLabel, '\n') ==>
                UnifiedDiff.Rebuilds(text, fromLabel, toLabel, ShownLines(from), ShownLines(to))))
  }

  /** The diff of two documents, both redacted and printed. */
  method DiffConfigDocuments(fromLabel: string, toLabel: string, from: map<string, Json>, to: map<string, Json>)
    returns (text: string)
    ensures IsDocumentDiff(text, fromLabel, toLabel, from, to)
  {
    hide AgreeOffSecrets, RedactField, DocumentText, UnifiedDiff.Normalized, UnifiedDiff.DiffLines,
      UnifiedDiff.PrintsMinimalHunks, UnifiedDiff.Rebuilds;
    var a := SanitizeConfig(Obj(from), from);
    var b := SanitizeConfig(Obj(to), to);
    text := UnifiedDiff.BuildUnifiedDiff(fromLabel, toLabel, DocumentText(a), DocumentText(b));
    DocumentTextIsNormal(a);
    DocumentTextIsNormal(b);
    DocumentTextIsUnique(a, b);
    RedactEqualIffAgree(Obj(from), Obj(to));
    assert a == Redact(Obj(from)).fields && b == Redact(Obj(to)).fields;
  }

  /** The diff does not depend on secrets: documents that agree off them have the same diff. */
  lemma DiffHidesSecrets(s: string, t: string, fromLabel: string, toLabel: string,
                         a: map<string, Json>, b: map<string, Json>, a': map<string, Json>, b': map<string, Json>)
    requires IsDocumentDiff(s, fromLabel, toLabel, a, b) && IsDocumentDiff(t, fromLabel, toLabel, a', b')
    requires AgreeOffSecrets(Obj(a), Obj(a')) && AgreeOffSecrets(Obj(b), Obj(b'))
    ensures s == t
  {
    hide AgreeOffSecrets, Redact, DocumentText, UnifiedDiff.DiffLines, UnifiedDiff.PrintsMinimalHunks, UnifiedDiff.Rebuilds;
    RedactEqualIffAgree(Obj(a), Obj(a'));
    RedactEqualIffAgree(Obj(b), Obj(b'));
    RedactEqualIffAgree(Obj(a), Obj(b));
    RedactEqualIffAgree(Obj(a'), Obj(b'));
    if !AgreeOffSecrets(Obj(a), Obj(b)) {
      UnifiedDiff.PrintedTextIsUnique(s, t, fromLabel, toLabel, ShownLines(a), ShownLines(b));
    }
  }
}
