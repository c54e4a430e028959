/**
 The number and quoting functions of the standard library that the INI codec calls, with what the
 library documents about them.  Strings are sequences of characters: bytes that are not valid text
 are outside this model.
 */
module IniQuoting {
  import opened Text

  /**
   `escape` is how quoting writes one character, `unquote` reads a quoted literal, `isFloat` tells
   which numbers are 64-bit floats.
   */
  datatype Strconv = Strconv(
    escape: char -> string,
    unquote: string -> Option<string>,
    isFloat: real -> bool,
    formatFloat: real -> string,
    parseFloat: string -> Option<real>,
    truncate: real -> int)

  /** Characters that neither quote, comment, pad nor end a value. */
  predicate IsPlainChar(c: char) {
    !IsSpace(c) && c != '#' && c != ';' && c != '"' && c != '\''
  }

  ghost predicate Plain(s: string) {
    s != [] && forall i :: 0 <= i < |s| ==> IsPlainChar(s[i])
  }

  // ----- quoting -----

  function Escaped(sc: Strconv, t: string): (r: string) {
    if t == [] then [] else sc.escape(t[0]) + Escaped(sc, t[1..])
  }

  function Quote(sc: Strconv, t: string): (r: string) {
    "\"" + Escaped(sc, t) + "\""
  }

  predicate Wrapped(v: string) {
    |v| >= 2 && ((v[0] == '"' && v[|v| - 1] == '"') || (v[0] == '\'' && v[|v| - 1] == '\''))
  }

  /** The letters and digits of an escape behind its first letter. */
  ghost predicate IsTail(s: string) {
    forall i :: 0 <= i < |s| ==> IsPlainChar(s[i]) && s[i] != '\\' && s[i] != ','
  }

  /** What follows the backslash of an escape: one visible character, or several letters and digits. */
  ghost predicate IsEscape(s: string) {
    s != [] && !IsSpace(s[0]) && s[0] != ',' && (|s| > 1 ==> IsTail(s))
  }

  /** A quote and a backslash are escaped by a backslash; others stand for themselves or are escaped. */
  ghost predicate IsEscapeOf(c: char, e: string) {
    if c == '"' || c == '\\' then e == ['\\', c]
    else (e == [c] && c != '\n') || (|e| >= 2 && e[0] == '\\' && IsTail(e[1..]))
  }

  /** The inside w of a literal with quotes q stands for u, character by character. */
  ghost predicate Decodes(w: string, u: string, q: char)
    decreases |w|
  {
    if w == [] then u == []
    else if w[0] == '\\' then u != [] && exists n :: 2 <= n <= |w| && IsEscape(w[1..n]) && Decodes(w[n..], u[1..], q)
    else w[0] != q && u != [] && u[0] == w[0] && Decodes(w[1..], u[1..], q)
  }

  /** What the library documents about those functions. */
  ghost predicate Lawful(sc: Strconv) {
    && (forall c :: IsEscapeOf(c, sc.escape(c)))
    && (forall t :: sc.unquote(Quote(sc, t)) == Some(t))
    && (forall v :: Wrapped(v) && sc.unquote(v).Some? ==> Decodes(v[1..|v| - 1], sc.unquote(v).value, v[0]))
    && (forall r :: sc.isFloat(r) ==> sc.parseFloat(sc.formatFloat(r)) == Some(r) && Plain(sc.formatFloat(r)))
  }

  // ----- scanning escapes -----

  /** A backslash takes the next character with it, and no bare quote stands inside. */
  ghost predicate WellEscaped(w: string, q: char)
    decreases |w|
  {
    if w == [] then true
    else if w[0] == '\\' then |w| >= 2 && WellEscaped(w[2..], q)
    else w[0] != q && WellEscaped(w[1..], q)
  }

  lemma {:induction false} TailIsWellEscaped(tail: string, rest: string, q: char)
    requires IsTail(tail) && WellEscaped(rest, q) && (q == '"' || q == '\'')
    ensures WellEscaped(tail + rest, q)
    decreases |tail|
  {
    if tail == [] {
      assert tail + rest == rest;
    } else {
      assert IsPlainChar(tail[0]);
      TailIsWellEscaped(tail[1..], rest, q);
      assert (tail + rest)[1..] == tail[1..] + rest;
    }
  }

  lemma {:induction false} DecodesIsWellEscaped(w: string, u: string, q: char)
    requires Decodes(w, u, q) && (q == '"' || q == '\'')
    ensures WellEscaped(w, q)
    decreases |w|
  {
    if w != [] {
      if w[0] == '\\' {
        var n :| 2 <= n <= |w| && IsEscape(w[1..n]) && Decodes(w[n..], u[1..], q);
        DecodesIsWellEscaped(w[n..], u[1..], q);
        var tail := w[2..n];
        assert forall i :: 0 <= i < |tail| ==> tail[i] == w[1..n][i + 1];
        TailIsWellEscaped(tail, w[n..], q);
        assert w[2..] == tail + w[n..];
      } else {
        DecodesIsWellEscaped(w[1..], u[1..], q);
      }
    }
  }

  lemma {:induction false} EscapedIsWellEscaped(sc: Strconv, t: string)
    requires forall c :: IsEscapeOf(c, sc.escape(c))
    ensures WellEscaped(Escaped(sc, t), '"')
  {
    if t != [] {
      EscapedIsWellEscaped(sc, t[1..]);
      var e, rest := sc.escape(t[0]), Escaped(sc, t[1..]);
      assert IsEscapeOf(t[0], e);
      if e[0] == '\\' {
        var tail := e[2..];
        assert (e + rest)[2..] == tail + rest;
        assert forall i :: 0 <= i < |tail| ==> tail[i] == e[1..][i + 1];
        TailIsWellEscaped(tail, rest, '"');
      } else {
        assert (e + rest)[1..] == rest;
      }
    }
  }

  /** A well-escaped text cannot go on with a bare quote behind a well-escaped part. */
  lemma {:induction false} NoBareQuote(w: string, e: string)
    requires WellEscaped(w, '"') && WellEscaped(e, '"') && |w| < |e| && e[..|w|] == w
    ensures e[|w|] != '"'
    decreases |w|
  {
    if w != [] {
      assert w[0] == e[..|w|][0] == e[0];
      var k := if w[0] == '\\' then 2 else 1;
      assert e[k..][..|w| - k] == e[..|w|][k..] == w[k..];
      NoBareQuote(w[k..], e[k..]);
    }
  }

  ghost predicate AllBackslash(s: string) {
    forall i :: 0 <= i < |s| ==> s[i] == '\\'
  }

  /** An escaped text that starts with backslashes and its own original goes on with a backslash. */
  lemma {:induction false} BackslashFollows(sc: Strconv, t: string, b: string)
    requires (forall c :: IsEscapeOf(c, sc.escape(c))) && b != [] && AllBackslash(b)
    requires var s := b + Escaped(sc, t); |t| < |s| && s[..|t|] == t
    ensures (b + Escaped(sc, t))[|t|] == '\\'
    decreases |t|
  {
    if t != [] {
      var s := b + Escaped(sc, t);
      assert t[0] == s[..|t|][0] == b[0];
      assert IsEscapeOf(t[0], sc.escape(t[0]));
      var more := b[1..] + ['\\', '\\'];
      assert s == b + (['\\', '\\'] + Escaped(sc, t[1..]));
      assert s[1..] == more + Escaped(sc, t[1..]);
      assert s[1..][..|t| - 1] == s[..|t|][1..] == t[1..];
      BackslashFollows(sc, t[1..], more);
      assert s[|t|] == s[1..][|t| - 1];
    }
  }

  /** So an escaped text that starts with its own original, and is longer, goes on with a backslash. */
  lemma {:induction false} OriginalThenBackslash(sc: Strconv, t: string)
    requires forall c :: IsEscapeOf(c, sc.escape(c))
    requires var e := Escaped(sc, t); |t| < |e| && e[..|t|] == t
    ensures Escaped(sc, t)[|t|] == '\\'
  {
    if t == [] {
      assert false;
    } else {
      var e, head, rest := Escaped(sc, t), sc.escape(t[0]), Escaped(sc, t[1..]);
      assert IsEscapeOf(t[0], head) && e == head + rest;
      assert e[0] == e[..|t|][0] == t[0];
      assert e[1..][..|t| - 1] == e[..|t|][1..] == t[1..];
      if head == [t[0]] {
        assert e[1..] == rest;
        OriginalThenBackslash(sc, t[1..]);
      } else {
        assert e[1..] == ['\\'] + rest;
        BackslashFollows(sc, t[1..], ['\\']);
      }
      assert e[|t|] == e[1..][|t| - 1];
    }
  }

  lemma {:induction false} EscapedHasNoNewline(sc: Strconv, t: string)
    requires forall c :: IsEscapeOf(c, sc.escape(c))
    ensures Without(Escaped(sc, t), '\n')
  {
    if t != [] {
      EscapedHasNoNewline(sc, t[1..]);
      var e := sc.escape(t[0]);
      assert IsEscapeOf(t[0], e);
      assert |e| >= 2 && t[0] != '"' && t[0] != '\\' ==> forall i :: 1 <= i < |e| ==> e[i] == e[1..][i - 1];
    }
  }

  /** A text without double quotes has none in its escaped form. */
  lemma {:induction false} EscapedHasNoQuote(sc: Strconv, t: string)
    requires (forall c :: IsEscapeOf(c, sc.escape(c))) && Without(t, '"')
    ensures Without(Escaped(sc, t), '"')
  {
    if t != [] {
      EscapedHasNoQuote(sc, t[1..]);
      var e := sc.escape(t[0]);
      assert IsEscapeOf(t[0], e);
      assert |e| >= 2 && t[0] != '\\' ==> forall i :: 1 <= i < |e| ==> e[i] == e[1..][i - 1];
    }
  }

  // ----- how much is written -----

  /** The number of characters that are neither white space nor commas. */
  function Ink(s: string): (n: nat) {
    if s == [] then 0 else (if IsSpace(s[0]) || s[0] == ',' then 0 else 1) + Ink(s[1..])
  }

  lemma {:induction false} InkConcat(a: string, b: string)
    ensures Ink(a + b) == Ink(a) + Ink(b)
  {
    if a == [] {
      assert a + b == b;
    } else {
      assert (a + b)[1..] == a[1..] + b;
      InkConcat(a[1..], b);
    }
  }

  lemma {:induction false} NoInkInSpace(s: string)
    requires AllSpace(s)
    ensures Ink(s) == 0
  {
    if s != [] {
      NoInkInSpace(s[1..]);
    }
  }

  lemma InkOfTrim(s: string)
    ensures Ink(Trim(s)) == Ink(s)
  {
    hide Trim, Ink;
    var left, right := TrimParts(s);
    InkConcat(left + Trim(s), right);
    InkConcat(left, Trim(s));
    NoInkInSpace(left);
    NoInkInSpace(right);
  }

  lemma {:induction false} InkOfPrefix(s: string, k: nat)
    requires k <= |s|
    ensures Ink(s[..k]) <= Ink(s)
    ensures k < |s| && !IsSpace(s[k]) && s[k] != ',' ==> Ink(s[..k]) < Ink(s)
  {
    assert s == s[..k] + s[k..];
    InkConcat(s[..k], s[k..]);
  }

  /** Decoding writes no more than it reads. */
  lemma {:induction false} DecodesLess(w: string, u: string, q: char)
    requires Decodes(w, u, q)
    ensures |u| <= |w| && Ink(u) <= Ink(w)
    decreases |w|
  {
    if w != [] {
      if w[0] == '\\' {
        var n :| 2 <= n <= |w| && IsEscape(w[1..n]) && Decodes(w[n..], u[1..], q);
        DecodesLess(w[n..], u[1..], q);
        assert w[1..] == w[1..n] + w[n..];
        InkConcat(w[1..n], w[n..]);
      } else {
        DecodesLess(w[1..], u[1..], q);
      }
    }
  }

  // ----- the laws can be met -----

  function SimpleEscape(c: char): (s: string) {
    if c == '"' || c == '\\' then ['\\', c] else if c == '\n' then "\\n" else [c]
  }

  function SimpleUnescape(w: string): (r: Option<string>)
    decreases |w|
  {
    if w == [] then Some([])
    else if w[0] == '\\' then
      if |w| < 2 || (w[1] != '"' && w[1] != '\\' && w[1] != 'n') then None else
        match SimpleUnescape(w[2..])
        case None => None
        case Some(u) => Some([if w[1] == 'n' then '\n' else w[1]] + u)
    else if w[0] == '"' then None else
      match SimpleUnescape(w[1..])
      case None => None
      case Some(u) => Some([w[0]] + u)
  }

  function SimpleUnquote(v: string): (r: Option<string>) {
    if |v| >= 2 && v[0] == '"' && v[|v| - 1] == '"' then SimpleUnescape(v[1..|v| - 1]) else None
  }

  /** Quoting of quotes, backslashes and newlines, and whole numbers as the only floats. */
  const SIMPLE := Strconv(
    SimpleEscape, SimpleUnquote,
    (r: real) => MIN_INT <= r.Floor <= MAX_INT && r == r.Floor as real,
    (r: real) => Itoa(r.Floor),
    (s: string) => match Atoi(s) case Some(n) => Some(n as real) case None => None,
    (r: real) => r.Floor)

  lemma {:induction false} SimpleReturns(t: string)
    ensures SimpleUnescape(Escaped(SIMPLE, t)) == Some(t)
  {
    if t != [] {
      SimpleReturns(t[1..]);
      var e, rest := SimpleEscape(t[0]), Escaped(SIMPLE, t[1..]);
      assert (e + rest)[|e|..] == rest;
      assert t == [t[0]] + t[1..];
    }
  }

  lemma {:induction false} SimpleDecodes(w: string)
    ensures SimpleUnescape(w).Some? ==> Decodes(w, SimpleUnescape(w).value, '"')
    decreases |w|
  {
    if w != [] && SimpleUnescape(w).Some? {
      var u := SimpleUnescape(w).value;
      if w[0] == '\\' {
        SimpleDecodes(w[2..]);
        assert w[1..2] == [w[1]] && u[1..] == SimpleUnescape(w[2..]).value;
        assert IsEscape(w[1..2]) && Decodes(w[2..], u[1..], '"');
      } else {
        SimpleDecodes(w[1..]);
        assert u[1..] == SimpleUnescape(w[1..]).value;
      }
    }
  }

  lemma SimpleFloats(r: real)
    requires SIMPLE.isFloat(r)
    ensures SIMPLE.parseFloat(SIMPLE.formatFloat(r)) == Some(r) && Plain(SIMPLE.formatFloat(r))
  {
    hide Itoa, ParseInt;
    ParseOfItoa(r.Floor);
    ItoaIsPlain(r.Floor);
  }

  lemma SimpleIsLawful()
    ensures Lawful(SIMPLE)
  {
    hide Itoa, Atoi, Plain;
    forall t
      ensures SIMPLE.unquote(Quote(SIMPLE, t)) == Some(t)
    {
      SimpleReturns(t);
      var q := Quote(SIMPLE, t);
      assert q[1..|q| - 1] == Escaped(SIMPLE, t);
    }
    forall v | Wrapped(v) && SIMPLE.unquote(v).Some?
      ensures Decodes(v[1..|v| - 1], SIMPLE.unquote(v).value, v[0])
    {
      SimpleDecodes(v[1..|v| - 1]);
    }
    forall r | SIMPLE.isFloat(r)
      ensures SIMPLE.parseFloat(SIMPLE.formatFloat(r)) == Some(r) && Plain(SIMPLE.formatFloat(r))
    {
      SimpleFloats(r);
    }
  }
}
