/**
 Lines and values of the INI form of a configuration: comments, quoting, key/value lines and
 section headers.
 */
module IniText {
  import opened Text
  import opened IniQuoting

  // ----- comments -----

  /** Where an inline comment starts, scanning from i with the two quote flags. */
  function CommentAt(v: string, i: nat, inSingle: bool, inDouble: bool): (r: Option<nat>)
    requires i <= |v|
    ensures r.Some? ==> i <= r.value < |v|
    decreases |v| - i
  {
    if i == |v| then None
    else if v[i] == '\'' then CommentAt(v, i + 1, if inDouble then inSingle else !inSingle, inDouble)
    else if v[i] == '"' then CommentAt(v, i + 1, inSingle, if inSingle then inDouble else !inDouble)
    else if (v[i] == '#' || v[i] == ';') && !inSingle && !inDouble && (i == 0 || IsSpace(v[i - 1])) then Some(i)
    else CommentAt(v, i + 1, inSingle, inDouble)
  }

  function Stripped(v: string): (r: string) {
    match CommentAt(v, 0, false, false)
    case None => v
    case Some(i) => TrimRight(v[..i])
  }

  // ----- where comments start, without flags -----

  /** No quote is open at i: each quote that was opened outside quotes has its like behind it. */
  ghost predicate Outside(v: string, i: int)
    requires 0 <= i <= |v|
    decreases i
  {
    forall k :: 0 <= k < i && (v[k] == '\'' || v[k] == '"') && Outside(v, k) ==> v[k] in v[k + 1..i]
  }

  /** A mark outside quotes, at the start or behind white space. */
  ghost predicate StartsComment(v: string, i: int) {
    0 <= i < |v| && (v[i] == '#' || v[i] == ';') && Outside(v, i) && (i == 0 || IsSpace(v[i - 1]))
  }

  /** What is left of a value: all before its first comment, without the white space there. */
  ghost predicate IsStripped(v: string, r: string) {
    if exists i :: StartsComment(v, i) then
      exists i :: StartsComment(v, i) && (forall k :: 0 <= k < i ==> !StartsComment(v, k)) && r == TrimRight(v[..i])
    else r == v
  }

  /** The quote q, opened outside quotes at k, is still open at i. */
  ghost predicate OpenSince(v: string, i: int, q: char, k: int) {
    0 <= k < i <= |v| && v[k] == q && (q == '\'' || q == '"') && Outside(v, k) && q !in v[k + 1..i]
  }

  ghost predicate FlagsFit(v: string, i: int, inSingle: bool, inDouble: bool) {
    && 0 <= i <= |v|
    && (!inSingle && !inDouble ==> Outside(v, i))
    && (inSingle ==> !inDouble && exists k :: OpenSince(v, i, '\'', k))
    && (inDouble ==> exists k :: OpenSince(v, i, '"', k))
  }

  lemma OpenIsInside(v: string, i: int, q: char, k: int)
    requires OpenSince(v, i, q, k)
    ensures !Outside(v, i)
  {
  }

  lemma StaysOutside(v: string, i: int)
    requires 0 <= i < |v| && Outside(v, i) && v[i] != '\'' && v[i] != '"'
    ensures Outside(v, i + 1)
  {
    forall k | 0 <= k < i + 1 && (v[k] == '\'' || v[k] == '"') && Outside(v, k)
      ensures v[k] in v[k + 1..i + 1]
    {
      assert v[k + 1..i + 1] == v[k + 1..i] + [v[i]];
    }
  }

  lemma StaysOpen(v: string, i: int, q: char, k: int)
    requires i < |v| && OpenSince(v, i, q, k) && v[i] != q
    ensures OpenSince(v, i + 1, q, k)
  {
    assert v[k + 1..i + 1] == v[k + 1..i] + [v[i]];
  }

  lemma InLonger(v: string, c: char, a: int, b: int, e: int)
    requires 0 <= a <= b <= e <= |v| && c in v[a..b]
    ensures c in v[a..e]
  {
    assert v[a..e] == v[a..b] + v[b..e];
  }

  lemma EarlierIsClosed(v: string, k: int, j: int)
    requires 0 <= j < k <= |v| && Outside(v, k) && (v[j] == '\'' || v[j] == '"') && Outside(v, j)
    ensures v[j] in v[j + 1..k]
  {
  }

  lemma Closes(v: string, i: int, q: char, k: int)
    requires i < |v| && OpenSince(v, i, q, k) && v[i] == q
    ensures Outside(v, i + 1)
  {
    forall j | 0 <= j < i + 1 && (v[j] == '\'' || v[j] == '"') && Outside(v, j)
      ensures v[j] in v[j + 1..i + 1]
    {
      IsClosed(v, i, q, k, j);
    }
  }

  lemma IsClosed(v: string, i: int, q: char, k: int, j: int)
    requires i < |v| && OpenSince(v, i, q, k) && v[i] == q
    requires 0 <= j <= i && (v[j] == '\'' || v[j] == '"') && Outside(v, j)
    ensures v[j] in v[j + 1..i + 1]
  {
    hide Outside;
    if j < k {
      EarlierIsClosed(v, k, j);
      InLonger(v, v[j], j + 1, k, i + 1);
    } else if j == k {
      assert v[j + 1..i + 1][i - j - 1] == q;
    } else {
      if q in v[k + 1..j] {
        InLonger(v, q, k + 1, j, i);
      }
      OpenIsInside(v, j, q, k);
    }
  }

  lemma FlagsStep(v: string, i: int, inSingle: bool, inDouble: bool)
    requires FlagsFit(v, i, inSingle, inDouble) && i < |v|
    ensures FlagsFit(v, i + 1, if v[i] == '\'' && !inDouble then !inSingle else inSingle,
                     if v[i] == '"' && !inSingle then !inDouble else inDouble)
  {
    hide Outside;
    if inSingle || inDouble {
      var q := if inSingle then '\'' else '"';
      var k :| OpenSince(v, i, q, k);
      if v[i] == q {
        Closes(v, i, q, k);
      } else {
        StaysOpen(v, i, q, k);
      }
    } else if v[i] == '\'' || v[i] == '"' {
      assert OpenSince(v, i + 1, v[i], i);
    } else {
      StaysOutside(v, i);
    }
  }

  lemma FlagsTell(v: string, i: int, inSingle: bool, inDouble: bool)
    requires FlagsFit(v, i, inSingle, inDouble)
    ensures Outside(v, i) <==> !inSingle && !inDouble
  {
    hide Outside;
    if inSingle || inDouble {
      var q := if inSingle then '\'' else '"';
      var k :| OpenSince(v, i, q, k);
      OpenIsInside(v, i, q, k);
    }
  }

  /** The scan with its flags finds the first place where a comment starts. */
  lemma {:induction false} CommentAtIs(v: string, i: nat, inSingle: bool, inDouble: bool)
    requires FlagsFit(v, i, inSingle, inDouble)
    ensures var r := CommentAt(v, i, inSingle, inDouble);
      && (r.Some? ==> StartsComment(v, r.value))
      && (forall k :: i <= k < (if r.Some? then r.value else |v|) ==> !StartsComment(v, k))
    decreases |v| - i
  {
    hide Outside, FlagsFit;
    if i < |v| {
      FlagsStep(v, i, inSingle, inDouble);
      FlagsTell(v, i, inSingle, inDouble);
      var inSingle' := if v[i] == '\'' && !inDouble then !inSingle else inSingle;
      var inDouble' := if v[i] == '"' && !inSingle then !inDouble else inDouble;
      CommentAtIs(v, i + 1, inSingle', inDouble');
    }
  }

  lemma CommentIs(v: string)
    ensures var r := CommentAt(v, 0, false, false);
      && (r.Some? ==> StartsComment(v, r.value))
      && (forall k :: 0 <= k < (if r.Some? then r.value else |v|) ==> !StartsComment(v, k))
  {
    CommentAtIs(v, 0, false, false);
  }

  lemma StrippedIs(v: string)
    ensures IsStripped(v, Stripped(v))
  {
    hide StartsComment, CommentAt, TrimRight;
    CommentIs(v);
    if CommentAt(v, 0, false, false).None? {
      forall k
        ensures !StartsComment(v, k)
      {
        OnlyInside(v, k);
      }
    }
  }

  lemma OnlyInside(v: string, k: int)
    ensures StartsComment(v, k) ==> 0 <= k < |v|
  {
  }

  /** The loop over a value with its two quote flags. */
  method StripInlineComment(value: string) returns (r: string)
    ensures r == Stripped(value) && IsStripped(value, r)
  {
    StrippedIs(value);
    var inSingleQuote, inDoubleQuote := false, false;
    for i := 0 to |value|
      invariant CommentAt(value, 0, false, false) == CommentAt(value, i, inSingleQuote, inDoubleQuote)
    {
      var c := value[i];
      if c == '\'' {
        if !inDoubleQuote {
          inSingleQuote := !inSingleQuote;
        }
      } else if c == '"' {
        if !inSingleQuote {
          inDoubleQuote := !inDoubleQuote;
        }
      } else if c == '#' || c == ';' {
        if inSingleQuote || inDoubleQuote {
          continue;
        }
        if i == 0 || IsSpace(value[i - 1]) {
          return TrimRight(value[..i]);
        }
      }
    }
    return value;
  }

  // ----- values -----

  function Unwrap(sc: Strconv, v: string): (r: string) {
    if !Wrapped(v) then v else
      match sc.unquote(v)
      case Some(u) => u
      case None => v[1..|v| - 1]
  }

  /** The value of what stands behind the equals sign. */
  function ParseValue(sc: Strconv, raw: string): (r: string) {
    Unwrap(sc, Trim(Stripped(raw)))
  }

  predicate NeedsQuotes(t: string) {
    '\n' in t || HasPrefix(t, " ") || HasSuffix(t, " ")
  }

  function FormatText(sc: Strconv, t: string): (r: string) {
    if t == "" then "\"\"" else if NeedsQuotes(t) then Quote(sc, t) else t
  }

  /** Unquoted text that reads as itself: no padding, no comment in it, no quotes around it. */
  predicate ReadsAsItself(t: string) {
    Trimmed(t) && CommentAt(" " + t, 0, false, false).None? && !Wrapped(t)
  }

  lemma UnwrapShrinks(sc: Strconv, v: string)
    requires Lawful(sc)
    ensures |Unwrap(sc, v)| <= |v| && Ink(Unwrap(sc, v)) <= Ink(v)
    ensures Wrapped(v) ==> |Unwrap(sc, v)| < |v| && Ink(Unwrap(sc, v)) < Ink(v)
  {
    hide Decodes, Plain, Ink;
    if Wrapped(v) {
      var w := v[1..|v| - 1];
      QuotesAreInk(v);
      if sc.unquote(v).Some? {
        DecodesLess(w, sc.unquote(v).value, v[0]);
      }
    }
  }

  lemma QuotesAreInk(v: string)
    requires Wrapped(v)
    ensures Ink(v[1..|v| - 1]) + 2 == Ink(v)
  {
    var w, last := v[1..|v| - 1], v[|v| - 1..];
    assert v[1..] == w + last && last[1..] == [];
    InkConcat(w, last);
    assert Ink(last) == 1;
  }

  /** The exact domain of the unquoted form: any other text comes back shorter. */
  lemma UnquotedTextIff(sc: Strconv, t: string)
    requires Lawful(sc)
    ensures ParseValue(sc, " " + t) == t <==> ReadsAsItself(t)
  {
    hide Lawful, TrimRight, TrimLeft, Trim, CommentAt;
    var raw := " " + t;
    var v := Trim(Stripped(raw));
    UnwrapShrinks(sc, v);
    match CommentAt(raw, 0, false, false)
    case None =>
      PaddedTrim(t);
      TrimOfTrimmed(t);
      TrimShrinks(t);
    case Some(i) =>
      CommentShrinks(t, i);
  }

  lemma PaddedTrim(t: string)
    ensures Trim(" " + t) == Trim(t)
  {
    hide TrimLeft, TrimRight, Trim;
    var left, right := TrimParts(t);
    assert AllSpace(" " + left);
    assert " " + t == (" " + left) + Trim(t) + right;
    TrimUnique(" " + left, Trim(t), right);
  }

  lemma TrimShrinks(t: string)
    ensures |Trim(t)| <= |t|
    ensures |Trim(t)| == |t| ==> Trim(t) == t
  {
    hide TrimLeft, TrimRight, Trim;
    var left, right := TrimParts(t);
  }

  lemma CommentShrinks(t: string, i: nat)
    requires CommentAt(" " + t, 0, false, false) == Some(i)
    ensures i <= |t| && |Trim(TrimRight((" " + t)[..i]))| < |t|
  {
    hide TrimLeft, TrimRight, Trim;
    var raw := " " + t;
    assert i > 0 by {
      assert raw[0] == ' ';
    }
    var cut := TrimRight(raw[..i]);
    TrimRightParts(raw[..i]);
    TrimShrinks(cut);
    if |cut| == |t| {
      assert cut == raw[..i] && cut[0] == ' ';
      TrimOfTrimmed(cut);
    }
  }

  lemma QuoteShape(sc: Strconv, t: string)
    requires Lawful(sc)
    ensures var q := Quote(sc, t);
      && |q| >= 2 && q[0] == '"' && q[|q| - 1] == '"' && Wrapped(q) && Trimmed(q) && Without(q, '\n')
      && q[1..|q| - 1] == Escaped(sc, t)
  {
    hide Decodes, Plain, Escaped;
    EscapedHasNoNewline(sc, t);
  }

  /** Quoted text comes back unless the scanner sees a comment in it. */
  lemma QuotedTextReturns(sc: Strconv, t: string)
    requires Lawful(sc) && CommentAt(" " + Quote(sc, t), 0, false, false).None?
    ensures ParseValue(sc, " " + Quote(sc, t)) == t
  {
    hide TrimLeft, TrimRight, Trim, CommentAt, Quote, Decodes, Plain;
    QuoteShape(sc, t);
    PaddedTrim(Quote(sc, t));
    TrimOfTrimmed(Quote(sc, t));
  }

  /** What is left of a quoted text that is cut at a comment. */
  lemma CutQuote(q: string, i: nat) returns (v: string)
    requires |q| >= 2 && q[0] == '"' && CommentAt(" " + q, 0, false, false) == Some(i)
    ensures v == Trim(TrimRight((" " + q)[..i])) && v != [] && |v| < |q| && q[..|v|] == v && Trimmed(v)
  {
    hide TrimLeft, TrimRight, Trim;
    var raw := " " + q;
    assert raw[0] == ' ' && raw[1] == '"';
    assert i >= 2;
    var part := q[..i - 1];
    assert raw[..i] == " " + part;
    var cut := TrimRight(raw[..i]);
    TrimRightParts(raw[..i]);
    v := Trim(cut);
    assert raw[..i] == cut + raw[..i][|cut|..];
    TrimRightKeepsTrim(raw[..i]);
    PaddedTrim(part);
    var left, right := TrimParts(part);
    assert part[0] == '"';
    if left != [] {
      assert false;
    }
    assert part == v + right;
    assert v != [];
  }

  lemma TrimRightKeepsTrim(s: string)
    ensures Trim(TrimRight(s)) == Trim(s)
  {
    hide TrimLeft, Trim;
    var r := TrimRight(s);
    TrimRightParts(s);
    var left, right := TrimParts(r);
    var more := s[|r|..];
    assert s == left + Trim(r) + (right + more);
    TrimUnique(left, Trim(r), right + more);
  }

  /** A text that needs quotes and is cut at a comment does not come back. */
  lemma CutQuoteIsLost(sc: Strconv, t: string)
    requires Lawful(sc) && NeedsQuotes(t) && CommentAt(" " + Quote(sc, t), 0, false, false).Some?
    ensures ParseValue(sc, " " + Quote(sc, t)) != t
  {
    hide TrimLeft, TrimRight, Trim, CommentAt, Quote, Decodes, Plain;
    var q := Quote(sc, t);
    var i := CommentAt(" " + q, 0, false, false).value;
    QuoteShape(sc, t);
    var v := CutQuote(q, i);
    assert ParseValue(sc, " " + q) == Unwrap(sc, v);
    PrefixIsNotPadded(q, v, t);
    if Wrapped(v) {
      assert v[0] == q[..|v|][0] == '"';
      PrefixInside(sc, t, v);
    }
  }

  lemma PrefixIsNotPadded(q: string, v: string, t: string)
    requires v != [] && |v| <= |q| && q[..|v|] == v && Trimmed(v) && Without(q, '\n') && NeedsQuotes(t)
    ensures v != t
  {
    assert forall k :: 0 <= k < |v| ==> v[k] == q[..|v|][k] == q[k];
    if HasPrefix(t, " ") {
      assert t[0] == t[..1][0] == ' ';
    }
    if HasSuffix(t, " ") {
      assert t[|t| - 1] == t[|t| - 1..][0] == ' ';
    }
  }

  /** Neither decoding nor stripping the quotes of such a part gives the text. */
  lemma PrefixInside(sc: Strconv, t: string, v: string)
    requires Lawful(sc) && |v| < |Quote(sc, t)| && Quote(sc, t)[..|v|] == v && Wrapped(v) && v[0] == '"'
    ensures sc.unquote(v).None? && v[1..|v| - 1] != t
  {
    hide Decodes, Plain, Quote, Escaped, WellEscaped;
    var q, e, w := Quote(sc, t), Escaped(sc, t), v[1..|v| - 1];
    QuoteShape(sc, t);
    EscapedIsWellEscaped(sc, t);
    assert |w| < |e| && e == q[1..|q| - 1];
    assert e[..|w|] == q[1..1 + |w|] == q[..|v|][1..1 + |w|] == w;
    assert e[|w|] == q[|w| + 1] == q[..|v|][|v| - 1] == v[|v| - 1] == '"';
    if sc.unquote(v).Some? {
      DecodesIsWellEscaped(w, sc.unquote(v).value, '"');
      NoBareQuote(w, e);
      assert false;
    }
    if w == t {
      OriginalThenBackslash(sc, t);
      assert false;
    }
  }

  lemma NoCommentInQuotes(q: string)
    requires |q| >= 2 && q[0] == '"' && q[|q| - 1] == '"'
    requires forall i :: 0 < i < |q| - 1 ==> q[i] != '"'
    ensures CommentAt(" " + q, 0, false, false).None?
  {
    var v := " " + q;
    assert v[0] == ' ' && v[1] == '"' && v[|v| - 1] == '"';
    InsideQuotes(v, 2);
  }

  lemma {:induction false} InsideQuotes(v: string, i: nat)
    requires 2 <= i < |v| && v[|v| - 1] == '"'
    requires forall k :: 2 <= k < |v| - 1 ==> v[k] != '"'
    ensures CommentAt(v, i, false, true).None?
    decreases |v| - i
  {
    if i < |v| - 1 {
      InsideQuotes(v, i + 1);
    }
  }

  lemma {:induction false} NoCommentInPlain(v: string, i: nat)
    requires i <= |v| && forall k :: i <= k < |v| ==> IsPlainChar(v[k])
    ensures CommentAt(v, i, false, false).None?
    decreases |v| - i
  {
    if i < |v| {
      NoCommentInPlain(v, i + 1);
    }
  }

  /** Plain text, such as a printed number, reads as itself. */
  lemma PlainReadsAsItself(t: string)
    requires Plain(t)
    ensures ReadsAsItself(t) && Without(t, '\n')
  {
    var v := " " + t;
    assert CommentAt(v, 0, false, false) == CommentAt(v, 1, false, false);
    forall k | 1 <= k < |v|
      ensures IsPlainChar(v[k])
    {
      assert v[k] == t[k - 1];
    }
    NoCommentInPlain(v, 1);
  }

  /**
   Texts that the printer writes so that the parser reads them back: quoted ones in whose quoted
   form the scanner sees no comment, unquoted ones that read as themselves.
   */
  predicate SafeText(sc: Strconv, t: string) {
    t == "" || (if NeedsQuotes(t) then CommentAt(" " + Quote(sc, t), 0, false, false).None? else ReadsAsItself(t))
  }

  /** Exactly the safe texts come back. */
  lemma TextReturnsIff(sc: Strconv, t: string)
    requires Lawful(sc)
    ensures ParseValue(sc, " " + FormatText(sc, t)) == t <==> SafeText(sc, t)
  {
    hide Lawful, ParseValue, ReadsAsItself, CommentAt, Quote;
    if t == "" {
      EmptyTextReturns(sc);
    } else if !NeedsQuotes(t) {
      UnquotedTextIff(sc, t);
    } else if SafeText(sc, t) {
      QuotedTextReturns(sc, t);
    } else {
      CutQuoteIsLost(sc, t);
    }
  }

  /** A text with a newline or an outer space, and no double quote, is safe, whatever else it holds. */
  lemma NoQuoteIsSafe(sc: Strconv, t: string)
    requires Lawful(sc) && t != "" && ('\n' in t || t[0] == ' ' || t[|t| - 1] == ' ') && Without(t, '"')
    ensures SafeText(sc, t)
  {
    assert t[..1] == [t[0]] && t[|t| - 1..] == [t[|t| - 1]];
    assert NeedsQuotes(t);
    hide Decodes, Plain, Quote, CommentAt, Escaped, NeedsQuotes;
    EscapedHasNoQuote(sc, t);
    QuoteShape(sc, t);
    var q := Quote(sc, t);
    assert forall i :: 0 < i < |q| - 1 ==> q[i] == q[1..|q| - 1][i - 1];
    NoCommentInQuotes(q);
  }

  /** The printed form of a text stays on one line. */
  lemma TextIsOneLine(sc: Strconv, t: string)
    requires Lawful(sc)
    ensures Without(FormatText(sc, t), '\n') && FormatText(sc, t) != []
  {
    hide Lawful, Quote;
    QuoteShape(sc, t);
  }

  lemma EmptyTextReturns(sc: Strconv)
    requires Lawful(sc)
    ensures ParseValue(sc, " " + "\"\"") == ""
  {
    hide Lawful, CommentAt, Trim;
    var q := "\"\"";
    NoCommentInQuotes(q);
    PaddedTrim(q);
    TrimOfTrimmed(q);
    UnwrapShrinks(sc, q);
    assert |Unwrap(sc, q)| == 0 by {
      QuotesUnwrapToNothing(sc, q);
    }
  }

  lemma QuotesUnwrapToNothing(sc: Strconv, q: string)
    requires Lawful(sc) && |q| == 2 && Wrapped(q)
    ensures |Unwrap(sc, q)| == 0
  {
  }

  // ----- lines -----

  function FirstIndex(s: string, c: char): (r: Option<nat>)
    ensures r.Some? ==> r.value < |s| && s[r.value] == c && forall k :: 0 <= k < r.value ==> s[k] != c
    ensures r.None? ==> Without(s, c)
  {
    if s == [] then None else if s[0] == c then Some(0) else
      match FirstIndex(s[1..], c)
      case None => None
      case Some(i) => Some(i + 1)
  }

  function ParseKeyValue(sc: Strconv, line: string): (r: Option<(string, string)>) {
    match FirstIndex(line, '=')
    case None => None
    case Some(i) =>
      var key := ToLower(Trim(line[..i]));
      if key == "" then None else Some((key, ParseValue(sc, line[i + 1..])))
  }

  function ParseSectionHeader(line: string): (r: Option<string>) {
    if !HasPrefix(line, "[") || !HasSuffix(line, "]") || |line| < 2 then None else
      var section := Trim(line[1..|line| - 1]);
      if section == "" then None else Some(section)
  }

  /** The section a header selects, and the name behind its colon. */
  function ClassifySection(section: string): (r: (string, string)) {
    var lower := ToLower(section);
    if HasPrefix(lower, "route:") then ("route", Trim(section[6..]))
    else if HasPrefix(lower, "policy:") then ("policy", Trim(section[7..]))
    else if HasPrefix(lower, "user:") then ("user", Trim(section[5..]))
    else (lower, "")
  }

  /** The names of sections and keys: lower-case letters and underscores. */
  predicate IsName(s: string) {
    s != [] && forall i :: 0 <= i < |s| ==> 'a' <= s[i] <= 'z' || s[i] == '_'
  }

  lemma NameFacts(s: string)
    requires IsName(s)
    ensures Trimmed(s) && ToLower(s) == s && Without(s, '=') && Without(s, '\n') && Without(s, ':')
    ensures s[0] != '#' && s[0] != ';' && s[0] != '['
  {
  }

  function KeyLine(key: string, value: string): (line: string) {
    key + " = " + value
  }

  lemma {:induction false} NoCommentInSpace(v: string, right: string, i: nat, inSingle: bool, inDouble: bool)
    requires i <= |v| && AllSpace(right)
    ensures CommentAt(v + right, i, inSingle, inDouble) == CommentAt(v, i, inSingle, inDouble)
    decreases |v| - i
  {
    if i == |v| {
      OnlySpaceLeft(v + right, i, inSingle, inDouble);
    } else {
      NoCommentInSpace(v, right, i + 1, inSingle, inDouble);
      NoCommentInSpace(v, right, i + 1, !inSingle, inDouble);
      NoCommentInSpace(v, right, i + 1, inSingle, !inDouble);
    }
  }

  lemma {:induction false} OnlySpaceLeft(v: string, i: nat, inSingle: bool, inDouble: bool)
    requires i <= |v| && forall k :: i <= k < |v| ==> IsSpace(v[k])
    ensures CommentAt(v, i, inSingle, inDouble).None?
    decreases |v| - i
  {
    if i < |v| {
      assert IsSpace(v[i]);
      OnlySpaceLeft(v, i + 1, inSingle, inDouble);
    }
  }

  /** Trailing white space does not change a value. */
  lemma SpaceBehindValue(sc: Strconv, v: string, right: string)
    requires AllSpace(right)
    ensures ParseValue(sc, v + right) == ParseValue(sc, v)
  {
    hide CommentAt, Trim, TrimLeft, TrimRight, Unwrap;
    NoCommentInSpace(v, right, 0, false, false);
    match CommentAt(v, 0, false, false)
    case None =>
      var left, more := TrimParts(v);
      assert v + right == left + Trim(v) + (more + right);
      TrimUnique(left, Trim(v), more + right);
    case Some(i) => assert (v + right)[..i] == v[..i];
  }

  /** What stands behind the equals sign of a printed key line, as the parser takes it. */
  function ReadBack(sc: Strconv, printed: string): (r: string) {
    ParseValue(sc, if printed == "" then "" else " " + printed)
  }

  /** A printed key line is read as its key and value, not as a comment, blank or header. */
  lemma KeyLineReads(sc: Strconv, key: string, value: string)
    requires IsName(key)
    ensures var line := Trim(KeyLine(key, value));
      && line != "" && !HasPrefix(line, "#") && !HasPrefix(line, ";") && ParseSectionHeader(line).None?
      && ParseKeyValue(sc, line) == Some((key, ReadBack(sc, value)))
  {
    hide Trim, ParseKeyValue, ParseValue;
    NameFacts(key);
    var kept := TrimRight(value);
    TrimRightParts(value);
    var gap := value[|kept|..];
    assert value == kept + gap;
    var raw := if kept == "" then "" else " " + kept;
    KeyLineTrimmed(key, value, kept, gap);
    ValuePart(sc, value, kept, gap);
    KeyValueOf(sc, key, raw);
    assert (key + " =" + raw)[0] == key[0];
  }

  lemma KeyLineTrimmed(key: string, value: string, kept: string, gap: string)
    requires IsName(key) && value == kept + gap && AllSpace(gap) && (kept == "" || !IsSpace(kept[|kept| - 1]))
    ensures Trim(KeyLine(key, value)) == key + " =" + if kept == "" then "" else " " + kept
  {
    hide Trim;
    NameFacts(key);
    var line := key + " =" + if kept == "" then "" else " " + kept;
    var right := (if kept == "" then " " else "") + gap;
    assert KeyLine(key, value) == "" + line + right;
    TrimUnique("", line, right);
  }

  lemma KeyValueOf(sc: Strconv, key: string, raw: string)
    requires IsName(key)
    ensures ParseKeyValue(sc, key + " =" + raw) == Some((key, ParseValue(sc, raw)))
  {
    hide Trim, ParseValue;
    NameFacts(key);
    var line, i := key + " =" + raw, |key| + 1;
    assert line[i + 1..] == raw && line[..i] == "" + key + " ";
    TrimUnique("", key, " ");
    FirstEquals(key, raw);
  }

  lemma ValuePart(sc: Strconv, value: string, kept: string, gap: string)
    requires value == kept + gap && AllSpace(gap)
    ensures ParseValue(sc, if kept == "" then "" else " " + kept) == ReadBack(sc, value)
  {
    hide ParseValue;
    if kept == "" {
      if value != "" {
        assert " " + value == "" + (" " + gap);
        SpaceBehindValue(sc, "", " " + gap);
      }
    } else {
      assert " " + value == (" " + kept) + gap;
      SpaceBehindValue(sc, " " + kept, gap);
    }
  }

  lemma FirstEquals(key: string, raw: string)
    requires Without(key, '=')
    ensures FirstIndex(key + " =" + raw, '=') == Some(|key| + 1)
  {
    var line := key + " =" + raw;
    assert line[|key| + 1] == '=';
    assert forall k :: 0 <= k < |key| ==> line[k] == key[k];
    assert line[|key|] == ' ';
  }

  function Header(section: string): (line: string) {
    "[" + section + "]"
  }

  lemma HeaderReads(section: string)
    requires Trim(section) != ""
    ensures var line := Trim(Header(section));
      && line != "" && !HasPrefix(line, "#") && !HasPrefix(line, ";")
      && ParseSectionHeader(line) == Some(Trim(section))
  {
    hide TrimLeft, TrimRight, Trim;
    var line := Header(section);
    TrimOfTrimmed(line);
    assert line[1..|line| - 1] == section;
    assert line[..1] == "[" && line[|line| - 1..] == "]";
  }
}
