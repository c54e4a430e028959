/**
 JSON trees, the indented text that the encoder prints for them, with sorted keys, and a reader of
 JSON text as RFC 8259 describes it, which gets the tree back.
 */
module JsonText {
  import opened Text

  predicate IsNumberChar(c: char) {
    IsDigit(c) || c == '-' || c == '+' || c == '.' || c == 'e' || c == 'E'
  }

  /** A number is the text that the encoder prints for it. */
  type Number = s: string | s != [] && forall i :: 0 <= i < |s| ==> IsNumberChar(s[i]) witness "0"

  datatype Json =
    | Null
    | Bool(b: bool)
    | Num(n: Number)
    | Str(s: string)
    | Obj(fields: map<string, Json>)
    | Arr(items: seq<Json>)

  // ----- strings -----

  function HexDigit(n: nat): (c: char)
    requires n < 16
  {
    if n < 10 then ('0' as int + n) as char else ('a' as int + n - 10) as char
  }

  function Hex(n: nat): (s: string)
    requires n < 0x10000
    ensures |s| == 4
  {
    [HexDigit(n / 4096), HexDigit(n / 256 % 16), HexDigit(n / 16 % 16), HexDigit(n % 16)]
  }

  predicate IsHexEscaped(c: char) {
    c < ' ' || c == '<' || c == '>' || c == '&' || c == '\U{2028}' || c == '\U{2029}'
  }

  function EscapeChar(c: char): (s: string)
    ensures s != [] && s[0] != '"' && (|s| > 1 <==> s[0] == '\\')
  {
    if c == '"' then "\\\""
    else if c == '\\' then "\\\\"
    else if c == '\n' then "\\n"
    else if c == '\r' then "\\r"
    else if c == '\t' then "\\t"
    else if c == '\U{8}' then "\\b"
    else if c == '\U{c}' then "\\f"
    else if IsHexEscaped(c) then "\\u" + Hex(c as int)
    else [c]
  }

  /** Which characters stand for themselves, and which have a letter of their own. */
  lemma Escapes(c: char)
    ensures EscapeChar(c) == [c] <==>
      32 <= c as int && c != '"' && c != '\\' && c != '<' && c != '>' && c != '&' && c as int != 0x2028 && c as int != 0x2029
    ensures |EscapeChar(c)| == 2 <==> c == '"' || c == '\\' || c as int == 8 || c as int == 9 || c as int == 10 || c as int == 12 || c as int == 13
  {
  }

  function Escape(s: string): (r: string) {
    if s == [] then [] else EscapeChar(s[0]) + Escape(s[1..])
  }

  function Quote(s: string): (r: string) {
    "\"" + Escape(s) + "\""
  }

  // ----- trees -----

  function Indent(d: nat): (s: string) {
    "\n" + Blanks(d)
  }

  function Blanks(d: nat): (s: string) {
    if d == 0 then "" else "  " + Blanks(d - 1)
  }

  /** The text of a tree at a depth of nesting. */
  function Print(t: Json, d: nat): (s: string)
    decreases t, 1, 0
  {
    match t
    case Null => "null"
    case Bool(b) => if b then "true" else "false"
    case Num(n) => n
    case Str(s) => Quote(s)
    case Arr(xs) => if xs == [] then "[]" else "[" + PrintItems(t, 0, d + 1) + Indent(d) + "]"
    case Obj(m) => if m == map[] then "{}" else "{" + PrintEntries(t, SortedKeys(m.Keys), d + 1) + Indent(d) + "}"
  }

  function PrintItems(t: Json, i: nat, d: nat): (s: string)
    requires t.Arr? && i < |t.items|
    decreases t, 0, |t.items| - i
  {
    Indent(d) + Print(t.items[i], d) + if i + 1 < |t.items| then "," + PrintItems(t, i + 1, d) else ""
  }

  function PrintEntries(t: Json, keys: seq<string>, d: nat): (s: string)
    requires t.Obj? && keys != [] && forall k :: k in keys ==> k in t.fields
    decreases t, 0, |keys|
  {
    Indent(d) + Quote(keys[0]) + ": " + Print(t.fields[keys[0]], d)
    + if |keys| > 1 then "," + PrintEntries(t, keys[1..], d) else ""
  }

  // ----- a reader of JSON text -----

  datatype Read<+T> = Fail | Got(value: T, rest: string)

  predicate IsBlank(c: char) {
    c == ' ' || c == '\n' || c == '\t' || c == '\r'
  }

  function SkipBlanks(s: string): (r: string)
    ensures |r| <= |s|
  {
    if s != [] && IsBlank(s[0]) then SkipBlanks(s[1..]) else s
  }

  function HexValue(c: char): (r: Option<nat>)
    ensures r.Some? ==> r.value < 16
  {
    if '0' <= c <= '9' then Some(c as int - '0' as int)
    else if 'a' <= c <= 'f' then Some(c as int - 'a' as int + 10)
    else if 'A' <= c <= 'F' then Some(c as int - 'A' as int + 10)
    else None
  }

  /** The character of four hexadecimal digits; halves of a surrogate pair are none. */
  function HexChar(s: string): (r: Option<char>) {
    if |s| < 4 then None else
      match (HexValue(s[0]), HexValue(s[1]), HexValue(s[2]), HexValue(s[3]))
      case (Some(a), Some(b), Some(c), Some(d)) =>
        var n := a * 4096 + b * 256 + c * 16 + d;
        if 0xD800 <= n < 0xE000 then None else Some(n as char)
      case _ => None
  }

  function EscapedChar(c: char): (r: Option<char>) {
    if c == '"' || c == '\\' || c == '/' then Some(c)
    else if c == 'b' then Some('\U{8}')
    else if c == 'f' then Some('\U{c}')
    else if c == 'n' then Some('\n')
    else if c == 'r' then Some('\r')
    else if c == 't' then Some('\t')
    else None
  }

  function Prepended(c: char, r: Read<string>): (q: Read<string>) {
    match r case Fail => Fail case Got(s, rest) => Got([c] + s, rest)
  }

  /** A string behind its opening quote. */
  function ReadChars(s: string): (r: Read<string>)
    ensures r.Got? ==> |r.rest| < |s|
  {
    if s == [] || s[0] < ' ' then Fail
    else if s[0] == '"' then Got("", s[1..])
    else if s[0] != '\\' then Prepended(s[0], ReadChars(s[1..]))
    else if |s| < 2 then Fail
    else if s[1] == 'u' then
      (match HexChar(s[2..])
       case None => Fail
       case Some(c) => Prepended(c, ReadChars(s[6..])))
    else
      match EscapedChar(s[1])
      case None => Fail
      case Some(c) => Prepended(c, ReadChars(s[2..]))
  }

  function NumberStart(s: string): (n: string)
    ensures |n| <= |s| && n == s[..|n|] && forall i :: 0 <= i < |n| ==> IsNumberChar(n[i])
  {
    if s != [] && IsNumberChar(s[0]) then [s[0]] + NumberStart(s[1..]) else []
  }

  /** One value, with the blanks before it, and the text behind it. */
  function ReadValue(s: string): (r: Read<Json>)
    ensures r.Got? ==> |r.rest| < |s|
    decreases |s|, 1
  {
    var t := SkipBlanks(s);
    if t == [] then Fail
    else if t[0] == '"' then
      (match ReadChars(t[1..]) case Fail => Fail case Got(v, rest) => Got(Str(v), rest))
    else if t[0] == '[' then
      var u := SkipBlanks(t[1..]);
      if u != [] && u[0] == ']' then Got(Arr([]), u[1..]) else
        match ReadItems(t[1..]) case Fail => Fail case Got(vs, rest) => Got(Arr(vs), rest)
    else if t[0] == '{' then
      var u := SkipBlanks(t[1..]);
      if u != [] && u[0] == '}' then Got(Obj(map[]), u[1..]) else
        match ReadEntries(t[1..]) case Fail => Fail case Got(m, rest) => Got(Obj(m), rest)
    else if HasPrefix(t, "null") then Got(Null, t[4..])
    else if HasPrefix(t, "true") then Got(Bool(true), t[4..])
    else if HasPrefix(t, "false") then Got(Bool(false), t[5..])
    else
      var n := NumberStart(t);
      if n == [] then Fail else Got(Num(n), t[|n|..])
  }

  /** Values separated by commas, up to the closing bracket. */
  function ReadItems(s: string): (r: Read<seq<Json>>)
    ensures r.Got? ==> |r.rest| < |s|
    decreases |s|, 2
  {
    match ReadValue(s)
    case Fail => Fail
    case Got(v, rest) =>
      var u := SkipBlanks(rest);
      if u == [] then Fail
      else if u[0] == ']' then Got([v], u[1..])
      else if u[0] != ',' then Fail
      else
        match ReadItems(u[1..])
        case Fail => Fail
        case Got(vs, more) => Got([v] + vs, more)
  }

  /** Keys and values separated by commas, up to the closing brace; of equal keys the last counts. */
  function ReadEntries(s: string): (r: Read<map<string, Json>>)
    ensures r.Got? ==> |r.rest| < |s|
    decreases |s|, 0
  {
    var t := SkipBlanks(s);
    if t == [] || t[0] != '"' then Fail else
      match ReadChars(t[1..])
      case Fail => Fail
      case Got(key, rest) =>
        var u := SkipBlanks(rest);
        if u == [] || u[0] != ':' then Fail else
          match ReadValue(u[1..])
          case Fail => Fail
          case Got(v, rest') =>
            var w := SkipBlanks(rest');
            if w == [] then Fail
            else if w[0] == '}' then Got(map[key := v], w[1..])
            else if w[0] != ',' then Fail
            else
              match ReadEntries(w[1..])
              case Fail => Fail
              case Got(m, more) => Got(map[key := v] + m, more)
  }

  /** A text that is one object and nothing else. */
  function ReadDocument(s: string): (r: Option<map<string, Json>>) {
    match ReadValue(s)
    case Got(Obj(m), rest) => if SkipBlanks(rest) == [] then Some(m) else None
    case _ => None
  }

  // ----- reading what was printed -----

  lemma HexDigitReads(n: nat)
    requires n < 16
    ensures HexValue(HexDigit(n)) == Some(n)
  {
  }

  lemma HexReads(c: char, x: string)
    requires c as int < 0x10000
    ensures HexChar(Hex(c as int) + x) == Some(c)
  {
    hide HexDigit, HexValue;
    var n := c as int;
    HexParts(n);
    HexDigitReads(n / 4096);
    HexDigitReads(n / 256 % 16);
    HexDigitReads(n / 16 % 16);
    HexDigitReads(n % 16);
  }

  lemma HexParts(n: nat)
    requires n < 0x10000
    ensures n == n / 4096 * 4096 + n / 256 % 16 * 256 + n / 16 % 16 * 16 + n % 16 && n / 4096 < 16
  {
  }

  /** One escaped character is read as that character. */
  lemma EscapeReads(c: char, x: string)
    ensures ReadChars(EscapeChar(c) + x) == Prepended(c, ReadChars(x))
  {
    hide Hex, HexChar;
    var e := EscapeChar(c);
    var s := e + x;
    assert s[0] == e[0];
    if |e| == 1 {
      assert s[1..] == x;
    } else if |e| == 2 {
      assert s[1] == e[1] && s[2..] == x;
    } else {
      HexReads(c, x);
      assert s[1] == 'u' && s[2..] == Hex(c as int) + x && s[6..] == x;
    }
  }

  lemma {:induction false} CharsRead(s: string, x: string)
    ensures ReadChars(Escape(s) + "\"" + x) == Got(s, x)
  {
    hide EscapeChar, ReadChars;
    if s == [] {
      assert Escape(s) + "\"" + x == "\"" + x;
      ClosingQuote(x);
    } else {
      assert Escape(s) + "\"" + x == EscapeChar(s[0]) + (Escape(s[1..]) + "\"" + x);
      EscapeReads(s[0], Escape(s[1..]) + "\"" + x);
      CharsRead(s[1..], x);
      assert s == [s[0]] + s[1..];
    }
  }

  lemma ClosingQuote(x: string)
    ensures ReadChars("\"" + x) == Got("", x)
  {
    assert ("\"" + x)[1..] == x;
  }

  lemma {:induction false} SkipIndent(d: nat, s: string)
    requires s != [] && !IsBlank(s[0])
    ensures SkipBlanks(Indent(d) + s) == s && SkipBlanks(Blanks(d) + s) == s
  {
    if d > 0 {
      SkipIndent(d - 1, s);
      assert Blanks(d) + s == "  " + (Blanks(d - 1) + s);
      SkipTwo(Blanks(d - 1) + s);
    } else {
      assert Blanks(d) + s == s;
    }
    assert Indent(d) + s == "\n" + (Blanks(d) + s);
    assert ("\n" + (Blanks(d) + s))[1..] == Blanks(d) + s;
  }

  lemma SkipTwo(s: string)
    ensures SkipBlanks("  " + s) == SkipBlanks(s)
  {
    assert ("  " + s)[1..] == " " + s && (" " + s)[1..] == s;
  }

  lemma SkipOne(s: string)
    ensures SkipBlanks(" " + s) == SkipBlanks(s)
  {
    assert (" " + s)[1..] == s;
  }

  /** Blanks before a value do not matter. */
  lemma BlanksBefore(s: string, t: string)
    requires SkipBlanks(s) == t == SkipBlanks(t)
    ensures ReadValue(s) == ReadValue(t)
  {
    hide ReadChars, ReadItems, ReadEntries, HasPrefix, NumberStart;
  }

  /** What follows a value never continues a number. */
  predicate Ends(x: string) {
    x == [] || !IsNumberChar(x[0])
  }

  lemma {:induction false} NumberReads(n: string, x: string)
    requires Ends(x) && forall i :: 0 <= i < |n| ==> IsNumberChar(n[i])
    ensures NumberStart(n + x) == n
  {
    hide IsNumberChar;
    if n == [] {
      assert n + x == x;
    } else {
      assert (n + x)[1..] == n[1..] + x && n == [n[0]] + n[1..];
      NumberReads(n[1..], x);
    }
  }

  lemma PrintStarts(t: Json, d: nat)
    ensures Print(t, d) != [] && !IsBlank(Print(t, d)[0]) && Print(t, d)[0] != ']' && Print(t, d)[0] != '}'
  {
    hide Escape, PrintItems, PrintEntries, SortedKeys, Blanks;
  }

  lemma NumReads(n: Number, d: nat, x: string)
    requires Ends(x)
    ensures ReadValue(Print(Num(n), d) + x) == Got(Num(n), x)
  {
    hide ReadChars, ReadItems, ReadEntries, SkipBlanks, NumberStart;
    assert (n + x)[0] == n[0] && IsNumberChar(n[0]) && (n + x)[|n|..] == x;
    NoBlank(n + x);
    NumberReads(n, x);
    NoWord(n + x);
  }

  lemma WordReads(w: string, x: string)
    requires w == "null" || w == "true" || w == "false"
    ensures ReadValue(w + x) == Got(if w == "null" then Null else Bool(w == "true"), x)
  {
    hide ReadChars, ReadItems, ReadEntries, SkipBlanks, NumberStart;
    NoBlank(w + x);
    assert (w + x)[0] == w[0] && (w + x)[..|w|] == w && (w + x)[|w|..] == x;
    if w == "true" {
      assert (w + x)[..4][0] == 't';
    } else if w == "false" {
      assert (w + x)[..4][0] == 'f';
    }
  }

  lemma NoBlank(s: string)
    requires s != [] && !IsBlank(s[0])
    ensures SkipBlanks(s) == s
  {
  }

  lemma NoWord(s: string)
    requires s != [] && IsNumberChar(s[0])
    ensures !HasPrefix(s, "null") && !HasPrefix(s, "true") && !HasPrefix(s, "false") && s[0] != '"' && s[0] != '[' && s[0] != '{'
  {
  }

  lemma StringReads(v: string, d: nat, x: string)
    ensures ReadValue(Print(Str(v), d) + x) == Got(Str(v), x)
  {
    hide ReadChars, ReadItems, ReadEntries, Escape, NumberStart;
    var s := Print(Str(v), d) + x;
    assert s[0] == '"' && s[1..] == Escape(v) + "\"" + x;
    CharsRead(v, x);
  }

  /** A printed value is read as the tree it was printed from, and the reader stops behind it. */
  lemma {:induction false} ReadOfPrint(t: Json, d: nat, x: string)
    requires Ends(x)
    ensures ReadValue(Print(t, d) + x) == Got(t, x)
    decreases t, 1, 0
  {
    hide ReadValue, PrintItems, PrintEntries, SortedKeys, Quote, Indent;
    match t
    case Null => WordReads("null", x);
    case Bool(b) => WordReads(if b then "true" else "false", x);
    case Num(n) => NumReads(n, d, x);
    case Str(v) => StringReads(v, d, x);
    case Arr(_) => ArrayReads(t, d, x);
    case Obj(_) => ObjectReads(t, d, x);
  }

  /** Two texts with the same start have the same tree there, and go on the same way. */
  lemma PrintIsUnique(a: Json, b: Json, d: nat, x: string, y: string)
    requires Ends(x) && Ends(y) && Print(a, d) + x == Print(b, d) + y
    ensures a == b && x == y
  {
    hide Print, ReadValue;
    ReadOfPrint(a, d, x);
    ReadOfPrint(b, d, y);
  }

  lemma {:induction false} ArrayReads(t: Json, d: nat, x: string)
    requires t.Arr?
    ensures ReadValue(Print(t, d) + x) == Got(t, x)
    decreases t, 0, |t.items| + 1
  {
    hide Print, PrintItems, ReadValue, ReadItems, Indent;
    UnfoldArray(t, d);
    if t.items == [] {
      assert Print(t, d) + x == "[]" + x;
      EmptyArrayReads(x);
    } else {
      var inner := PrintItems(t, 0, d + 1) + Indent(d) + "]" + x;
      assert Print(t, d) + x == "[" + inner;
      ItemsRead(t, 0, d + 1, d, x);
      assert t.items[0..] == t.items;
      ItemsStart(t, 0, d + 1, Indent(d) + "]" + x);
      assert inner == PrintItems(t, 0, d + 1) + (Indent(d) + "]" + x);
      OpenArray(inner, t.items, x);
    }
  }

  lemma EmptyArrayReads(x: string)
    ensures ReadValue("[]" + x) == Got(Arr([]), x)
  {
    hide ReadChars, ReadItems, ReadEntries, NumberStart;
    var s := "[]" + x;
    assert s[0] == '[' && s[1..] == "]" + x && ("]" + x)[1..] == x;
  }

  lemma OpenArray(inner: string, vs: seq<Json>, x: string)
    requires var u := SkipBlanks(inner); u != [] && u[0] != ']'
    requires ReadItems(inner) == Got(vs, x)
    ensures ReadValue("[" + inner) == Got(Arr(vs), x)
  {
    hide ReadChars, ReadItems, ReadEntries, NumberStart;
    var s := "[" + inner;
    assert s[0] == '[' && s[1..] == inner;
  }

  /** What the printed items start with, behind their blanks. */
  lemma ItemsStart(t: Json, i: nat, d: nat, x: string)
    requires t.Arr? && i < |t.items|
    ensures var u := SkipBlanks(PrintItems(t, i, d) + x); u != [] && u[0] != ']'
  {
    hide Print, Indent, SkipBlanks;
    var v := Print(t.items[i], d);
    PrintStarts(t.items[i], d);
    var rest := if i + 1 < |t.items| then "," + PrintItems(t, i + 1, d) else "";
    assert PrintItems(t, i, d) + x == Indent(d) + (v + rest + x);
    SkipIndent(d, v + rest + x);
  }

  lemma {:induction false} ItemsRead(t: Json, i: nat, d: nat, e: nat, x: string)
    requires t.Arr? && i < |t.items|
    ensures ReadItems(PrintItems(t, i, d) + Indent(e) + "]" + x) == Got(t.items[i..], x)
    decreases t, 0, |t.items| - i
  {
    hide Print, PrintItems, ReadValue, ReadItems, Indent, SkipBlanks;
    var v := Print(t.items[i], d);
    var close := Indent(e) + ("]" + x);
    ItemsAre(t, i, d);
    PrintStarts(t.items[i], d);
    if i + 1 < |t.items| {
      var rest := PrintItems(t, i + 1, d) + Indent(e) + "]" + x;
      assert PrintItems(t, i, d) + Indent(e) + "]" + x == Indent(d) + (v + ("," + rest));
      SkipIndent(d, v + ("," + rest));
      NoBlank(v + ("," + rest));
      BlanksBefore(Indent(d) + (v + ("," + rest)), v + ("," + rest));
      ReadOfPrint(t.items[i], d, "," + rest);
      ItemsRead(t, i + 1, d, e, x);
      MoreItems(Indent(d) + (v + ("," + rest)), t.items[i], rest, t.items[i + 1..], x);
      assert t.items[i..] == [t.items[i]] + t.items[i + 1..];
    } else {
      assert PrintItems(t, i, d) + Indent(e) + "]" + x == Indent(d) + (v + close);
      SkipIndent(d, v + close);
      NoBlank(v + close);
      BlanksBefore(Indent(d) + (v + close), v + close);
      IndentEnds(e, "]" + x);
      ReadOfPrint(t.items[i], d, close);
      SkipIndent(e, "]" + x);
      LastItem(Indent(d) + (v + close), t.items[i], close, x);
      assert t.items[i..] == [t.items[i]];
    }
  }

  lemma ItemsAre(t: Json, i: nat, d: nat)
    requires t.Arr? && i < |t.items|
    ensures PrintItems(t, i, d) == Indent(d) + Print(t.items[i], d) + if i + 1 < |t.items| then "," + PrintItems(t, i + 1, d) else ""
  {
    hide Print, Indent;
  }

  lemma IndentEnds(d: nat, s: string)
    ensures Ends(Indent(d) + s) && (Indent(d) + s)[0] == '\n'
  {
    hide Blanks;
  }

  lemma MoreItems(s: string, v: Json, rest: string, vs: seq<Json>, x: string)
    requires ReadValue(s) == Got(v, "," + rest) && ReadItems(rest) == Got(vs, x)
    ensures ReadItems(s) == Got([v] + vs, x)
  {
    hide ReadValue;
    assert ("," + rest)[1..] == rest;
  }

  lemma LastItem(s: string, v: Json, close: string, x: string)
    requires ReadValue(s) == Got(v, close) && SkipBlanks(close) == "]" + x
    ensures ReadItems(s) == Got([v], x)
  {
    hide ReadValue, SkipBlanks;
    assert ("]" + x)[1..] == x;
  }

  lemma {:induction false} ObjectReads(t: Json, d: nat, x: string)
    requires t.Obj?
    ensures ReadValue(Print(t, d) + x) == Got(t, x)
    decreases t, 0, |t.fields| + 1
  {
    hide Print, PrintEntries, ReadValue, ReadEntries, Indent, SortedKeys;
    UnfoldObject(t, d);
    if t.fields == map[] {
      assert Print(t, d) + x == "{}" + x;
      EmptyObjectReads(x);
    } else {
      var keys := SortedKeys(t.fields.Keys);
      SortedIsDistinct(keys);
      var inner := PrintEntries(t, keys, d + 1) + Indent(d) + "}" + x;
      assert Print(t, d) + x == "{" + inner;
      EntriesRead(t, keys, d + 1, d, x);
      EntriesStart(t, keys, d + 1, Indent(d) + "}" + x);
      assert inner == PrintEntries(t, keys, d + 1) + (Indent(d) + "}" + x);
      assert Part(t, keys) == t.fields;
      OpenObject(inner, t.fields, x);
    }
  }

  lemma SortedIsDistinct(keys: seq<string>)
    requires forall i, j :: 0 <= i < j < |keys| ==> Less(keys[i], keys[j])
    ensures forall i, j :: 0 <= i < j < |keys| ==> keys[i] != keys[j]
  {
    hide Less;
    forall i, j | 0 <= i < j < |keys|
      ensures keys[i] != keys[j]
    {
      LessIsStrictTotal(keys[i], keys[j]);
    }
  }

  /** The entries under some of the keys. */
  function Part(t: Json, keys: seq<string>): (m: map<string, Json>)
    requires t.Obj? && forall k :: k in keys ==> k in t.fields
  {
    map k | k in keys :: t.fields[k]
  }

  lemma EmptyObjectReads(x: string)
    ensures ReadValue("{}" + x) == Got(Obj(map[]), x)
  {
    hide ReadChars, ReadItems, ReadEntries, NumberStart;
    var s := "{}" + x;
    assert s[0] == '{' && s[1..] == "}" + x && ("}" + x)[1..] == x;
  }

  lemma OpenObject(inner: string, m: map<string, Json>, x: string)
    requires var u := SkipBlanks(inner); u != [] && u[0] != '}'
    requires ReadEntries(inner) == Got(m, x)
    ensures ReadValue("{" + inner) == Got(Obj(m), x)
  {
    hide ReadChars, ReadItems, ReadEntries, NumberStart;
    var s := "{" + inner;
    assert s[0] == '{' && s[1..] == inner;
  }

  lemma EntriesAre(t: Json, keys: seq<string>, d: nat)
    requires t.Obj? && keys != [] && forall k :: k in keys ==> k in t.fields
    ensures PrintEntries(t, keys, d)
         == Indent(d) + Quote(keys[0]) + ": " + Print(t.fields[keys[0]], d)
            + if |keys| > 1 then "," + PrintEntries(t, keys[1..], d) else ""
  {
    hide Print, Indent, Quote;
  }

  lemma EntriesStart(t: Json, keys: seq<string>, d: nat, x: string)
    requires t.Obj? && keys != [] && forall k :: k in keys ==> k in t.fields
    ensures var u := SkipBlanks(PrintEntries(t, keys, d) + x); u != [] && u[0] != '}'
  {
    hide Print, Indent, SkipBlanks, Escape, PrintEntries;
    EntriesAre(t, keys, d);
    var tail := ": " + Print(t.fields[keys[0]], d) + (if |keys| > 1 then "," + PrintEntries(t, keys[1..], d) else "") + x;
    assert PrintEntries(t, keys, d) + x == Indent(d) + (Quote(keys[0]) + tail);
    SkipIndent(d, Quote(keys[0]) + tail);
  }

  lemma {:induction false} EntriesRead(t: Json, keys: seq<string>, d: nat, e: nat, x: string)
    requires t.Obj? && keys != [] && (forall k :: k in keys ==> k in t.fields)
    requires forall i, j :: 0 <= i < j < |keys| ==> keys[i] != keys[j]
    ensures ReadEntries(PrintEntries(t, keys, d) + Indent(e) + "}" + x) == Got(Part(t, keys), x)
    decreases t, 0, |keys|
  {
    hide Print, PrintEntries, ReadValue, ReadEntries, Indent, SkipBlanks, Quote;
    var v := t.fields[keys[0]];
    var close := Indent(e) + ("}" + x);
    EntriesAre(t, keys, d);
    if |keys| > 1 {
      var rest := PrintEntries(t, keys[1..], d) + Indent(e) + "}" + x;
      assert PrintEntries(t, keys, d) + Indent(e) + "}" + x == Indent(d) + (Quote(keys[0]) + (": " + (Print(v, d) + ("," + rest))));
      ValueReads(v, d, "," + rest);
      EntriesRead(t, keys[1..], d, e, x);
      MoreEntries(d, keys[0], v, Print(v, d) + ("," + rest), rest, Part(t, keys[1..]), x);
      assert Part(t, keys) == map[keys[0] := v] + Part(t, keys[1..]);
    } else {
      assert PrintEntries(t, keys, d) + Indent(e) + "}" + x == Indent(d) + (Quote(keys[0]) + (": " + (Print(v, d) + close)));
      IndentEnds(e, "}" + x);
      ValueReads(v, d, close);
      SkipIndent(e, "}" + x);
      LastEntry(d, keys[0], v, Print(v, d) + close, close, x);
      assert Part(t, keys) == map[keys[0] := v];
    }
  }

  lemma {:induction false} ValueReads(v: Json, d: nat, x: string)
    requires Ends(x)
    ensures ReadValue(" " + (Print(v, d) + x)) == Got(v, x)
    decreases v, 1, 1
  {
    hide Print, ReadValue, SkipBlanks;
    ReadOfPrint(v, d, x);
    PrintStarts(v, d);
    NoBlank(Print(v, d) + x);
    SkipOne(Print(v, d) + x);
    BlanksBefore(" " + (Print(v, d) + x), Print(v, d) + x);
  }

  lemma KeyReads(d: nat, key: string, x: string)
    ensures var t := SkipBlanks(Indent(d) + (Quote(key) + x)); t != [] && t[0] == '"' && ReadChars(t[1..]) == Got(key, x)
  {
    hide ReadChars, SkipBlanks, Indent, Escape;
    var t := Quote(key) + x;
    SkipIndent(d, t);
    assert t[1..] == Escape(key) + "\"" + x;
    CharsRead(key, x);
  }

  lemma AfterColon(x: string)
    ensures SkipBlanks(": " + x) == ": " + x && (": " + x)[1..] == " " + x
  {
  }

  lemma MoreEntries(d: nat, key: string, v: Json, y: string, rest: string, m: map<string, Json>, x: string)
    requires ReadValue(" " + y) == Got(v, "," + rest) && ReadEntries(rest) == Got(m, x)
    ensures ReadEntries(Indent(d) + (Quote(key) + (": " + y))) == Got(map[key := v] + m, x)
  {
    hide ReadValue, ReadChars, Indent, Quote, SkipBlanks;
    KeyReads(d, key, ": " + y);
    AfterColon(y);
    NoBlank("," + rest);
    assert ("," + rest)[1..] == rest;
  }

  lemma LastEntry(d: nat, key: string, v: Json, y: string, close: string, x: string)
    requires ReadValue(" " + y) == Got(v, close) && SkipBlanks(close) == "}" + x
    ensures ReadEntries(Indent(d) + (Quote(key) + (": " + y))) == Got(map[key := v], x)
  {
    hide ReadValue, ReadChars, Indent, Quote, SkipBlanks;
    KeyReads(d, key, ": " + y);
    AfterColon(y);
    assert ("}" + x)[1..] == x;
  }

  lemma UnfoldArray(t: Json, d: nat)
    requires t.Arr?
    ensures Print(t, d) == if t.items == [] then "[]" else "[" + PrintItems(t, 0, d + 1) + Indent(d) + "]"
  {
    hide PrintItems, Indent;
  }

  lemma UnfoldObject(t: Json, d: nat)
    requires t.Obj?
    ensures Print(t, d)
         == if t.fields == map[] then "{}" else "{" + PrintEntries(t, SortedKeys(t.fields.Keys), d + 1) + Indent(d) + "}"
  {
    hide PrintEntries, Indent, SortedKeys;
  }

  // ----- the text has plain line endings -----

  lemma {:induction false} QuoteWithout(s: string)
    ensures Without(Quote(s), '\r')
  {
    if s != [] {
      QuoteWithout(s[1..]);
      assert Quote(s) == "\"" + EscapeChar(s[0]) + Quote(s[1..])[1..];
    }
  }

  lemma {:induction false} BlanksWithout(d: nat)
    ensures Without(Indent(d), '\r')
  {
    if d > 0 {
      BlanksWithout(d - 1);
      assert Indent(d) == "\n  " + Indent(d - 1)[1..];
    }
  }

  lemma {:induction false} PrintWithout(t: Json, d: nat)
    ensures Without(Print(t, d), '\r')
    decreases t, 1, 0
  {
    hide PrintItems, PrintEntries, Quote, Indent, SortedKeys;
    BlanksWithout(d);
    match t
    case Str(s) => QuoteWithout(s);
    case Arr(xs) =>
      if xs != [] {
        ItemsWithout(t, 0, d + 1);
      }
    case Obj(m) =>
      if m != map[] {
        EntriesWithout(t, SortedKeys(m.Keys), d + 1);
      }
    case _ =>
  }

  lemma {:induction false} ItemsWithout(t: Json, i: nat, d: nat)
    requires t.Arr? && i < |t.items|
    ensures Without(PrintItems(t, i, d), '\r')
    decreases t, 0, |t.items| - i
  {
    hide Print, Indent;
    BlanksWithout(d);
    PrintWithout(t.items[i], d);
    if i + 1 < |t.items| {
      ItemsWithout(t, i + 1, d);
    }
  }

  lemma {:induction false} EntriesWithout(t: Json, keys: seq<string>, d: nat)
    requires t.Obj? && keys != [] && forall k :: k in keys ==> k in t.fields
    ensures Without(PrintEntries(t, keys, d), '\r')
    decreases t, 0, |keys|
  {
    hide Print, Indent, Quote;
    BlanksWithout(d);
    QuoteWithout(keys[0]);
    PrintWithout(t.fields[keys[0]], d);
    if |keys| > 1 {
      EntriesWithout(t, keys[1..], d);
    }
  }

  /** The text of a document. */
  function DocumentText(cfg: map<string, Json>): (s: string) {
    Print(Obj(cfg), 0)
  }

  lemma DocumentTextEnds(cfg: map<string, Json>)
    ensures var s := DocumentText(cfg); s != [] && s[|s| - 1] == '}' && Without(s, '\r')
  {
    hide Print, PrintEntries, SortedKeys, Indent, Without;
    UnfoldObject(Obj(cfg), 0);
    PrintWithout(Obj(cfg), 0);
  }

  /** The text of a document is JSON, and a reader of JSON gets the document back. */
  lemma ReadOfDocumentText(cfg: map<string, Json>)
    ensures ReadDocument(DocumentText(cfg)) == Some(cfg)
  {
    hide Print, ReadValue;
    ReadOfPrint(Obj(cfg), 0, "");
    assert DocumentText(cfg) + "" == DocumentText(cfg);
  }

  /** Different documents have different texts. */
  lemma DocumentTextIsUnique(a: map<string, Json>, b: map<string, Json>)
    ensures DocumentText(a) == DocumentText(b) <==> a == b
  {
    hide DocumentText, ReadDocument;
    ReadOfDocumentText(a);
    ReadOfDocumentText(b);
  }

  /** The text of an object with one entry. */
  function Braced(indent: string, key: string, value: string, end: string): (s: string) {
    "{" + (indent + Quote(key) + ": " + value) + end + "}"
  }

  /** Each level is indented by two more blanks, one entry to a line. */
  lemma Layout(k: string, l: string, v: Json)
    requires v.Null? || v.Bool? || v.Num? || v.Str?
    ensures DocumentText(map[k := Obj(map[l := v])]) == Braced("\n  ", k, Braced("\n    ", l, Print(v, 0), "\n  "), "\n")
  {
    hide Print, PrintEntries, SortedKeys, Quote, Indent;
    var inner := Obj(map[l := v]);
    OneEntry(Obj(map[k := inner]), k, inner, 0);
    OneEntry(inner, l, v, 1);
    SameAnywhere(v, 2);
    TwoLevels();
  }

  lemma TwoLevels()
    ensures Indent(0) == "\n" && Indent(1) == "\n  " && Indent(2) == "\n    "
  {
    assert Blanks(0) == "" && Blanks(1) == "  " && Blanks(2) == "  " + Blanks(1);
  }

  lemma SameAnywhere(v: Json, d: nat)
    requires v.Null? || v.Bool? || v.Num? || v.Str?
    ensures Print(v, d) == Print(v, 0)
  {
    hide Quote;
  }

  lemma OneEntry(t: Json, k: string, v: Json, d: nat)
    requires t == Obj(map[k := v])
    ensures Print(t, d) == "{" + (Indent(d + 1) + Quote(k) + ": " + Print(v, d + 1)) + Indent(d) + "}"
  {
    hide Print, PrintEntries, SortedKeys, Quote, Indent;
    UnfoldObject(t, d);
    OneKey(k);
    assert t.fields.Keys == {k};
    EntriesAre(t, [k], d + 1);
    var e := Indent(d + 1) + Quote(k) + ": " + Print(v, d + 1);
    assert e + "" == e;
  }

  lemma OneKey(k: string)
    ensures SortedKeys({k}) == [k]
  {
    hide Less;
    var r := SortedKeys({k});
    assert |r| == 1 && r[0] in r;
  }
}
