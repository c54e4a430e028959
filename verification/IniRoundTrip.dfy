/**
 What the parser makes of each thing the printer writes: which values come back, and what reading
 the printed lines of fields and sections puts into a document.
 */
module IniRoundTrip {
  import opened Text
  import opened IniQuoting
  import opened IniText
  import opened IniCodec

  // ----- values -----

  ghost predicate GoodWord(w: string) {
    w != "" && Trimmed(w) && Without(w, ',')
  }

  ghost predicate GoodWords(ws: seq<string>) {
    && (forall i :: 0 <= i < |ws| ==> GoodWord(ws[i]))
    && (ws == [] || ReadsAsItself(JoinWords(ws)))
  }

  /**
   The value has the declared kind and survives printing.  A float field may also hold text that is
   no number, as the parser leaves it.
   */
  ghost predicate FitsKind(sc: Strconv, v: Value, kind: Kind) {
    match kind
    case StringKind => v.Str? && SafeText(sc, v.s)
    case IntKind => v.Int?
    case BoolKind => v.Bool?
    case FloatKind => v.Float? || (v.Str? && sc.parseFloat(v.s).None? && (v.s == "" || ReadsAsItself(v.s)))
    case CsvKind => v.Words? && GoodWords(v.words)
  }

  /** Values the program can hold: 64-bit integers and floats. */
  ghost predicate Representable(sc: Strconv, v: Value) {
    (v.Int? ==> MIN_INT <= v.n <= MAX_INT) && (v.Float? ==> sc.isFloat(v.r))
  }

  function ReadKind(sc: Strconv, printed: string, kind: Kind): (r: Value) {
    if kind.CsvKind? then Words(ParseList(ReadBack(sc, printed))) else Typed(sc, ReadBack(sc, printed), kind)
  }

  lemma PlainReturns(sc: Strconv, t: string)
    requires Lawful(sc) && Plain(t)
    ensures ReadBack(sc, t) == t
  {
    hide Lawful, ParseValue, ReadsAsItself;
    PlainReadsAsItself(t);
    UnquotedTextIff(sc, t);
  }

  lemma IntReturns(sc: Strconv, n: int)
    requires Lawful(sc) && MIN_INT <= n <= MAX_INT
    ensures ReadKind(sc, Itoa(n), IntKind) == Int(n)
  {
    hide Lawful, Itoa, ParseInt, ReadBack;
    ItoaIsPlain(n);
    assert Plain(Itoa(n)) by {
      DigitsArePlain(Itoa(n));
    }
    PlainReturns(sc, Itoa(n));
    ParseOfItoa(n);
  }

  lemma DigitsArePlain(s: string)
    requires s != [] && forall i :: 0 <= i < |s| ==> IsDigit(s[i]) || s[i] == '-'
    ensures Plain(s)
  {
  }

  lemma BoolReturns(sc: Strconv, b: bool)
    requires Lawful(sc)
    ensures var t := if b then "true" else "false"; ReadBack(sc, t) == t && ReadKind(sc, t, BoolKind) == Bool(b)
  {
    hide Lawful, ReadBack;
    var t := if b then "true" else "false";
    assert Plain(t);
    PlainReturns(sc, t);
    assert ToLower(t) == t;
    if !b {
      assert t[0] == 'f' && |t| == 5;
    }
  }

  lemma FloatReturns(sc: Strconv, r: real)
    requires Lawful(sc) && sc.isFloat(r)
    ensures ReadKind(sc, sc.formatFloat(r), FloatKind) == Float(r)
  {
    hide ReadBack, Plain, Decodes;
    PlainReturns(sc, sc.formatFloat(r));
  }

  /** Text printed as it is comes back exactly when it is empty or reads as itself. */
  lemma RawTextIff(sc: Strconv, t: string)
    requires Lawful(sc)
    ensures ReadBack(sc, t) == t <==> t == "" || ReadsAsItself(t)
  {
    hide Lawful, ParseValue, ReadsAsItself;
    if t == "" {
      EmptyValue(sc, t);
    } else {
      UnquotedTextIff(sc, t);
    }
  }

  lemma FloatTextIff(sc: Strconv, t: string)
    requires Lawful(sc)
    ensures ReadKind(sc, t, FloatKind) == Str(t) <==> sc.parseFloat(t).None? && (t == "" || ReadsAsItself(t))
  {
    hide Lawful, ReadBack, ReadsAsItself;
    RawTextIff(sc, t);
  }

  // ----- comma-separated words -----

  function Padded(ws: seq<string>): (r: seq<string>) {
    if ws == [] then [] else [" " + ws[0]] + Padded(ws[1..])
  }

  lemma {:induction false} JoinWordsIsJoin(ws: seq<string>)
    requires ws != []
    ensures JoinWords(ws) == Join([ws[0]] + Padded(ws[1..]), ',')
  {
    var parts := [ws[0]] + Padded(ws[1..]);
    if |ws| > 1 {
      JoinWordsIsJoin(ws[1..]);
      var rest := ws[1..];
      assert parts[1..] == [" " + rest[0]] + Padded(rest[1..]);
      JoinPadded(rest[0], Padded(rest[1..]));
      assert Join(parts, ',') == ws[0] + "," + Join(parts[1..], ',');
    }
  }

  lemma JoinPadded(w: string, rest: seq<string>)
    ensures Join([" " + w] + rest, ',') == " " + Join([w] + rest, ',')
  {
    if rest != [] {
      JoinCons(" " + w, rest, ',');
      JoinCons(w, rest, ',');
    }
  }

  lemma {:induction false} NonBlankPadded(ws: seq<string>)
    requires forall i :: 0 <= i < |ws| ==> GoodWord(ws[i])
    ensures NonBlank(Padded(ws)) == ws
  {
    hide Trim;
    if ws != [] {
      assert GoodWord(ws[0]);
      NonBlankPadded(ws[1..]);
      PaddedTrim(ws[0]);
      TrimOfTrimmed(ws[0]);
      assert Padded(ws)[1..] == Padded(ws[1..]);
      assert ws == [ws[0]] + ws[1..];
    }
  }

  lemma {:induction false} PaddedWithout(ws: seq<string>, c: char)
    requires c != ' ' && forall i :: 0 <= i < |ws| ==> Without(ws[i], c)
    ensures EachWithout(Padded(ws), c)
  {
    if ws != [] {
      PaddedWithout(ws[1..], c);
      assert Without(ws[0], c);
      assert Without(" " + ws[0], c);
    }
  }

  lemma NonBlankCons(w: string, rest: seq<string>)
    requires GoodWord(w)
    ensures NonBlank([w] + rest) == [w] + NonBlank(rest)
  {
    hide Trim;
    TrimOfTrimmed(w);
    assert ([w] + rest)[1..] == rest;
  }

  lemma WordPartsWithout(ws: seq<string>, c: char)
    requires ws != [] && c != ' ' && forall i :: 0 <= i < |ws| ==> Without(ws[i], c)
    ensures EachWithout([ws[0]] + Padded(ws[1..]), c)
  {
    hide Padded;
    PaddedWithout(ws[1..], c);
    assert Without(ws[0], c);
  }

  lemma ListReturns(ws: seq<string>)
    requires ws != [] && forall i :: 0 <= i < |ws| ==> GoodWord(ws[i])
    ensures ParseList(JoinWords(ws)) == ws
  {
    hide Trim, Split, Join, JoinWords, Padded, NonBlank;
    var parts := [ws[0]] + Padded(ws[1..]);
    JoinWordsIsJoin(ws);
    WordPartsWithout(ws, ',');
    SplitOfJoin(parts, ',');
    NonBlankPadded(ws[1..]);
    NonBlankCons(ws[0], Padded(ws[1..]));
    assert ws == [ws[0]] + ws[1..];
  }

  lemma WordsReturn(sc: Strconv, ws: seq<string>)
    requires Lawful(sc) && GoodWords(ws)
    ensures ReadKind(sc, JoinWords(ws), CsvKind) == Words(ws)
  {
    hide Lawful, ParseValue, JoinWords, ParseList, Join, ReadsAsItself;
    if ws == [] {
      EmptyListReturns(sc);
    } else {
      var text := JoinWords(ws);
      RawTextIff(sc, text);
      ListReturns(ws);
    }
  }

  lemma EmptyListReturns(sc: Strconv)
    ensures ReadKind(sc, JoinWords([]), CsvKind) == Words([]) && JoinWords([]) == ""
  {
    hide Trim, NonBlank, Split;
    var nothing: string := [];
    EmptyValue(sc, nothing);
    EmptyList(nothing);
  }

  lemma EmptyValue(sc: Strconv, t: string)
    requires t == []
    ensures ParseValue(sc, t) == []
  {
    hide Trim;
    BlankIffAllSpace(t);
  }

  lemma EmptyList(t: string)
    requires t == []
    ensures ParseList(t) == []
  {
    hide Trim;
    BlankIffAllSpace(t);
    assert Split(t, ',') == [[]];
    assert NonBlank([[]]) == [] + NonBlank([]);
  }

  // ----- words that come back are good -----

  function InkOf(parts: seq<string>): (n: nat) {
    if parts == [] then 0 else Ink(parts[0]) + InkOf(parts[1..])
  }

  lemma {:induction false} InkOfJoin(parts: seq<string>)
    ensures Ink(Join(parts, ',')) == InkOf(parts)
  {
    hide Ink;
    if |parts| == 1 {
      assert parts[1..] == [];
    } else if |parts| > 1 {
      InkOfJoin(parts[1..]);
      InkConcat(parts[0] + [','], Join(parts[1..], ','));
      InkConcat(parts[0], [',']);
      CommaHasNoInk();
    } else {
      NoInk();
    }
  }

  lemma CommaHasNoInk()
    ensures Ink([',']) == 0 && Ink(" ") == 0
  {
  }

  lemma NoInk()
    ensures Ink([]) == 0
  {
  }

  lemma {:induction false} InkOfNonBlank(parts: seq<string>)
    ensures InkOf(NonBlank(parts)) == InkOf(parts)
  {
    hide Trim, Ink;
    if parts != [] {
      InkOfNonBlank(parts[1..]);
      InkOfTrim(parts[0]);
      NoInk();
      if Trim(parts[0]) == "" {
        assert [] + NonBlank(parts[1..]) == NonBlank(parts[1..]);
      } else {
        assert ([Trim(parts[0])] + NonBlank(parts[1..]))[1..] == NonBlank(parts[1..]);
      }
    }
  }

  /** A list holds all the ink of its text. */
  lemma InkOfList(v: string)
    ensures InkOf(ParseList(v)) == Ink(v)
  {
    hide Split, Join, NonBlank, InkOf, Ink;
    JoinOfSplit(v, ',');
    InkOfJoin(Split(v, ','));
    InkOfNonBlank(Split(v, ','));
  }

  lemma {:induction false} InkOfPadded(ws: seq<string>)
    ensures InkOf(Padded(ws)) == InkOf(ws)
  {
    hide Ink;
    if ws != [] {
      InkOfPadded(ws[1..]);
      InkConcat(" ", ws[0]);
      CommaHasNoInk();
      assert Padded(ws)[1..] == Padded(ws[1..]);
    }
  }

  lemma InkOfWords(ws: seq<string>)
    requires ws != []
    ensures Ink(JoinWords(ws)) == InkOf(ws)
  {
    hide Ink, JoinWords, Join, Padded;
    JoinWordsIsJoin(ws);
    InkOfJoin([ws[0]] + Padded(ws[1..]));
    InkOfPadded(ws[1..]);
    assert ([ws[0]] + Padded(ws[1..]))[1..] == Padded(ws[1..]);
  }

  lemma {:induction false} NonBlankIsGood(parts: seq<string>)
    requires EachWithout(parts, ',')
    ensures forall i :: 0 <= i < |NonBlank(parts)| ==> GoodWord(NonBlank(parts)[i])
  {
    hide Trim;
    if parts != [] {
      NonBlankIsGood(parts[1..]);
      assert Without(parts[0], ',');
      TrimWithout(parts[0], ',');
      TrimOfTrimmed(parts[0]);
    }
  }

  lemma TrimWithout(s: string, c: char)
    requires Without(s, c)
    ensures Without(Trim(s), c)
  {
    hide Trim;
    var left, right := TrimParts(s);
    var t := Trim(s);
    assert forall i :: 0 <= i < |t| ==> t[i] == s[|left| + i];
  }

  lemma ListIsGood(v: string)
    ensures forall i :: 0 <= i < |ParseList(v)| ==> GoodWord(ParseList(v)[i])
  {
    hide Split, NonBlank, Join;
    JoinOfSplit(v, ',');
    NonBlankIsGood(Split(v, ','));
  }

  lemma {:induction false} WordsAreTrimmed(ws: seq<string>)
    requires ws != [] && forall i :: 0 <= i < |ws| ==> GoodWord(ws[i])
    ensures JoinWords(ws) != [] && Trimmed(JoinWords(ws)) && ws[0] != [] && JoinWords(ws)[0] == ws[0][0]
  {
    assert GoodWord(ws[0]);
    if |ws| > 1 {
      WordsAreTrimmed(ws[1..]);
      var text := JoinWords(ws);
      assert text == ws[0] + ", " + JoinWords(ws[1..]);
      assert text[|text| - 1] == JoinWords(ws[1..])[|JoinWords(ws[1..])| - 1];
    }
  }

  /** A comment or quotes would cost a text some of its ink. */
  lemma SameInkReadsAsItself(sc: Strconv, t: string)
    requires Lawful(sc) && t != "" && Trimmed(t) && Ink(ReadBack(sc, t)) == Ink(t)
    ensures ReadsAsItself(t)
  {
    hide Lawful, CommentAt, Trim, TrimLeft, TrimRight, Unwrap, Ink;
    var raw := " " + t;
    var v := Trim(Stripped(raw));
    UnwrapShrinks(sc, v);
    match CommentAt(raw, 0, false, false)
    case None =>
      PaddedTrim(t);
      TrimOfTrimmed(t);
    case Some(i) =>
      CommentCostsInk(t, i);
      assert false;
  }

  lemma CommentCostsInk(t: string, i: nat)
    requires CommentAt(" " + t, 0, false, false) == Some(i)
    ensures Ink(Trim(TrimRight((" " + t)[..i]))) < Ink(t)
  {
    hide Trim, TrimLeft, TrimRight, Ink;
    var raw := " " + t;
    CommentIsInk(raw, 0, false, false);
    var cut := TrimRight(raw[..i]);
    TrimRightParts(raw[..i]);
    InkOfTrim(cut);
    assert cut == raw[..i][..|cut|];
    InkOfPrefix(raw[..i], |cut|);
    InkOfPrefix(raw, i);
    InkConcat(" ", t);
    CommaHasNoInk();
  }

  lemma {:induction false} CommentIsInk(v: string, i: nat, inSingle: bool, inDouble: bool)
    requires i <= |v|
    ensures var r := CommentAt(v, i, inSingle, inDouble); r.Some? ==> r.value < |v| && !IsSpace(v[r.value]) && v[r.value] != ','
    decreases |v| - i
  {
    if i < |v| {
      CommentIsInk(v, i + 1, inSingle, inDouble);
      CommentIsInk(v, i + 1, !inSingle, inDouble);
      CommentIsInk(v, i + 1, inSingle, !inDouble);
    }
  }

  /** Exactly the good lists come back. */
  lemma WordsReturnIff(sc: Strconv, ws: seq<string>)
    requires Lawful(sc)
    ensures ReadKind(sc, JoinWords(ws), CsvKind) == Words(ws) <==> GoodWords(ws)
  {
    hide Lawful, ReadBack, JoinWords, ParseList, ReadsAsItself, Ink, InkOf, GoodWord, Trimmed;
    if GoodWords(ws) {
      WordsReturn(sc, ws);
    } else if ReadKind(sc, JoinWords(ws), CsvKind) == Words(ws) {
      var text := JoinWords(ws);
      ListIsGood(ReadBack(sc, text));
      if ws != [] {
        InkOfList(ReadBack(sc, text));
        InkOfWords(ws);
        WordsAreTrimmed(ws);
        SameInkReadsAsItself(sc, text);
      }
      assert false;
    }
  }

  // ----- which values come back -----

  /** A value the program can hold comes back exactly when it fits its field's kind. */
  lemma ValueReturnsIff(sc: Strconv, v: Value, kind: Kind)
    requires Lawful(sc) && Representable(sc, v)
    ensures ReadKind(sc, Format(sc, v, kind), kind) == v <==> FitsKind(sc, v, kind)
  {
    hide Lawful, ReadBack, SafeText, GoodWords, ReadsAsItself, ParseList, JoinWords, Itoa, FormatText, WordsOf;
    match kind
    case StringKind => StringReturnsIff(sc, v);
    case IntKind => IntReturnsIff(sc, v);
    case BoolKind => BoolReturns(sc, BoolOf(v));
    case FloatKind =>
      if v.Float? {
        FloatReturns(sc, v.r);
      } else if v.Str? {
        FloatTextIff(sc, v.s);
      }
    case CsvKind =>
      if v.Words? {
        JustWords(v.words);
        WordsReturnIff(sc, v.words);
      }
  }

  lemma JustWords(ws: seq<string>)
    ensures WordsOf(Words(ws)) == ws
  {
  }

  lemma StringReturnsIff(sc: Strconv, v: Value)
    requires Lawful(sc)
    ensures ReadKind(sc, FormatText(sc, StringOf(v)), StringKind) == v <==> v.Str? && SafeText(sc, v.s)
  {
    hide Lawful, ParseValue, FormatText, SafeText;
    TextIsOneLine(sc, StringOf(v));
    TextReturnsIff(sc, StringOf(v));
  }

  lemma IntReturnsIff(sc: Strconv, v: Value)
    requires Lawful(sc) && Representable(sc, v)
    ensures ReadKind(sc, Itoa(IntOf(sc, v)), IntKind) == v <==> v.Int?
  {
    hide Lawful, ReadBack, Itoa, ParseInt;
    if v.Int? || v.Str? {
      IntReturns(sc, IntOf(sc, v));
    }
  }

  /**
   Text in an integer field, which the parser leaves when it is no number, is printed as zero.
   Digits beyond 64 bits are printed as the nearest number.
   */
  lemma TextInIntFieldIsLost(sc: Strconv, t: string)
    requires Lawful(sc) && Atoi(t).None? && sc.parseFloat(t).None?
    ensures Typed(sc, t, IntKind) == Str(t) && ReadKind(sc, Format(sc, Str(t), IntKind), IntKind) == Int(AtoiValue(t))
    ensures ParseInt(t).None? ==> AtoiValue(t) == 0
  {
    hide Lawful, ReadBack, Itoa;
    IntReturns(sc, AtoiValue(t));
  }

  // ----- tables -----

  ghost predicate DistinctKeys(fields: seq<Field>) {
    forall i, j :: 0 <= i < j < |fields| ==> fields[i].key != fields[j].key
  }

  /** A key that holds none of the three lists. */
  ghost predicate FreeKey(d: string) {
    d != "users" && d != "routes" && d != "policies"
  }

  ghost predicate GoodField(f: Field) {
    IsName(f.key) && FreeKey(f.docKey) && !f.kind.CsvKind?
  }

  ghost predicate GoodSection(s: Section) {
    && IsName(s.name) && s.name != "route" && s.name != "policy" && s.name != "user"
    && (forall k :: 0 <= k < |s.fields| ==> GoodField(s.fields[k]))
    && DistinctKeys(s.fields)
  }

  ghost predicate GoodTable(table: seq<Section>) {
    && (forall i :: 0 <= i < |table| ==> GoodSection(table[i]))
    && (forall i, j :: 0 <= i < j < |table| ==> table[i].name != table[j].name)
  }

  lemma {:induction false} LookupFieldFinds(fields: seq<Field>, k: nat)
    requires k < |fields| && DistinctKeys(fields)
    ensures LookupField(fields, fields[k].key) == Some(fields[k])
  {
    var n := |fields| - 1;
    if k < n {
      LookupFieldFinds(fields[..n], k);
    }
  }

  lemma {:induction false} LookupSpecFinds(table: seq<Section>, i: nat, k: nat)
    requires i < |table| && k < |table[i].fields| && GoodTable(table)
    ensures LookupSpec(table, table[i].name, table[i].fields[k].key) == Some(table[i].fields[k])
  {
    hide IsName;
    var n := |table| - 1;
    if i < n {
      assert GoodTable(table[..n]);
      LookupSpecFinds(table[..n], i, k);
    } else {
      assert GoodSection(table[i]);
      LookupFieldFinds(table[i].fields, k);
    }
  }

  // ----- documents -----

  /** The field that a document key is printed by; the last one counts. */
  function FieldFor(fields: seq<Field>, d: string): (r: Option<Field>) {
    if fields == [] then None
    else if fields[|fields| - 1].docKey == d then Some(fields[|fields| - 1])
    else FieldFor(fields[..|fields| - 1], d)
  }

  /** What the parser stores for a field; a user's mfa_enabled is stored as text. */
  function ReadField(sc: Strconv, user: bool, field: Field, text: string): (r: Value) {
    if field.kind.CsvKind? then Words(ParseList(text))
    else if user && field.key == "mfa_enabled" then Str(text)
    else Typed(sc, text, field.kind)
  }

  /** A value as it is after printing and reading its field. */
  function Reread(sc: Strconv, user: bool, field: Field, v: Value): (r: Value) {
    ReadField(sc, user, field, ReadBack(sc, Format(sc, v, field.kind)))
  }

  /** Reading the printed fields of an object onto another one. */
  function RereadOnto(sc: Strconv, user: bool, acc: Object, obj: Object, fields: seq<Field>): (r: Object)
    decreases |fields|
  {
    if fields == [] then acc else
      var field := fields[0];
      RereadOnto(sc, user, if field.docKey in obj then acc[field.docKey := Reread(sc, user, field, obj[field.docKey])] else acc,
                 obj, fields[1..])
  }

  lemma {:induction false} FieldForCons(field: Field, fields: seq<Field>, d: string)
    ensures FieldFor([field] + fields, d)
         == if FieldFor(fields, d).Some? then FieldFor(fields, d) else if field.docKey == d then Some(field) else None
    decreases |fields|
  {
    if fields == [] {
      assert [field] + fields == [field];
    } else {
      var n := |fields| - 1;
      assert ([field] + fields)[..n + 1] == [field] + fields[..n];
      FieldForCons(field, fields[..n], d);
    }
  }

  /** Each document key gets what its field makes of it; all else stays. */
  lemma {:induction false} RereadAt(sc: Strconv, user: bool, acc: Object, obj: Object, fields: seq<Field>, d: string)
    ensures var r := RereadOnto(sc, user, acc, obj, fields);
      var field := FieldFor(fields, d);
      if d in obj && field.Some? then d in r && r[d] == Reread(sc, user, field.value, obj[d])
      else (d in r <==> d in acc) && (d in r ==> r[d] == acc[d])
    decreases |fields|
  {
    hide Reread;
    if fields != [] {
      var field := fields[0];
      assert fields == [field] + fields[1..];
      FieldForCons(field, fields[1..], d);
      var next := if field.docKey in obj then acc[field.docKey := Reread(sc, user, field, obj[field.docKey])] else acc;
      RereadAt(sc, user, next, obj, fields[1..], d);
    }
  }

  lemma {:induction false} RereadConcat(sc: Strconv, user: bool, acc: Object, obj: Object, a: seq<Field>, b: seq<Field>)
    ensures RereadOnto(sc, user, acc, obj, a + b) == RereadOnto(sc, user, RereadOnto(sc, user, acc, obj, a), obj, b)
    decreases |a|
  {
    hide Reread;
    if a == [] {
      assert a + b == b;
    } else {
      assert (a + b)[1..] == a[1..] + b && (a + b)[0] == a[0];
      var next := if a[0].docKey in obj then acc[a[0].docKey := Reread(sc, user, a[0], obj[a[0].docKey])] else acc;
      RereadConcat(sc, user, next, obj, a[1..], b);
    }
  }

  lemma {:induction false} NoLinesNothingRead(sc: Strconv, user: bool, acc: Object, obj: Object, fields: seq<Field>)
    requires FieldLines(sc, obj, fields) == []
    ensures RereadOnto(sc, user, acc, obj, fields) == acc
    decreases |fields|
  {
    hide Format, KeyLine, Reread;
    if fields != [] {
      NoLinesNothingRead(sc, user, acc, obj, fields[1..]);
    }
  }

  /** A present key of some field prints a line. */
  lemma {:induction false} FieldPrints(sc: Strconv, obj: Object, fields: seq<Field>, d: string)
    requires d in obj && FieldFor(fields, d).Some?
    ensures FieldLines(sc, obj, fields) != []
    decreases |fields|
  {
    hide Format, KeyLine;
    if fields != [] {
      assert fields == [fields[0]] + fields[1..];
      FieldForCons(fields[0], fields[1..], d);
      if FieldFor(fields[1..], d).Some? {
        FieldPrints(sc, obj, fields[1..], d);
      }
    }
  }

  // ----- one printed line -----

  lemma StepKeyLine(sc: Strconv, table: seq<Section>, st: State, key: string, printed: string)
    requires IsName(key) && st.section != ""
    ensures StepLine(sc, table, st, KeyLine(key, printed)) == st.(doc := Assign(sc, table, st, key, ReadBack(sc, printed)))
  {
    hide ParseValue, Trim, IsName, KeyLine, ParseKeyValue, ParseSectionHeader, HasPrefix, Assign;
    KeyLineReads(sc, key, printed);
  }

  lemma StepBlank(sc: Strconv, table: seq<Section>, st: State)
    ensures StepLine(sc, table, st, "") == st
  {
    BlankIffAllSpace("");
  }

  lemma StepHeader(sc: Strconv, table: seq<Section>, st: State, section: string)
    requires Trim(section) != ""
    ensures StepLine(sc, table, st, Header(section))
         == State(st.doc, ClassifySection(Trim(section)).0, ClassifySection(Trim(section)).1, true)
  {
    hide Trim, Header, ParseSectionHeader, HasPrefix, ClassifySection;
    HeaderReads(section);
  }

  lemma NoSuchPrefix(s: string, p: string)
    requires Without(s, ':') && p != [] && p[|p| - 1] == ':'
    ensures !HasPrefix(s, p)
  {
    assert |p| <= |s| ==> s[..|p|][|p| - 1] == s[|p| - 1];
  }

  lemma ClassifyName(name: string)
    requires IsName(name)
    ensures Trim(name) == name && name != "" && ClassifySection(name) == (name, "")
  {
    hide HasPrefix, Trim;
    NameFacts(name);
    TrimOfTrimmed(name);
    NoSuchPrefix(name, "route:");
    NoSuchPrefix(name, "policy:");
    NoSuchPrefix(name, "user:");
  }

  lemma PrefixSurvivesLower(p: string, name: string)
    requires ToLower(p) == p
    ensures HasPrefix(ToLower(p + name), p) && (p + name)[|p|..] == name
    ensures ToLower(p + name)[..|p|] == p
  {
    var s := p + name;
    forall i | 0 <= i < |p|
      ensures ToLower(s)[i] == p[i]
    {
      assert ToLower(p)[i] == p[i] && s[i] == p[i];
    }
  }

  lemma OtherPrefix(s: string, p: string, q: string)
    requires HasPrefix(s, p) && p != [] && q != [] && p[0] != q[0]
    ensures !HasPrefix(s, q)
  {
    assert s[0] == s[..|p|][0];
    assert |q| <= |s| ==> s[..|q|][0] == s[0];
  }

  /** The header of a family and a name selects that family and the trimmed name. */
  lemma ClassifyNamed(f: Family, name: string)
    ensures var section := Trim(SectionName(f) + ":" + name);
      section != "" && ClassifySection(section) == (SectionName(f), Trim(name))
  {
    hide Trim, HasPrefix, ToLower;
    LowerPrefixes();
    var p := SectionName(f) + ":";
    var kept := TrimmedBehind(p, name);
    PrefixSurvivesLower(p, kept);
    match f
    case Route =>
    case Policy => OtherPrefix(ToLower("policy:" + kept), "policy:", "route:");
    case User =>
      OtherPrefix(ToLower("user:" + kept), "user:", "route:");
      OtherPrefix(ToLower("user:" + kept), "user:", "policy:");
  }

  lemma LowerPrefixes()
    ensures ToLower("route:") == "route:" && ToLower("policy:") == "policy:" && ToLower("user:") == "user:"
    ensures "route" + ":" == "route:" && "policy" + ":" == "policy:" && "user" + ":" == "user:"
  {
  }

  /** Trimming a name behind its prefix only cuts its end. */
  lemma TrimmedBehind(p: string, name: string) returns (kept: string)
    requires p != [] && !IsSpace(p[0]) && !IsSpace(p[|p| - 1])
    ensures Trim(p + name) == p + kept && Trim(kept) == Trim(name)
  {
    hide Trim, TrimLeft;
    kept := TrimRight(name);
    TrimRightParts(name);
    var gap := name[|kept|..];
    assert p + name == "" + (p + kept) + gap;
    TrimUnique("", p + kept, gap);
    TrimRightKeepsTrim(name);
  }

  // ----- table sections -----

  lemma StepFirst(sc: Strconv, table: seq<Section>, st: State, line: string, rest: seq<string>)
    ensures StepLines(sc, table, st, [line] + rest) == StepLines(sc, table, StepLine(sc, table, st, line), rest)
  {
    hide StepLine;
    assert ([line] + rest)[1..] == rest;
  }

  /** One printed field of a section. */
  lemma FieldReturns(sc: Strconv, table: seq<Section>, st: State, i: nat, k: nat, v: Value)
    requires GoodTable(table) && i < |table| && k < |table[i].fields| && st.section == table[i].name
    ensures var field := table[i].fields[k];
      StepLine(sc, table, st, KeyLine(field.key, Format(sc, v, field.kind)))
      == st.(doc := st.doc[field.docKey := Reread(sc, false, field, v)])
  {
    hide StepLine, Format, IsName, KeyLine, Typed, LookupSpec, ReadBack, DistinctKeys;
    var field := table[i].fields[k];
    assert GoodSection(table[i]) && GoodField(field);
    NameIsNotEmpty(table[i].name);
    StepKeyLine(sc, table, st, field.key, Format(sc, v, field.kind));
    LookupSpecFinds(table, i, k);
  }

  lemma NameIsNotEmpty(s: string)
    requires IsName(s)
    ensures s != ""
  {
  }

  /** The fields of one section, read back into the document. */
  lemma {:induction false} FieldsReturn(sc: Strconv, table: seq<Section>, doc: Object, i: nat, k: nat, st: State)
    requires GoodTable(table) && i < |table| && k <= |table[i].fields| && st.section == table[i].name
    ensures StepLines(sc, table, st, FieldLines(sc, doc, table[i].fields[k..]))
         == st.(doc := RereadOnto(sc, false, st.doc, doc, table[i].fields[k..]))
    decreases |table[i].fields| - k
  {
    hide StepLine, Format, KeyLine, GoodTable, Reread;
    var fields := table[i].fields;
    if k == |fields| {
      assert fields[k..] == [];
    } else {
      var field := fields[k];
      assert fields[k..][1..] == fields[k + 1..] && fields[k..][0] == field;
      if field.docKey in doc {
        var v := doc[field.docKey];
        var line := KeyLine(field.key, Format(sc, v, field.kind));
        FieldReturns(sc, table, st, i, k, v);
        var next := st.(doc := st.doc[field.docKey := Reread(sc, false, field, v)]);
        FieldsReturn(sc, table, doc, i, k + 1, next);
        assert FieldLines(sc, doc, fields[k..]) == [line] + FieldLines(sc, doc, fields[k + 1..]);
        StepFirst(sc, table, st, line, FieldLines(sc, doc, fields[k + 1..]));
      } else {
        assert FieldLines(sc, doc, fields[k..]) == FieldLines(sc, doc, fields[k + 1..]);
        FieldsReturn(sc, table, doc, i, k + 1, st);
      }
    }
  }

  function StepBlocks(sc: Strconv, table: seq<Section>, st: State, blocks: seq<seq<string>>): (r: State)
    decreases |blocks|
  {
    if blocks == [] then st else StepBlocks(sc, table, StepLines(sc, table, st, blocks[0]), blocks[1..])
  }

  lemma {:induction false} StepBlocksConcat(sc: Strconv, table: seq<Section>, st: State, a: seq<seq<string>>, b: seq<seq<string>>)
    ensures StepBlocks(sc, table, st, a + b) == StepBlocks(sc, table, StepBlocks(sc, table, st, a), b)
    decreases |a|
  {
    hide StepLines;
    if a == [] {
      assert a + b == b;
    } else {
      assert (a + b)[1..] == a[1..] + b;
      StepBlocksConcat(sc, table, StepLines(sc, table, st, a[0]), a[1..], b);
    }
  }

  /** Blank lines between blocks change nothing. */
  lemma {:induction false} StepSpaced(sc: Strconv, table: seq<Section>, st: State, blocks: seq<seq<string>>)
    ensures StepLines(sc, table, st, Spaced(blocks)) == StepBlocks(sc, table, st, blocks)
    decreases |blocks|
  {
    hide StepLine;
    if |blocks| == 1 {
      assert blocks[1..] == [];
    } else if |blocks| > 1 {
      var mid := StepLines(sc, table, st, blocks[0]);
      StepLinesConcat(sc, table, st, blocks[0] + [""], Spaced(blocks[1..]));
      StepLinesConcat(sc, table, st, blocks[0], [""]);
      StepBlank(sc, table, mid);
      StepFirst(sc, table, mid, "", []);
      assert [""] + [] == [""];
      StepSpaced(sc, table, mid, blocks[1..]);
    }
  }

  /** All fields of a table, section after section. */
  function AllFields(table: seq<Section>): (r: seq<Field>) {
    if table == [] then [] else table[0].fields + AllFields(table[1..])
  }

  lemma SectionReturns(sc: Strconv, table: seq<Section>, doc: Object, i: nat, st: State)
    requires GoodTable(table) && i < |table|
    ensures StepLines(sc, table, st, [Header(table[i].name)] + FieldLines(sc, doc, table[i].fields))
         == State(RereadOnto(sc, false, st.doc, doc, table[i].fields), table[i].name, "", true)
  {
    hide FieldLines, StepLines, StepLine, RereadOnto, Header, IsName, ClassifySection, DistinctKeys, Trim;
    var name := table[i].name;
    assert GoodSection(table[i]);
    ClassifyName(name);
    StepFirst(sc, table, st, Header(name), FieldLines(sc, doc, table[i].fields));
    StepHeader(sc, table, st, name);
    assert table[i].fields[0..] == table[i].fields;
    FieldsReturn(sc, table, doc, i, 0, State(st.doc, name, "", true));
  }

  /** Reading the printed sections puts every table key where its field puts it. */
  lemma {:induction false} SectionsReturn(sc: Strconv, table: seq<Section>, doc: Object, i: nat, st: State)
    requires GoodTable(table) && i <= |table|
    ensures var t := StepBlocks(sc, table, st, SectionBlocks(sc, doc, table[i..]));
      && t.doc == RereadOnto(sc, false, st.doc, doc, AllFields(table[i..]))
      && (t.seen <==> st.seen || SectionBlocks(sc, doc, table[i..]) != [])
    decreases |table| - i
  {
    hide FieldLines, StepLines, RereadOnto, Header, GoodTable;
    if i == |table| {
      assert table[i..] == [];
      NothingReread(sc, st.doc, doc);
    } else {
      BlocksStep(sc, doc, table, i);
      assert table[i..][1..] == table[i + 1..] && table[i..][0] == table[i];
      RereadConcat(sc, false, st.doc, doc, table[i].fields, AllFields(table[i + 1..]));
      var lines := FieldLines(sc, doc, table[i].fields);
      if lines == [] {
        NoLinesNothingRead(sc, false, st.doc, doc, table[i].fields);
        SectionsReturn(sc, table, doc, i + 1, st);
        assert [] + SectionBlocks(sc, doc, table[i + 1..]) == SectionBlocks(sc, doc, table[i + 1..]);
      } else {
        var block := [Header(table[i].name)] + lines;
        SectionReturns(sc, table, doc, i, st);
        SectionsReturn(sc, table, doc, i + 1, StepLines(sc, table, st, block));
        assert ([block] + SectionBlocks(sc, doc, table[i + 1..]))[1..] == SectionBlocks(sc, doc, table[i + 1..]);
      }
    }
  }

  lemma NothingReread(sc: Strconv, acc: Object, doc: Object)
    ensures RereadOnto(sc, false, acc, doc, []) == acc
  {
  }
}
