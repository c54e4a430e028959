/**
 Which documents print every entry on one line.  Texts always do, because quoting escapes a newline;
 names, words and unreadable floats are printed as they are.
 */
module IniLines {
  import opened Text
  import opened IniQuoting
  import opened IniText
  import opened IniCodec
  import opened IniRoundTrip
  import opened IniObjects
  import opened IniFamilies

  // ----- values -----

  ghost predicate OneLineValue(v: Value, kind: Kind) {
    match kind
    case CsvKind => EachWithout(WordsOf(v), '\n')
    case FloatKind => v.Str? ==> Without(v.s, '\n')
    case _ => true
  }

  lemma {:induction false} WordsOnOneLine(ws: seq<string>)
    ensures Without(JoinWords(ws), '\n') <==> EachWithout(ws, '\n')
  {
    if |ws| > 1 {
      var line, rest := JoinWords(ws), JoinWords(ws[1..]);
      WordsOnOneLine(ws[1..]);
      WithoutParts(ws[0], ", " + rest, '\n');
      WithoutParts(", ", rest, '\n');
      assert line == ws[0] + (", " + rest);
      assert EachWithout(ws, '\n') <==> Without(ws[0], '\n') && EachWithout(ws[1..], '\n') by {
        assert ws == [ws[0]] + ws[1..];
        LinesWithoutParts([ws[0]], ws[1..]);
      }
    }
  }

  lemma WithoutParts(a: string, b: string, c: char)
    ensures Without(a + b, c) <==> Without(a, c) && Without(b, c)
  {
    var s := a + b;
    assert forall i :: 0 <= i < |a| ==> s[i] == a[i];
    assert forall i :: 0 <= i < |b| ==> s[|a| + i] == b[i];
  }

  lemma LinesWithoutParts(a: seq<string>, b: seq<string>)
    ensures EachWithout(a + b, '\n') <==> EachWithout(a, '\n') && EachWithout(b, '\n')
  {
    hide Without;
    var s := a + b;
    assert forall i :: 0 <= i < |a| ==> s[i] == a[i];
    assert forall i :: 0 <= i < |b| ==> s[|a| + i] == b[i];
  }

  lemma NumberOnOneLine(n: int)
    ensures Without(Itoa(n), '\n')
  {
    hide Itoa;
    ItoaIsPlain(n);
  }

  /** A value is printed on one line exactly when what is printed as it stands has no newline. */
  lemma OneLineIff(sc: Strconv, v: Value, kind: Kind)
    requires Lawful(sc) && Representable(sc, v)
    ensures Without(Format(sc, v, kind), '\n') <==> OneLineValue(v, kind)
  {
    hide Itoa, JoinWords, WordsOf, IntOf, BoolOf, FormatText;
    match kind
    case BoolKind =>
    case IntKind => NumberOnOneLine(IntOf(sc, v));
    case FloatKind =>
      if v.Float? {
        assert Plain(sc.formatFloat(v.r));
      } else if !v.Str? {
        NumberOnOneLine(IntOf(sc, v));
      }
    case CsvKind => WordsOnOneLine(WordsOf(v));
    case StringKind => TextIsOneLine(sc, StringOf(v));
  }

  // ----- lines -----

  ghost predicate OneLineFields(obj: Object, fields: seq<Field>) {
    forall k :: 0 <= k < |fields| && fields[k].docKey in obj ==> OneLineValue(obj[fields[k].docKey], fields[k].kind)
  }

  ghost predicate NamedFields(fields: seq<Field>) {
    forall k :: 0 <= k < |fields| ==> IsName(fields[k].key)
  }

  lemma KeyLineWithout(key: string, printed: string)
    requires IsName(key)
    ensures Without(KeyLine(key, printed), '\n') <==> Without(printed, '\n')
  {
    hide IsName, Without;
    NameFacts(key);
    WithoutParts(key + " = ", printed, '\n');
    WithoutParts(key, " = ", '\n');
    assert Without(" = ", '\n') by {
      PlainSeparator();
    }
  }

  lemma PlainSeparator()
    ensures Without(" = ", '\n')
  {
  }

  lemma {:induction false} FieldLinesIff(sc: Strconv, obj: Object, fields: seq<Field>)
    requires Lawful(sc) && RepresentableObject(sc, obj) && NamedFields(fields)
    ensures EachWithout(FieldLines(sc, obj, fields), '\n') <==> OneLineFields(obj, fields)
    decreases |fields|
  {
    hide Lawful, Representable, Format, KeyLine, IsName, Without, OneLineValue;
    if fields != [] {
      var field, rest := fields[0], fields[1..];
      FieldLinesIff(sc, obj, rest);
      if field.docKey in obj {
        var line := KeyLine(field.key, Format(sc, obj[field.docKey], field.kind));
        OneLineIff(sc, obj[field.docKey], field.kind);
        KeyLineWithout(field.key, Format(sc, obj[field.docKey], field.kind));
        LinesWithoutParts([line], FieldLines(sc, obj, rest));
        assert [line][0] == line;
        assert FieldLines(sc, obj, fields) == [line] + FieldLines(sc, obj, rest);
      } else {
        assert FieldLines(sc, obj, fields) == FieldLines(sc, obj, rest);
      }
      FieldsStep(obj, fields);
    }
  }

  lemma FieldsStep(obj: Object, fields: seq<Field>)
    requires fields != []
    ensures OneLineFields(obj, fields) <==>
      (fields[0].docKey in obj ==> OneLineValue(obj[fields[0].docKey], fields[0].kind)) && OneLineFields(obj, fields[1..])
  {
    hide OneLineValue;
    var rest := fields[1..];
    assert forall k :: 0 <= k < |rest| ==> rest[k] == fields[k + 1];
    assert forall k :: 0 < k < |fields| ==> fields[k] == rest[k - 1];
  }

  lemma {:induction false} RepeatedOnOneLine(sc: Strconv, key: string, items: seq<string>)
    requires Lawful(sc) && IsName(key)
    ensures EachWithout(RepeatedLines(sc, key, items), '\n')
    decreases |items|
  {
    hide Lawful, FormatText, KeyLine, IsName, Without;
    if items != [] {
      RepeatedOnOneLine(sc, key, items[1..]);
      TextIsOneLine(sc, items[0]);
      KeyLineWithout(key, FormatText(sc, items[0]));
      LinesWithoutParts([KeyLine(key, FormatText(sc, items[0]))], RepeatedLines(sc, key, items[1..]));
    }
  }

  // ----- blocks -----

  ghost predicate OneLineBlocks(blocks: seq<seq<string>>) {
    forall k :: 0 <= k < |blocks| ==> EachWithout(blocks[k], '\n')
  }

  lemma {:induction false} SpacedOnOneLine(blocks: seq<seq<string>>)
    requires OneLineBlocks(blocks)
    ensures EachWithout(Spaced(blocks), '\n')
    decreases |blocks|
  {
    hide EachWithout;
    if |blocks| > 1 {
      SpacedOnOneLine(blocks[1..]);
      LinesWithoutParts(blocks[0] + [""], Spaced(blocks[1..]));
      LinesWithoutParts(blocks[0], [""]);
      BlankLine();
    } else if blocks == [] {
      NoLine();
    }
  }

  lemma BlankLine()
    ensures EachWithout([""], '\n')
  {
  }

  lemma NoLine()
    ensures EachWithout([], '\n')
  {
  }

  lemma HeaderWithout(name: string)
    ensures Without(Header(name), '\n') <==> Without(name, '\n')
  {
    WithoutParts("[" + name, "]", '\n');
    WithoutParts("[", name, '\n');
  }

  /** The object has no newline in its name, its words or its unreadable floats. */
  ghost predicate OneLineObject(f: Family, obj: Object) {
    Without(NameOf(f, obj), '\n') && OneLineFields(obj, FieldsOf(f))
  }

  lemma FamilyFieldsNamed(f: Family)
    ensures NamedFields(FieldsOf(f))
  {
    hide IsName, FieldsOf;
    forall k | 0 <= k < |FieldsOf(f)|
      ensures IsName(FieldsOf(f)[k].key)
    {
      FieldFacts(f, k);
    }
  }

  lemma ObjectOnOneLine(sc: Strconv, f: Family, obj: Object)
    requires Lawful(sc) && RepresentableObject(sc, obj) && OneLineObject(f, obj)
    ensures EachWithout([Header(SectionName(f) + ":" + NameOf(f, obj))] + ObjectLines(sc, f, obj), '\n')
  {
    hide Lawful, RepresentableObject, OneLineFields, FieldsOf, FieldLines, RepeatedLines, PubkeyItems, NamedFields, NameOf, IsName;
    FamilyFieldsNamed(f);
    FieldLinesIff(sc, obj, FieldsOf(f));
    if f.User? {
      PubkeyIsName();
      RepeatedOnOneLine(sc, "pubkey", PubkeyItems(obj));
      LinesWithoutParts(FieldLines(sc, obj, FieldsOf(f)), RepeatedLines(sc, "pubkey", PubkeyItems(obj)));
    }
    var name := SectionName(f) + ":" + NameOf(f, obj);
    HeaderWithout(name);
    WithoutParts(SectionName(f) + ":", NameOf(f, obj), '\n');
    LinesWithoutParts([Header(name)], ObjectLines(sc, f, obj));
  }

  lemma {:induction false} ObjectsOnOneLine(sc: Strconv, f: Family, objs: seq<Object>)
    requires Lawful(sc) && forall i :: 0 <= i < |objs| ==> RepresentableObject(sc, objs[i]) && OneLineObject(f, objs[i])
    ensures OneLineBlocks(ObjectBlocks(sc, f, objs))
    decreases |objs|
  {
    hide Lawful, RepresentableObject, OneLineObject, ObjectLines, Header, SectionName, NameOf, EachWithout;
    if objs != [] {
      ObjectOnOneLine(sc, f, objs[0]);
      ObjectsOnOneLine(sc, f, objs[1..]);
    }
  }

  lemma {:induction false} SectionsOnOneLine(sc: Strconv, doc: Object, table: seq<Section>)
    requires Lawful(sc) && RepresentableObject(sc, doc) && GoodTable(table) && OneLineFields(doc, AllFields(table))
    ensures OneLineBlocks(SectionBlocks(sc, doc, table))
    decreases |table|
  {
    hide Lawful, RepresentableObject, IsName, Header, FieldLines, DistinctKeys, OneLineValue, EachWithout;
    if table != [] {
      var section, rest := table[0], AllFields(table[1..]);
      assert AllFields(table) == section.fields + rest;
      assert forall k :: 0 <= k < |section.fields| ==> AllFields(table)[k] == section.fields[k];
      assert forall k :: 0 <= k < |rest| ==> AllFields(table)[|section.fields| + k] == rest[k];
      assert GoodSection(section);
      FieldLinesIff(sc, doc, section.fields);
      NameFacts(section.name);
      HeaderWithout(section.name);
      OneHeader(section.name);
      LinesWithoutParts([Header(section.name)], FieldLines(sc, doc, section.fields));
      SectionsOnOneLine(sc, doc, table[1..]);
    }
  }

  lemma OneHeader(name: string)
    requires Without(Header(name), '\n')
    ensures EachWithout([Header(name)], '\n')
  {
  }
}
