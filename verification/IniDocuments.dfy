/**
 Whole documents: what the parser makes of a printed document, exactly which documents come back,
 and what form every parsed document has.
 */
module IniDocuments {
  import opened Text
  import opened IniQuoting
  import opened IniText
  import opened IniCodec
  import opened IniRoundTrip
  import opened IniObjects
  import opened IniFamilies
  import opened IniLines

  // ----- the document that is read -----

  /** The list of a family as it is read from the printed document. */
  function ListRead(sc: Strconv, doc: Object, f: Family): (r: seq<Object>) {
    RereadList(sc, f, SortByName(f, ObjectsIn(doc, DocKey(f))))
  }

  function ScalarsRead(sc: Strconv, table: seq<Section>, doc: Object): (r: Object) {
    RereadOnto(sc, false, map[], doc, AllFields(table))
  }

  /** The document that the printed document reads as. */
  function DocumentRead(sc: Strconv, table: seq<Section>, doc: Object): (r: Object) {
    PutList(PutList(PutList(ScalarsRead(sc, table, doc), User, ListRead(sc, doc, User)),
                    Route, ListRead(sc, doc, Route)),
            Policy, ListRead(sc, doc, Policy))
  }

  ghost function FamilyBlocks(sc: Strconv, doc: Object, f: Family): (r: seq<seq<string>>) {
    ObjectBlocks(sc, f, SortByName(f, ObjectsIn(doc, DocKey(f))))
  }

  lemma DocKeysDiffer()
    ensures DocKey(User) != DocKey(Route) && DocKey(User) != DocKey(Policy) && DocKey(Route) != DocKey(Policy)
  {
    assert |DocKey(User)| == 5 && |DocKey(Route)| == 6 && |DocKey(Policy)| == 8;
  }

  /** No field of the table is printed from a list's key. */
  lemma {:induction false} TableAvoidsFamilies(table: seq<Section>, f: Family)
    requires GoodTable(table)
    ensures FieldFor(AllFields(table), DocKey(f)).None?
    decreases |table|
  {
    hide IsName, DistinctKeys, FieldFor;
    FieldForIsField(AllFields(table), DocKey(f));
    if FieldFor(AllFields(table), DocKey(f)).Some? {
      var k :| 0 <= k < |AllFields(table)| && AllFields(table)[k] == FieldFor(AllFields(table), DocKey(f)).value;
      AllFieldsGood(table, k);
      assert false;
    }
  }

  lemma {:induction false} AllFieldsGood(table: seq<Section>, k: nat)
    requires GoodTable(table) && k < |AllFields(table)|
    ensures GoodField(AllFields(table)[k])
    decreases |table|
  {
    hide IsName, DistinctKeys, GoodField;
    var n := |table[0].fields|;
    assert GoodSection(table[0]);
    if k < n {
      assert AllFields(table)[k] == table[0].fields[k];
    } else {
      AllFieldsGood(table[1..], k - n);
      assert AllFields(table)[k] == AllFields(table[1..])[k - n];
    }
  }

  lemma ScalarsAvoidFamilies(sc: Strconv, table: seq<Section>, doc: Object, f: Family)
    requires GoodTable(table)
    ensures DocKey(f) !in ScalarsRead(sc, table, doc)
  {
    hide GoodTable, FieldFor, RereadOnto, Reread;
    TableAvoidsFamilies(table, f);
    RereadAt(sc, false, map[], doc, AllFields(table), DocKey(f));
  }

  ghost function ThreeFamilies(sc: Strconv, doc: Object): (r: seq<seq<string>>) {
    FamilyBlocks(sc, doc, User) + FamilyBlocks(sc, doc, Route) + FamilyBlocks(sc, doc, Policy)
  }

  lemma BlocksAreParts(sc: Strconv, table: seq<Section>, doc: Object)
    ensures Blocks(sc, table, doc) == SectionBlocks(sc, doc, table) + ThreeFamilies(sc, doc)
  {
    hide SectionBlocks, ObjectBlocks, SortByName, ObjectsIn;
  }

  /** The blocks of one family put its list into the document. */
  lemma FamilyRead(sc: Strconv, table: seq<Section>, st: State, doc: Object, f: Family)
    requires DocKey(f) !in st.doc
    ensures var t := StepBlocks(sc, table, st, FamilyBlocks(sc, doc, f));
      t.doc == PutList(st.doc, f, ListRead(sc, doc, f)) && (t.seen <==> st.seen || FamilyBlocks(sc, doc, f) != [])
  {
    hide ObjectBlocks, SortByName, DocKey, ObjectsIn, StepBlocks;
    var objs := SortByName(f, ObjectsIn(doc, DocKey(f)));
    assert objs[..0] == [] && objs[0..] == objs;
    FamilyReturns(sc, table, st, st.doc, f, objs, 0);
  }

  lemma PutElsewhere(base: Object, f: Family, g: Family, list: seq<Object>)
    requires f != g && DocKey(g) !in base
    ensures DocKey(g) !in PutList(base, f, list)
  {
    DocKeysDiffer();
  }

  /** Reading all printed blocks from the start. */
  lemma BlocksRead(sc: Strconv, table: seq<Section>, doc: Object)
    requires GoodTable(table)
    ensures var t := StepBlocks(sc, table, START, Blocks(sc, table, doc));
      t.doc == DocumentRead(sc, table, doc) && (t.seen <==> Blocks(sc, table, doc) != [])
  {
    hide GoodTable, StepBlocks, SectionBlocks, Blocks, DocKey, PutList, ScalarsRead, ListRead, FamilyBlocks;
    var sections := SectionBlocks(sc, doc, table);
    var users, routes, policies := FamilyBlocks(sc, doc, User), FamilyBlocks(sc, doc, Route), FamilyBlocks(sc, doc, Policy);
    SectionsRead(sc, table, doc);
    ScalarsAvoidFamilies(sc, table, doc, User);
    ScalarsAvoidFamilies(sc, table, doc, Route);
    ScalarsAvoidFamilies(sc, table, doc, Policy);
    var st0 := StepBlocks(sc, table, START, sections);
    var st1 := StepBlocks(sc, table, st0, users);
    var st2 := StepBlocks(sc, table, st1, routes);
    FamilyRead(sc, table, st0, doc, User);
    PutElsewhere(st0.doc, User, Route, ListRead(sc, doc, User));
    PutElsewhere(st0.doc, User, Policy, ListRead(sc, doc, User));
    FamilyRead(sc, table, st1, doc, Route);
    PutElsewhere(st1.doc, Route, Policy, ListRead(sc, doc, Route));
    FamilyRead(sc, table, st2, doc, Policy);
    BlocksAreParts(sc, table, doc);
    assert sections + (users + routes + policies) == sections + users + routes + policies;
    StepBlocksConcat(sc, table, START, sections + users + routes, policies);
    StepBlocksConcat(sc, table, START, sections + users, routes);
    StepBlocksConcat(sc, table, START, sections, users);
  }

  lemma SectionsRead(sc: Strconv, table: seq<Section>, doc: Object)
    requires GoodTable(table)
    ensures var t := StepBlocks(sc, table, START, SectionBlocks(sc, doc, table));
      t.doc == ScalarsRead(sc, table, doc) && (t.seen <==> SectionBlocks(sc, doc, table) != [])
  {
    hide GoodTable, StepBlocks, SectionBlocks, RereadOnto;
    assert table[0..] == table;
    SectionsReturn(sc, table, doc, 0, START);
  }

  // ----- parsing what was printed -----

  lemma TrailingBlank(sc: Strconv, table: seq<Section>, st: State, lines: seq<string>)
    ensures StepLines(sc, table, st, lines + [""]) == StepLines(sc, table, st, lines)
  {
    hide StepLine;
    StepLinesConcat(sc, table, st, lines, [""]);
    var mid := StepLines(sc, table, st, lines);
    StepFirst(sc, table, mid, "", []);
    assert [""] + [] == [""];
    StepBlank(sc, table, mid);
  }

  lemma ShortLines(lines: seq<string>)
    ensures EachShort(lines + [""]) <==> EachShort(lines)
  {
    if EachShort(lines + [""]) {
      forall k | 0 <= k < |lines|
        ensures |lines[k]| < MAX_LINE
      {
        assert (lines + [""])[k] == lines[k];
      }
    }
  }

  /** The lines that the printer writes for a document. */
  function PrintedLines(sc: Strconv, table: seq<Section>, doc: Object): (r: seq<string>) {
    Spaced(Blocks(sc, table, doc))
  }

  /**
   What the parser makes of a printed document whose lines hold no newline of their own: an error for
   a line at the scanner's limit, an error when nothing was printed, else the document read.
   */
  lemma ParseOfRender(sc: Strconv, table: seq<Section>, doc: Object)
    requires GoodTable(table) && EachWithout(PrintedLines(sc, table, doc), '\n')
    ensures ParseResult(sc, table, RenderText(sc, table, doc))
         == if !EachShort(PrintedLines(sc, table, doc)) then TooLong
            else if Blocks(sc, table, doc) == [] then NoSections
            else Ok(DocumentRead(sc, table, doc))
  {
    hide GoodTable, StepBlocks, StepLines, Blocks, Spaced, Split, Terminated, EachWithout, DocumentRead, EachShort;
    var lines := PrintedLines(sc, table, doc);
    SplitOfTerminated(lines);
    ShortLines(lines);
    TrailingBlank(sc, table, START, lines);
    StepSpaced(sc, table, START, Blocks(sc, table, doc));
    BlocksRead(sc, table, doc);
    if Blocks(sc, table, doc) == [] {
      NothingStepped(sc, table);
    }
  }

  lemma NothingStepped(sc: Strconv, table: seq<Section>)
    ensures StepBlocks(sc, table, START, []) == START
  {
  }

  /** A document that prints nothing is refused. */
  lemma NothingPrintedIsRefused(sc: Strconv, table: seq<Section>, doc: Object)
    requires GoodTable(table) && Blocks(sc, table, doc) == []
    ensures ParseResult(sc, table, RenderText(sc, table, doc)) == NoSections
  {
    hide GoodTable, Blocks;
    ParseOfRender(sc, table, doc);
  }

  // ----- which documents come back -----

  ghost predicate IsFamilyKey(key: string) {
    key == DocKey(User) || key == DocKey(Route) || key == DocKey(Policy)
  }

  ghost predicate ScalarFits(sc: Strconv, table: seq<Section>, d: string, v: Value) {
    var field := FieldFor(AllFields(table), d);
    field.Some? && FitsKind(sc, v, field.value.kind)
  }

  ghost predicate ListFits(sc: Strconv, f: Family, v: Value) {
    v.Objs? && v.objs != [] && FamilyFits(sc, f, v.objs)
  }

  /**
   The documents that come back: not empty; every table key known and of its kind; every list not
   empty, of fitting objects in strictly increasing order of their names; and no line too long.
   */
  ghost predicate NormalForm(sc: Strconv, table: seq<Section>, doc: Object) {
    && doc != map[]
    && (forall d :: d in doc && !IsFamilyKey(d) ==> ScalarFits(sc, table, d, doc[d]))
    && (forall f: Family :: DocKey(f) in doc ==> ListFits(sc, f, doc[DocKey(f)]))
    && EachShort(PrintedLines(sc, table, doc))
  }

  /** Every number in the document is one the program can hold. */
  ghost predicate RepresentableDocument(sc: Strconv, doc: Object) {
    && RepresentableObject(sc, doc)
    && (forall d, i :: d in doc && doc[d].Objs? && 0 <= i < |doc[d].objs| ==> RepresentableObject(sc, doc[d].objs[i]))
  }

  /** The document read, at a table key. */
  lemma ScalarReadAt(sc: Strconv, table: seq<Section>, doc: Object, d: string)
    requires Lawful(sc) && GoodTable(table) && RepresentableDocument(sc, doc) && !IsFamilyKey(d)
    ensures var r := DocumentRead(sc, table, doc);
      if d in doc then (d in r && r[d] == doc[d]) <==> ScalarFits(sc, table, d, doc[d]) else d !in r
  {
    hide Lawful, GoodTable, Representable, FieldFor, RereadOnto, Reread, FitsKind, ListRead;
    RereadAt(sc, false, map[], doc, AllFields(table), d);
    var field := FieldFor(AllFields(table), d);
    if d in doc && field.Some? {
      ScalarReturnsIff(sc, table, field.value, d, doc[d]);
    }
  }

  lemma ScalarReturnsIff(sc: Strconv, table: seq<Section>, field: Field, d: string, v: Value)
    requires Lawful(sc) && GoodTable(table) && Representable(sc, v) && FieldFor(AllFields(table), d) == Some(field)
    ensures Reread(sc, false, field, v) == v <==> FitsKind(sc, v, field.kind)
  {
    hide Lawful, GoodTable, Representable, FieldFor, FitsKind, Typed, ReadBack, Format, ParseList;
    ValueReturnsIff(sc, v, field.kind);
  }

  /** The document read, at a list's key. */
  lemma ListReadAt(sc: Strconv, table: seq<Section>, doc: Object, f: Family)
    requires Lawful(sc) && GoodTable(table) && RepresentableDocument(sc, doc)
    ensures var r := DocumentRead(sc, table, doc);
      var k := DocKey(f);
      if k in doc then (k in r && r[k] == doc[k]) <==> ListFits(sc, f, doc[k]) else k !in r
  {
    hide Lawful, GoodTable, FamilyFits, RereadList, SortByName, ScalarsRead, RepresentableObject;
    DocKeysDiffer();
    ScalarsAvoidFamilies(sc, table, doc, f);
    var k, list := DocKey(f), ListRead(sc, doc, f);
    assert (k in DocumentRead(sc, table, doc) <==> list != []) && (list != [] ==> DocumentRead(sc, table, doc)[k] == Objs(list));
    if k in doc && doc[k].Objs? {
      FamilyReturnsIff(sc, f, doc[k].objs);
    } else {
      NothingListed(sc, f);
    }
  }

  lemma NothingListed(sc: Strconv, f: Family)
    ensures RereadList(sc, f, SortByName(f, [])) == []
  {
  }

  lemma NothingInEmpty(sc: Strconv, table: seq<Section>)
    ensures Blocks(sc, table, map[]) == []
  {
    hide SectionBlocks, ObjectBlocks;
    NoSectionPrinted(sc, map[], table);
    NoObjectBlocks(sc, User);
    NoObjectBlocks(sc, Route);
    NoObjectBlocks(sc, Policy);
    assert SortByName(User, []) == [] && SortByName(Route, []) == [] && SortByName(Policy, []) == [];
  }

  lemma {:induction false} NoSectionPrinted(sc: Strconv, doc: Object, table: seq<Section>)
    requires forall k :: 0 <= k < |AllFields(table)| ==> AllFields(table)[k].docKey !in doc
    ensures SectionBlocks(sc, doc, table) == []
    decreases |table|
  {
    hide FieldLines;
    if table != [] {
      var fields, rest := table[0].fields, AllFields(table[1..]);
      assert AllFields(table) == fields + rest;
      assert forall k :: 0 <= k < |fields| ==> AllFields(table)[k] == fields[k];
      assert forall k :: 0 <= k < |rest| ==> AllFields(table)[|fields| + k] == rest[k];
      NothingPrinted(sc, doc, fields);
      NoSectionPrinted(sc, doc, table[1..]);
    }
  }

  /** A document with an entry that is read prints something. */
  lemma ReadMeansPrinted(sc: Strconv, table: seq<Section>, doc: Object)
    requires GoodTable(table) && Blocks(sc, table, doc) == []
    ensures DocumentRead(sc, table, doc) == map[]
  {
    hide GoodTable, Blocks, DocumentRead;
    BlocksRead(sc, table, doc);
    NothingStepped(sc, table);
  }

  /**
   The round trip, exactly: of the documents whose printed lines hold no newline of their own, those
   in normal form come back, and no others.
   */
  lemma ReturnsIff(sc: Strconv, table: seq<Section>, doc: Object)
    requires Lawful(sc) && GoodTable(table) && RepresentableDocument(sc, doc)
    requires EachWithout(PrintedLines(sc, table, doc), '\n')
    ensures ParseResult(sc, table, RenderText(sc, table, doc)) == Ok(doc) <==> NormalForm(sc, table, doc)
  {
    hide Lawful, GoodTable, RepresentableDocument, EachWithout, EachShort, Blocks, Spaced, ParseResult, RenderText, DocumentRead,
      ScalarFits, ListFits, IsFamilyKey;
    ParseOfRender(sc, table, doc);
    NothingInEmpty(sc, table);
    var r := DocumentRead(sc, table, doc);
    SameIff(sc, table, doc);
    if NormalForm(sc, table, doc) && Blocks(sc, table, doc) == [] {
      ReadMeansPrinted(sc, table, doc);
      assert false;
    }
  }

  /** The document is read as it was exactly when every entry fits. */
  lemma SameIff(sc: Strconv, table: seq<Section>, doc: Object)
    requires Lawful(sc) && GoodTable(table) && RepresentableDocument(sc, doc)
    ensures DocumentRead(sc, table, doc) == doc <==>
      && (forall d :: d in doc && !IsFamilyKey(d) ==> ScalarFits(sc, table, d, doc[d]))
      && (forall f: Family :: DocKey(f) in doc ==> ListFits(sc, f, doc[DocKey(f)]))
  {
    hide Lawful, GoodTable, RepresentableDocument, DocumentRead, ScalarFits, ListFits;
    var r := DocumentRead(sc, table, doc);
    forall d | !IsFamilyKey(d)
      ensures if d in doc then (d in r && r[d] == doc[d]) <==> ScalarFits(sc, table, d, doc[d]) else d !in r
    {
      ScalarReadAt(sc, table, doc, d);
    }
    forall f: Family
      ensures var k := DocKey(f); if k in doc then (k in r && r[k] == doc[k]) <==> ListFits(sc, f, doc[k]) else k !in r
    {
      ListReadAt(sc, table, doc, f);
    }
    if (forall d :: d in doc && !IsFamilyKey(d) ==> ScalarFits(sc, table, d, doc[d]))
       && (forall f: Family :: DocKey(f) in doc ==> ListFits(sc, f, doc[DocKey(f)])) {
      forall d
        ensures (d in r <==> d in doc) && (d in doc ==> r[d] == doc[d])
      {
        if IsFamilyKey(d) {
          var f := if d == DocKey(User) then User else if d == DocKey(Route) then Route else Policy;
          assert d == DocKey(f);
        }
      }
    }
  }

  // ----- documents that print line by line -----

  ghost predicate OneLineList(f: Family, objs: seq<Object>) {
    forall i :: 0 <= i < |objs| ==> OneLineObject(f, objs[i])
  }

  /** No name, no word and no unreadable float of the document holds a newline. */
  ghost predicate OneLineDocument(table: seq<Section>, doc: Object) {
    OneLineFields(doc, AllFields(table)) && forall f: Family :: OneLineList(f, ObjectsIn(doc, DocKey(f)))
  }

  lemma FamilyOnOneLine(sc: Strconv, table: seq<Section>, doc: Object, f: Family)
    requires Lawful(sc) && RepresentableDocument(sc, doc) && OneLineDocument(table, doc)
    ensures OneLineBlocks(FamilyBlocks(sc, doc, f))
  {
    hide Lawful, RepresentableObject, OneLineObject, OneLineFields, SortByName, DocKey, ObjectBlocks, OneLineBlocks;
    var objs := ObjectsIn(doc, DocKey(f));
    var sorted := SortByName(f, objs);
    SortSorts(f, objs);
    assert OneLineList(f, objs);
    forall i | 0 <= i < |sorted|
      ensures RepresentableObject(sc, sorted[i]) && OneLineObject(f, sorted[i])
    {
      assert sorted[i] in multiset(sorted);
      assert sorted[i] in objs;
    }
    ObjectsOnOneLine(sc, f, sorted);
  }

  /** Such a document is in the domain of the round trip. */
  lemma PrintedOnOneLine(sc: Strconv, table: seq<Section>, doc: Object)
    requires Lawful(sc) && GoodTable(table) && RepresentableDocument(sc, doc) && OneLineDocument(table, doc)
    ensures EachWithout(PrintedLines(sc, table, doc), '\n')
  {
    hide Lawful, GoodTable, RepresentableObject, OneLineFields, OneLineList, ObjectsIn, DocKey, SectionBlocks, FamilyBlocks,
      Blocks, Spaced, EachWithout;
    SectionsOnOneLine(sc, doc, table);
    FamilyOnOneLine(sc, table, doc, User);
    FamilyOnOneLine(sc, table, doc, Route);
    FamilyOnOneLine(sc, table, doc, Policy);
    BlocksAreParts(sc, table, doc);
    SpacedOnOneLine(Blocks(sc, table, doc));
  }

  // ----- what the text looks like -----

  lemma TwoBlocksText(a: string, b: string, c: string, d: string)
    ensures Terminated(Spaced([[a, b], [c, d]])) == a + "\n" + b + "\n" + "\n" + c + "\n" + d + "\n"
  {
    hide Terminated;
    var blocks := [[a, b], [c, d]];
    assert blocks[1..] == [[c, d]];
    assert Spaced(blocks) == [a] + ([b] + ([""] + ([c] + ([d] + []))));
    FirstTerminated(d, []);
    FirstTerminated(c, [d] + []);
    FirstTerminated("", [c] + ([d] + []));
    FirstTerminated(b, [""] + ([c] + ([d] + [])));
    FirstTerminated(a, [b] + ([""] + ([c] + ([d] + []))));
    assert Terminated(Spaced(blocks)) == a + "\n" + (b + "\n" + ("" + "\n" + (c + "\n" + (d + "\n" + ""))));
  }

  lemma FirstTerminated(x: string, lines: seq<string>)
    ensures Terminated([x] + lines) == x + "\n" + Terminated(lines) && Terminated([]) == ""
  {
    assert ([x] + lines)[1..] == lines;
  }

  lemma OneFieldBlock(sc: Strconv, doc: Object, section: string, field: Field)
    requires field.docKey in doc
    ensures SectionBlocks(sc, doc, [Section(section, [field])])
         == [[Header(section), KeyLine(field.key, Format(sc, doc[field.docKey], field.kind))]]
  {
    hide Header, KeyLine, Format;
    var table := [Section(section, [field])];
    assert table[1..] == [] && table[0].fields[1..] == [];
    var line := KeyLine(field.key, Format(sc, doc[field.docKey], field.kind));
    var fields := [field];
    assert fields[1..] == [];
    assert FieldLines(sc, doc, fields) == [line] + FieldLines(sc, doc, fields[1..]) == [line];
    assert SectionBlocks(sc, doc, table) == [[Header(section)] + FieldLines(sc, doc, fields)] + SectionBlocks(sc, doc, table[1..]);
    assert SectionBlocks(sc, doc, table[1..]) == [];
    assert [Header(section)] + [line] == [Header(section), line];
  }

  lemma OneKeyBlock(sc: Strconv, name: string, k: string)
    requires name != "" && k != ""
    ensures var obj: Object := map["username" := Str(name), "pubkey" := Str(k)];
      ObjectBlocks(sc, User, SortByName(User, [obj])) == [[Header("user:" + name), KeyLine("pubkey", FormatText(sc, k))]]
  {
    hide Header, KeyLine, FormatText, FieldLines, FieldsOf, ObjectBlocks, ObjectLines;
    var obj: Object := map["username" := Str(name), "pubkey" := Str(k)];
    forall i | 0 <= i < |FieldsOf(User)|
      ensures FieldsOf(User)[i].docKey !in obj
    {
      FieldFacts(User, i);
    }
    NothingPrinted(sc, obj, FieldsOf(User));
    KeyLinesOnly(sc, obj, k);
    var objs := [obj];
    SortedStays(User, objs);
    ObjectBlocksStep(sc, User, objs, 0);
    NoObjectBlocks(sc, User);
    assert objs[0..] == objs && objs[1..] == [];
    assert "user" + ":" + name == "user:" + name;
    var line := KeyLine("pubkey", FormatText(sc, k));
    var block := [Header("user:" + name), line];
    assert [Header("user:" + name)] + [line] == block && [block] + [] == [block];
  }

  lemma KeyLinesOnly(sc: Strconv, obj: Object, k: string)
    requires "pubkey" in obj && obj["pubkey"] == Str(k) && k != "" && FieldLines(sc, obj, FieldsOf(User)) == []
    ensures ObjectLines(sc, User, obj) == [KeyLine("pubkey", FormatText(sc, k))]
  {
    hide KeyLine, FormatText, FieldLines, FieldsOf;
    var line := KeyLine("pubkey", FormatText(sc, k));
    assert [k][1..] == [];
    assert RepeatedLines(sc, "pubkey", [k]) == [line] + [];
  }

  /** Headers in brackets, keys and values around an equals sign, a blank line between sections. */
  lemma Layout(sc: Strconv, section: string, field: Field, v: Value, name: string, k: string)
    requires FreeKey(field.docKey) && name != "" && k != ""
    ensures var doc: Object := map[field.docKey := v, "users" := Objs([map["username" := Str(name), "pubkey" := Str(k)]])];
      RenderText(sc, [Section(section, [field])], doc)
      == "[" + section + "]" + "\n" + (field.key + " = " + Format(sc, v, field.kind)) + "\n" + "\n"
         + ("[" + ("user:" + name) + "]") + "\n" + ("pubkey" + " = " + FormatText(sc, k)) + "\n"
  {
    hide SectionBlocks, ObjectBlocks, SortByName, Format, FormatText, Spaced, Terminated;
    var obj: Object := map["username" := Str(name), "pubkey" := Str(k)];
    var doc: Object := map[field.docKey := v, "users" := Objs([obj])];
    OneFieldBlock(sc, doc, section, field);
    OneKeyBlock(sc, name, k);
    NothingSortedYet(Route);
    NothingSortedYet(Policy);
    NoObjectBlocks(sc, Route);
    NoObjectBlocks(sc, Policy);
    var a, b := Header(section), KeyLine(field.key, Format(sc, v, field.kind));
    var c, d := Header("user:" + name), KeyLine("pubkey", FormatText(sc, k));
    assert ObjectsIn(doc, "routes") == [] && ObjectsIn(doc, "policies") == [] by {
      DocKeysDiffer();
    }
    assert Blocks(sc, [Section(section, [field])], doc) == [[a, b]] + [[c, d]] + [] + [];
    assert [[a, b]] + [[c, d]] + [] + [] == [[a, b], [c, d]];
    TwoBlocksText(a, b, c, d);
  }

  lemma NothingSortedYet(f: Family)
    ensures SortByName(f, []) == []
  {
  }

  // ----- documents that do not come back -----

  /** An object that has only its name prints a header, and the header alone creates nothing. */
  lemma BareObjectIsLost(sc: Strconv, table: seq<Section>, f: Family, name: string)
    requires GoodTable(table) && name != "" && Without(name, '\n') && |name| < 60000
    ensures var doc: Object := map[DocKey(f) := Objs([map[IdKey(f) := Str(name)]])];
      ParseResult(sc, table, RenderText(sc, table, doc)) == Ok(map[])
  {
    hide GoodTable, Blocks, DocumentRead, DocKey, IdKey, SectionName, Header;
    var obj: Object := map[IdKey(f) := Str(name)];
    var doc: Object := map[DocKey(f) := Objs([obj])];
    BareBlocks(sc, table, f, obj, doc, name);
    BareRead(sc, table, f, obj, doc);
    BareHeaderFits(f, name);
    ParseOfRender(sc, table, doc);
  }

  lemma BareHeaderFits(f: Family, name: string)
    requires Without(name, '\n') && |name| < 60000
    ensures var line := Header(SectionName(f) + ":" + name); Without(line, '\n') && |line| < MAX_LINE
  {
  }

  lemma BareBlocks(sc: Strconv, table: seq<Section>, f: Family, obj: Object, doc: Object, name: string)
    requires GoodTable(table) && name != "" && obj == map[IdKey(f) := Str(name)] && doc == map[DocKey(f) := Objs([obj])]
    ensures Blocks(sc, table, doc) == [[Header(SectionName(f) + ":" + name)]]
  {
    hide GoodTable, SectionBlocks, ObjectBlocks, Header, SectionName, ObjectLines;
    forall k | 0 <= k < |AllFields(table)|
      ensures AllFields(table)[k].docKey !in doc
    {
      AllFieldsGood(table, k);
    }
    NoSectionPrinted(sc, doc, table);
    DocKeysDiffer();
    forall g: Family
      ensures FamilyBlocks(sc, doc, g) == if g == f then [[Header(SectionName(f) + ":" + name)]] else []
    {
      if g == f {
        BareBlock(sc, f, obj, name);
      } else {
        NoObjectBlocks(sc, g);
        assert SortByName(g, []) == [];
      }
    }
    BlocksAreParts(sc, table, doc);
    match f
    case User =>
    case Route =>
    case Policy =>
  }

  lemma BareBlock(sc: Strconv, f: Family, obj: Object, name: string)
    requires name != "" && obj == map[IdKey(f) := Str(name)]
    ensures ObjectBlocks(sc, f, SortByName(f, [obj])) == [[Header(SectionName(f) + ":" + name)]]
  {
    hide Header, ObjectBlocks, ObjectLines, SectionName;
    var objs := [obj];
    assert SortedByName(f, objs);
    SortedStays(f, objs);
    NothingButName(sc, f, obj);
    ObjectBlocksStep(sc, f, objs, 0);
    NoObjectBlocks(sc, f);
    assert objs[0..] == objs && objs[1..] == [];
    var block := [Header(SectionName(f) + ":" + name)];
    assert block + [] == block;
  }

  lemma BareRead(sc: Strconv, table: seq<Section>, f: Family, obj: Object, doc: Object)
    requires GoodTable(table) && obj.Keys == {IdKey(f)} && doc == map[DocKey(f) := Objs([obj])]
    ensures DocumentRead(sc, table, doc) == map[]
  {
    hide GoodTable, ObjectLines, FieldFor, RereadOnto, SortByName;
    forall d
      ensures d !in ScalarsRead(sc, table, doc)
    {
      RereadAt(sc, false, map[], doc, AllFields(table), d);
      TableAvoidsFamilies(table, f);
    }
    DocKeysDiffer();
    NothingButName(sc, f, obj);
    forall g: Family
      ensures ListRead(sc, doc, g) == []
    {
      if g == f {
        assert SortedByName(f, [obj]);
        SortedStays(f, [obj]);
        assert [obj][..0] == [];
        assert RereadList(sc, f, [obj]) == ObjectInto(sc, f, RereadList(sc, f, []), obj);
      } else {
        NothingListed(sc, g);
      }
    }
  }

  // ----- the form of every parsed document -----

  ghost predicate SpecAt(table: seq<Section>, i: int, k: int) {
    0 <= i < |table| && 0 <= k < |table[i].fields|
  }

  /** The value is what some text gives for a field of that document key. */
  ghost predicate TypedByTable(sc: Strconv, table: seq<Section>, docKey: string, v: Value) {
    exists i, k, text :: SpecAt(table, i, k) && table[i].fields[k].docKey == docKey && v == Typed(sc, text, table[i].fields[k].kind)
  }

  /**
   Only table keys and the three lists; table values have their declared kind; lists are not
   empty; and no two routes, and no two policies, share a pattern.
   */
  ghost predicate ParsedForm(sc: Strconv, table: seq<Section>, doc: Object) {
    && (forall key :: key in doc && !IsFamilyKey(key) ==> TypedByTable(sc, table, key, doc[key]))
    && (forall f: Family :: DocKey(f) in doc ==> doc[DocKey(f)].Objs? && doc[DocKey(f)].objs != [])
    && (DocKey(Route) in doc ==> NamesDistinct(Route, doc[DocKey(Route)].objs))
    && (DocKey(Policy) in doc ==> NamesDistinct(Policy, doc[DocKey(Policy)].objs))
  }

  lemma {:induction false} LookupFieldIsThere(fields: seq<Field>, key: string)
    ensures LookupField(fields, key).Some? ==> exists k :: 0 <= k < |fields| && fields[k] == LookupField(fields, key).value
  {
    if fields != [] && fields[|fields| - 1].key != key {
      LookupFieldIsThere(fields[..|fields| - 1], key);
    }
  }

  lemma {:induction false} LookupSpecIsThere(table: seq<Section>, section: string, key: string)
    ensures var spec := LookupSpec(table, section, key);
      spec.Some? ==> exists i, k :: SpecAt(table, i, k) && table[i].fields[k] == spec.value
  {
    hide LookupField;
    if table != [] {
      var n := |table| - 1;
      LookupFieldIsThere(table[n].fields, key);
      LookupSpecIsThere(table[..n], section, key);
      var spec := LookupSpec(table, section, key);
      if spec.Some? {
        if table[n].name == section && LookupField(table[n].fields, key).Some? {
          var k :| 0 <= k < |table[n].fields| && table[n].fields[k] == spec.value;
          assert SpecAt(table, n, k);
        } else {
          var i, k :| SpecAt(table[..n], i, k) && table[..n][i].fields[k] == spec.value;
          assert SpecAt(table, i, k);
        }
      }
    }
  }

  /** A route or policy line never changes the pattern. */
  lemma UpdateKeepsName(sc: Strconv, f: Family, obj: Object, key: string, v: string)
    requires !f.User?
    ensures NameOf(f, UpdateObject(sc, f, obj, key, v)) == NameOf(f, obj)
  {
    hide RouteUpdate, PolicyUpdate;
    RouteKeepsPattern(sc, obj, key, v);
    PolicyKeepsPattern(obj, key, v);
  }

  ghost predicate SamePattern(a: Object, b: Object) {
    ("pattern" in a <==> "pattern" in b) && ("pattern" in a ==> a["pattern"] == b["pattern"])
  }

  lemma RouteKeepsPattern(sc: Strconv, obj: Object, key: string, v: string)
    ensures SamePattern(obj, RouteUpdate(sc, obj, key, v))
  {
    hide Typed;
    var pattern := "pattern";
    assert |pattern| == 7 && pattern[0] == 'p' && pattern[1] == 'a';
    assert "privkey"[1] == 'r' && "country"[0] == 'c' && "enabled"[0] == 'e';
  }

  lemma PolicyKeepsPattern(obj: Object, key: string, v: string)
    ensures SamePattern(obj, PolicyUpdate(obj, key, v))
  {
    hide ParseList;
    assert |"pattern"| == 7;
  }

  lemma UpdateKeepsNamesDistinct(sc: Strconv, f: Family, objs: seq<Object>, name: string, key: string, v: string)
    requires NamesDistinct(f, objs) && !f.User?
    ensures NamesDistinct(f, UpdateNamed(sc, f, objs, name, key, v))
  {
    hide UpdateObject, NameOf, FindNamed;
    var i := FindNamed(f, objs, name);
    if i < |objs| {
      UpdateKeepsName(sc, f, objs[i], key, v);
    } else {
      var init: Object := map[IdKey(f) := Str(name)];
      UpdateKeepsName(sc, f, init, key, v);
      InitName(f, name);
    }
  }

  lemma InitName(f: Family, name: string)
    ensures NameOf(f, map[IdKey(f) := Str(name)]) == name
  {
  }

  lemma AssignNamedKeepsForm(sc: Strconv, table: seq<Section>, st: State, f: Family, key: string, v: string)
    requires ParsedForm(sc, table, st.doc)
    ensures ParsedForm(sc, table, AssignNamed(sc, f, st, key, v))
  {
    hide UpdateNamed, TypedByTable, NamesDistinct, DocKey;
    DocKeysDiffer();
    var objs := ObjectsIn(st.doc, DocKey(f));
    NewListNotEmpty(sc, f, objs, st.param, key, v);
    if !f.User? {
      NoneDistinct(f);
      UpdateKeepsNamesDistinct(sc, f, objs, st.param, key, v);
    }
  }

  lemma NoneDistinct(f: Family)
    ensures NamesDistinct(f, [])
  {
  }

  lemma NewListNotEmpty(sc: Strconv, f: Family, objs: seq<Object>, name: string, key: string, v: string)
    ensures UpdateNamed(sc, f, objs, name, key, v) != []
  {
    hide UpdateObject;
  }

  lemma AssignKeepsForm(sc: Strconv, table: seq<Section>, st: State, key: string, v: string)
    requires GoodTable(table) && ParsedForm(sc, table, st.doc)
    ensures ParsedForm(sc, table, Assign(sc, table, st, key, v))
  {
    hide ParsedForm, AssignNamed, LookupSpec, GoodTable;
    if st.section == "route" {
      AssignNamedKeepsForm(sc, table, st, Route, key, v);
    } else if st.section == "policy" {
      AssignNamedKeepsForm(sc, table, st, Policy, key, v);
    } else if st.section == "user" {
      AssignNamedKeepsForm(sc, table, st, User, key, v);
    } else {
      LookupSpecIsThere(table, st.section, key);
      var spec := LookupSpec(table, st.section, key);
      if spec.Some? {
        var i, k :| SpecAt(table, i, k) && table[i].fields[k] == spec.value;
        SpecKeepsForm(sc, table, st.doc, i, k, v);
      }
    }
  }

  lemma SpecKeepsForm(sc: Strconv, table: seq<Section>, doc: Object, i: int, k: int, text: string)
    requires GoodTable(table) && ParsedForm(sc, table, doc) && SpecAt(table, i, k)
    ensures ParsedForm(sc, table, doc[table[i].fields[k].docKey := Typed(sc, text, table[i].fields[k].kind)])
  {
    hide Typed, NamesDistinct, IsName, DistinctKeys;
    var field := table[i].fields[k];
    assert GoodSection(table[i]) && GoodField(field);
    assert TypedByTable(sc, table, field.docKey, Typed(sc, text, field.kind));
    hide TypedByTable;
  }

  lemma StepKeepsForm(sc: Strconv, table: seq<Section>, st: State, raw: string)
    requires GoodTable(table) && ParsedForm(sc, table, st.doc)
    ensures ParsedForm(sc, table, StepLine(sc, table, st, raw).doc)
  {
    hide GoodTable, ParsedForm, Assign, ParseKeyValue, ParseSectionHeader, ClassifySection, Trim, HasPrefix;
    var line := Trim(raw);
    match ParseKeyValue(sc, line)
    case None =>
    case Some((key, v)) => AssignKeepsForm(sc, table, st, key, v);
  }

  lemma {:induction false} StepsKeepForm(sc: Strconv, table: seq<Section>, st: State, lines: seq<string>)
    requires GoodTable(table) && ParsedForm(sc, table, st.doc)
    ensures ParsedForm(sc, table, StepLines(sc, table, st, lines).doc)
    decreases |lines|
  {
    hide GoodTable, ParsedForm, StepLine;
    if lines != [] {
      StepKeepsForm(sc, table, st, lines[0]);
      StepsKeepForm(sc, table, StepLine(sc, table, st, lines[0]), lines[1..]);
    }
  }

  /** Whatever the text, a document that the parser accepts has the parsed form. */
  lemma ParsedDocumentsHaveForm(sc: Strconv, table: seq<Section>, text: string)
    requires GoodTable(table)
    ensures var r := ParseResult(sc, table, text); r.Ok? ==> ParsedForm(sc, table, r.doc)
  {
    hide GoodTable, StepLines, Split, TypedByTable;
    StepsKeepForm(sc, table, START, Split(text, '\n'));
  }
}
