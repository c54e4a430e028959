/**
 Lists of named objects: what the parser makes of the printed list, and exactly which lists come
 back.
 */
module IniFamilies {
  import opened Text
  import opened IniQuoting
  import opened IniText
  import opened IniCodec
  import opened IniRoundTrip
  import opened IniObjects

  // ----- whole objects -----

  /** Reading the printed lines of an object onto a base. */
  function Rebuilt(sc: Strconv, f: Family, base: Object, obj: Object): (r: Object) {
    var fields := RereadOnto(sc, f.User?, base, obj, FieldsOf(f));
    if f.User? then AppendAll(fields, RereadItems(sc, PubkeyItems(obj))) else fields
  }

  lemma LinesOf(sc: Strconv, f: Family, obj: Object)
    ensures ObjectLines(sc, f, obj)
         == if f.User? then FieldLines(sc, obj, FieldsOf(f)) + RepeatedLines(sc, "pubkey", PubkeyItems(obj))
            else FieldLines(sc, obj, FieldsOf(f))
  {
    hide FieldLines, RepeatedLines, FieldsOf, PubkeyItems;
  }

  /** The lines of an object, read where it is under construction. */
  lemma LinesBuild(sc: Strconv, table: seq<Section>, st: State, f: Family, pre: seq<Object>, acc: Object, post: seq<Object>,
                   name: string, obj: Object)
    requires Building(st, f, pre, acc, post, name)
    ensures StepLines(sc, table, st, ObjectLines(sc, f, obj)) == WithObject(st, f, pre, Rebuilt(sc, f, acc, obj), post)
    ensures NameOf(f, Rebuilt(sc, f, acc, obj)) == name
  {
    hide Building, WithObject, StepLines, ObjectLines, FieldLines, RepeatedLines, FieldsOf, PubkeyItems, NameOf, RereadOnto,
      RereadItems, AppendAll;
    var fields := RereadOnto(sc, f.User?, acc, obj, FieldsOf(f));
    assert FieldsOf(f)[0..] == FieldsOf(f);
    FieldsBuild(sc, table, st, f, pre, acc, post, name, obj, 0);
    LinesOf(sc, f, obj);
    if f.User? {
      BuildingOn(st, f, pre, acc, post, fields, name);
      PubkeysBuild(sc, table, WithObject(st, f, pre, fields, post), pre, fields, post, name, PubkeyItems(obj));
      StepLinesConcat(sc, table, st, FieldLines(sc, obj, FieldsOf(f)), RepeatedLines(sc, "pubkey", PubkeyItems(obj)));
    }
  }

  /** A line the printer writes for a key. */
  ghost predicate IsKeyLine(line: string) {
    exists key, printed :: IsName(key) && line == KeyLine(key, printed)
  }

  ghost predicate StartsWithKey(lines: seq<string>) {
    lines != [] ==> IsKeyLine(lines[0])
  }

  lemma {:induction false} FieldsStartWithKey(sc: Strconv, f: Family, obj: Object, k: nat)
    requires k <= |FieldsOf(f)|
    ensures StartsWithKey(FieldLines(sc, obj, FieldsOf(f)[k..]))
    decreases |FieldsOf(f)| - k
  {
    hide Format, KeyLine, FieldsOf, IdKey, IsName;
    var fields := FieldsOf(f);
    if k < |fields| {
      var field := fields[k];
      assert fields[k..][1..] == fields[k + 1..] && fields[k..][0] == field;
      FieldsStartWithKey(sc, f, obj, k + 1);
      if field.docKey in obj {
        FieldFacts(f, k);
        assert IsKeyLine(KeyLine(field.key, Format(sc, obj[field.docKey], field.kind)));
      }
    }
  }

  lemma ObjectStartsWithKey(sc: Strconv, f: Family, obj: Object)
    ensures StartsWithKey(ObjectLines(sc, f, obj))
  {
    hide FieldLines, FieldsOf, KeyLine, IsName, FormatText;
    assert FieldsOf(f)[0..] == FieldsOf(f);
    FieldsStartWithKey(sc, f, obj, 0);
    LinesOf(sc, f, obj);
    var items := PubkeyItems(obj);
    if f.User? && items != [] {
      PubkeyIsName();
      assert IsKeyLine(KeyLine("pubkey", FormatText(sc, items[0])));
    }
  }

  /** Reading any key line creates the object that a header announced. */
  lemma FirstLineCreates(sc: Strconv, table: seq<Section>, st: State, f: Family, pre: seq<Object>, name: string, lines: seq<string>)
    requires st.section == SectionName(f) && st.param == name && ObjectsIn(st.doc, DocKey(f)) == pre
    requires forall k :: 0 <= k < |pre| ==> NameOf(f, pre[k]) != name
    requires lines != [] && StartsWithKey(lines)
    ensures StepLines(sc, table, st, lines) == StepLines(sc, table, WithObject(st, f, pre, map[IdKey(f) := Str(name)], []), lines)
  {
    hide StepLine, KeyLine, IsName, NameOf, WithObject, ObjectsIn;
    assert IsKeyLine(lines[0]);
    var key, printed :| IsName(key) && lines[0] == KeyLine(key, printed);
    StepCreates(sc, table, st, f, pre, name, key, printed);
    assert lines == [lines[0]] + lines[1..];
  }

  lemma FreshIsBuilding(st: State, f: Family, pre: seq<Object>, name: string)
    requires st.section == SectionName(f) && st.param == name
    requires forall k :: 0 <= k < |pre| ==> NameOf(f, pre[k]) != name
    ensures var init: Object := map[IdKey(f) := Str(name)];
      && Building(WithObject(st, f, pre, init, []), f, pre, init, [], name)
      && forall o :: WithObject(WithObject(st, f, pre, init, []), f, pre, o, []) == WithObject(st, f, pre, o, [])
  {
  }

  lemma FoundIsBuilding(st: State, f: Family, list: seq<Object>, i: nat)
    requires st.section == SectionName(f) && ObjectsIn(st.doc, DocKey(f)) == list && i < |list|
    requires NameOf(f, list[i]) == st.param && forall k :: 0 <= k < i ==> NameOf(f, list[k]) != st.param
    ensures Building(st, f, list[..i], list[i], list[i + 1..], st.param)
  {
    hide NameOf;
    assert list[..i] + [list[i]] + list[i + 1..] == list;
  }

  ghost function ObjectBlock(sc: Strconv, f: Family, obj: Object): (r: seq<string>) {
    [Header(SectionName(f) + ":" + NameOf(f, obj))] + ObjectLines(sc, f, obj)
  }

  /** The object of that name rebuilt from the printed one; a new one when there is none. */
  function Into(sc: Strconv, f: Family, list: seq<Object>, name: string, obj: Object): (r: seq<Object>) {
    var i := FindNamed(f, list, name);
    if i < |list| then list[i := Rebuilt(sc, f, list[i], obj)]
    else list + [Rebuilt(sc, f, map[IdKey(f) := Str(name)], obj)]
  }

  /** The printed block of an object, read into a document. */
  lemma ObjectReturns(sc: Strconv, table: seq<Section>, st: State, f: Family, obj: Object)
    ensures var t := StepLines(sc, table, st, ObjectBlock(sc, f, obj));
      && t.seen
      && t.doc == if ObjectLines(sc, f, obj) == [] then st.doc
                  else st.doc[DocKey(f) := Objs(Into(sc, f, ObjectsIn(st.doc, DocKey(f)), Trim(NameOf(f, obj)), obj))]
  {
    hide StepLine, StepLines, Header, NameOf, ObjectLines, Building, ClassifySection, Trim, SectionName, DocKey, ObjectsIn, IdKey,
      StartsWithKey, FindNamed, Rebuilt;
    var list, name, lines := ObjectsIn(st.doc, DocKey(f)), Trim(NameOf(f, obj)), ObjectLines(sc, f, obj);
    ClassifyNamed(f, NameOf(f, obj));
    StepFirst(sc, table, st, Header(SectionName(f) + ":" + NameOf(f, obj)), lines);
    StepHeader(sc, table, st, SectionName(f) + ":" + NameOf(f, obj));
    var st' := State(st.doc, SectionName(f), name, true);
    ObjectStartsWithKey(sc, f, obj);
    if lines == [] {
      NoLinesNoStep(sc, table, st');
    } else {
      var i := FindNamed(f, list, name);
      if i < |list| {
        FoundIsBuilding(st', f, list, i);
        LinesBuild(sc, table, st', f, list[..i], list[i], list[i + 1..], name, obj);
        var made := Rebuilt(sc, f, list[i], obj);
        assert list[..i] + [made] + list[i + 1..] == list[i := made];
      } else {
        FirstLineCreates(sc, table, st', f, list, name, lines);
        FreshIsBuilding(st', f, list, name);
        LinesBuild(sc, table, WithObject(st', f, list, map[IdKey(f) := Str(name)], []), f, list, map[IdKey(f) := Str(name)], [], name, obj);
        var made := Rebuilt(sc, f, map[IdKey(f) := Str(name)], obj);
        assert list + [made] + [] == list + [made];
      }
    }
  }

  lemma NoLinesNoStep(sc: Strconv, table: seq<Section>, st: State)
    ensures StepLines(sc, table, st, []) == st
  {
  }

  // ----- lists -----

  /** Objects without a name print nothing, objects without a line print only their header. */
  function ObjectInto(sc: Strconv, f: Family, list: seq<Object>, obj: Object): (r: seq<Object>) {
    if NameOf(f, obj) == "" || ObjectLines(sc, f, obj) == [] then list else Into(sc, f, list, Trim(NameOf(f, obj)), obj)
  }

  /** The list that the printed list reads as. */
  function RereadList(sc: Strconv, f: Family, objs: seq<Object>): (r: seq<Object>) {
    if objs == [] then [] else ObjectInto(sc, f, RereadList(sc, f, objs[..|objs| - 1]), objs[|objs| - 1])
  }

  function PutList(base: Object, f: Family, list: seq<Object>): (r: Object) {
    if list == [] then base else base[DocKey(f) := Objs(list)]
  }

  lemma PutListFacts(base: Object, f: Family, list: seq<Object>, next: seq<Object>)
    requires DocKey(f) !in base && next != []
    ensures ObjectsIn(PutList(base, f, list), DocKey(f)) == list
    ensures PutList(base, f, list)[DocKey(f) := Objs(next)] == PutList(base, f, next)
  {
  }

  lemma IntoIsNotEmpty(sc: Strconv, f: Family, list: seq<Object>, name: string, obj: Object)
    ensures Into(sc, f, list, name, obj) != []
  {
    hide Rebuilt;
  }

  lemma {:induction false} FamilyReturns(sc: Strconv, table: seq<Section>, st: State, base: Object, f: Family, objs: seq<Object>, i: nat)
    requires i <= |objs| && DocKey(f) !in base && st.doc == PutList(base, f, RereadList(sc, f, objs[..i]))
    ensures var t := StepBlocks(sc, table, st, ObjectBlocks(sc, f, objs[i..]));
      && t.doc == PutList(base, f, RereadList(sc, f, objs))
      && (t.seen <==> st.seen || ObjectBlocks(sc, f, objs[i..]) != [])
    decreases |objs| - i
  {
    hide StepLines, NameOf, ObjectBlocks, ObjectLines, DocKey, Into, PutList, ObjectsIn, Header, SectionName, Trim;
    if i == |objs| {
      assert objs[i..] == [] && objs[..i] == objs;
      NoObjectBlocks(sc, f);
    } else {
      var obj, list := objs[i], RereadList(sc, f, objs[..i]);
      assert objs[..i + 1][..i] == objs[..i];
      ObjectBlocksStep(sc, f, objs, i);
      if NameOf(f, obj) == "" {
        FamilyReturns(sc, table, st, base, f, objs, i + 1);
        assert [] + ObjectBlocks(sc, f, objs[i + 1..]) == ObjectBlocks(sc, f, objs[i + 1..]);
      } else {
        var block := ObjectBlock(sc, f, obj);
        ObjectReturns(sc, table, st, f, obj);
        var next := Into(sc, f, list, Trim(NameOf(f, obj)), obj);
        IntoIsNotEmpty(sc, f, list, Trim(NameOf(f, obj)), obj);
        PutListFacts(base, f, list, next);
        FamilyReturns(sc, table, StepLines(sc, table, st, block), base, f, objs, i + 1);
        assert ([block] + ObjectBlocks(sc, f, objs[i + 1..]))[1..] == ObjectBlocks(sc, f, objs[i + 1..]);
      }
    }
  }

  // ----- which fields come back -----

  /**
   One printed field of an object.  A user's mfa_enabled is printed as a boolean and read as text, so
   only the two texts that it prints come back.
   */
  ghost predicate FieldFits(sc: Strconv, user: bool, field: Field, v: Value) {
    if user && field.key == "mfa_enabled" then v == Str("true") || v == Str("false") else FitsKind(sc, v, field.kind)
  }

  lemma OnlyMfa(k: nat)
    requires k < |USER_FIELDS|
    ensures USER_FIELDS[k].key == "mfa_enabled" ==> USER_FIELDS[k].kind == BoolKind
  {
    var key := USER_FIELDS[k].key;
    match k
    case 0 => assert |key| == 13;
    case 1 => assert key[0] == 'p';
    case 3 => assert |key| == 19;
    case 5 => assert key[0] == 't';
    case _ =>
  }

  /** A user's mfa_enabled comes back exactly when it is one of the two texts. */
  lemma MfaReturnsIff(sc: Strconv, v: Value)
    requires Lawful(sc)
    ensures USER_FIELDS[6].key == "mfa_enabled"
    ensures Str(ReadBack(sc, Format(sc, v, USER_FIELDS[6].kind))) == v <==> v == Str("true") || v == Str("false")
  {
    hide Lawful, ReadBack;
    BoolReturns(sc, BoolOf(v));
    var no := "false";
    assert no[0] == 'f' && |no| == 5 && ToLower(no) == no;
  }

  /** A field of an object comes back exactly when it fits. */
  lemma FieldReturnsIff(sc: Strconv, f: Family, k: nat, v: Value)
    requires Lawful(sc) && Representable(sc, v) && k < |FieldsOf(f)|
    ensures Reread(sc, f.User?, FieldsOf(f)[k], v) == v <==> FieldFits(sc, f.User?, FieldsOf(f)[k], v)
  {
    hide Lawful, Representable, ReadBack, Format, FitsKind, Typed, ParseList;
    var field := FieldsOf(f)[k];
    if f.User? && field.key == "mfa_enabled" {
      OnlyMfa(k);
      MfaReturnsIff(sc, v);
    } else {
      ValueReturnsIff(sc, v, field.kind);
    }
  }

  lemma {:induction false} FieldForIsField(fields: seq<Field>, d: string)
    ensures FieldFor(fields, d).Some? ==>
      FieldFor(fields, d).value.docKey == d && exists k :: 0 <= k < |fields| && fields[k] == FieldFor(fields, d).value
  {
    if fields != [] && fields[|fields| - 1].docKey != d {
      FieldForIsField(fields[..|fields| - 1], d);
    }
  }

  lemma FieldForFacts(f: Family, d: string)
    ensures FieldFor(FieldsOf(f), d).Some? ==>
      d != IdKey(f) && d != "pubkey" && exists k :: 0 <= k < |FieldsOf(f)| && FieldsOf(f)[k] == FieldFor(FieldsOf(f), d).value
  {
    hide FieldsOf, FieldFor, IsName, IdKey;
    FieldForIsField(FieldsOf(f), d);
    if FieldFor(FieldsOf(f), d).Some? {
      var k :| 0 <= k < |FieldsOf(f)| && FieldsOf(f)[k] == FieldFor(FieldsOf(f), d).value;
      FieldFacts(f, k);
    }
  }

  // ----- which objects come back -----

  ghost predicate GoodName(name: string) {
    name != "" && Trimmed(name)
  }

  /** The value of a key is one that comes back. */
  ghost predicate EntryFits(sc: Strconv, f: Family, d: string, v: Value) {
    var field := FieldFor(FieldsOf(f), d);
    if field.Some? then FieldFits(sc, f.User?, field.value, v) else f.User? && d == "pubkey" && PubkeyFits(sc, v)
  }

  /** A trimmed name, at least one other entry, and every other entry one that comes back. */
  ghost predicate ObjectFits(sc: Strconv, f: Family, obj: Object) {
    && IdKey(f) in obj && obj[IdKey(f)].Str? && GoodName(obj[IdKey(f)].s)
    && obj.Keys != {IdKey(f)}
    && (forall d :: d in obj && d != IdKey(f) ==> EntryFits(sc, f, d, obj[d]))
  }

  ghost predicate RepresentableObject(sc: Strconv, obj: Object) {
    forall d :: d in obj ==> Representable(sc, obj[d])
  }

  ghost function Fresh(f: Family, name: string): (r: Object) {
    map[IdKey(f) := Str(name)]
  }

  lemma PubkeyIsNotName()
    ensures IdKey(User) != "pubkey"
  {
    assert |"pubkey"| == 6 && |"username"| == 8;
  }

  /** The rebuilt object, key by key. */
  lemma RebuiltAt(sc: Strconv, f: Family, name: string, obj: Object, d: string)
    requires Lawful(sc) && RepresentableObject(sc, obj)
    ensures var r := Rebuilt(sc, f, Fresh(f, name), obj);
      if d == IdKey(f) then d in r && r[d] == Str(name)
      else if d in obj then (d in r && r[d] == obj[d]) <==> EntryFits(sc, f, d, obj[d])
      else d !in r
  {
    hide Lawful, Representable, FieldsOf, FieldFor, RereadOnto, Reread, AppendAll, RereadItems, FieldFits, PubkeyFits, PubkeyItems;
    var fields := RereadOnto(sc, f.User?, Fresh(f, name), obj, FieldsOf(f));
    RereadAt(sc, f.User?, Fresh(f, name), obj, FieldsOf(f), d);
    FieldForFacts(f, d);
    var field := FieldFor(FieldsOf(f), d);
    if d in obj && field.Some? {
      var k :| 0 <= k < |FieldsOf(f)| && FieldsOf(f)[k] == field.value;
      FieldReturnsIff(sc, f, k, obj[d]);
    }
    if f.User? {
      PubkeyIsNotName();
      FieldForFacts(f, "pubkey");
      RereadAt(sc, true, Fresh(f, name), obj, FieldsOf(f), "pubkey");
      AppendedIs(fields, RereadItems(sc, PubkeyItems(obj)));
      if d == "pubkey" {
        if d in obj {
          PubkeysReturnIff(sc, fields, obj);
        } else {
          NoPubkeyNoItems(sc, obj);
        }
      }
    }
  }

  lemma NoPubkeyNoItems(sc: Strconv, obj: Object)
    requires "pubkey" !in obj
    ensures PubkeyItems(obj) == [] && RereadItems(sc, PubkeyItems(obj)) == []
  {
  }

  /** An object with nothing but its name prints no line. */
  lemma {:induction false} NothingPrinted(sc: Strconv, obj: Object, fields: seq<Field>)
    requires forall k :: 0 <= k < |fields| ==> fields[k].docKey !in obj
    ensures FieldLines(sc, obj, fields) == []
    decreases |fields|
  {
    hide Format, KeyLine;
    if fields != [] {
      NothingPrinted(sc, obj, fields[1..]);
    }
  }

  lemma NothingButName(sc: Strconv, f: Family, obj: Object)
    requires obj.Keys <= {IdKey(f)}
    ensures ObjectLines(sc, f, obj) == []
  {
    hide FieldsOf, FieldLines;
    forall k | 0 <= k < |FieldsOf(f)|
      ensures FieldsOf(f)[k].docKey !in obj
    {
      FieldFacts(f, k);
    }
    NothingPrinted(sc, obj, FieldsOf(f));
    PubkeyIsNotName();
  }

  lemma EntryPrints(sc: Strconv, f: Family, obj: Object, d: string)
    requires d in obj && EntryFits(sc, f, d, obj[d])
    ensures ObjectLines(sc, f, obj) != []
  {
    hide FieldsOf, FieldLines, FieldFor, FieldFits, SafeText, FormatText, KeyLine;
    LinesOf(sc, f, obj);
    if FieldFor(FieldsOf(f), d).Some? {
      FieldPrints(sc, obj, FieldsOf(f), d);
    } else {
      assert PubkeyItems(obj) != [];
    }
  }

  /** The object has a name, prints a line and is rebuilt as it was. */
  ghost predicate ComesBack(sc: Strconv, f: Family, obj: Object) {
    && NameOf(f, obj) != "" && ObjectLines(sc, f, obj) != []
    && Rebuilt(sc, f, Fresh(f, Trim(NameOf(f, obj))), obj) == obj
  }

  /** An object comes back exactly when it fits. */
  lemma ObjectReturnsIff(sc: Strconv, f: Family, obj: Object)
    requires Lawful(sc) && RepresentableObject(sc, obj)
    ensures ComesBack(sc, f, obj) <==> ObjectFits(sc, f, obj)
  {
    hide Lawful, RepresentableObject, Rebuilt, EntryFits, ObjectLines, Trim;
    var name := Trim(NameOf(f, obj));
    var r := Rebuilt(sc, f, Fresh(f, name), obj);
    TrimOfTrimmed(NameOf(f, obj));
    forall d
      ensures if d == IdKey(f) then d in r && r[d] == Str(name)
              else if d in obj then (d in r && r[d] == obj[d]) <==> EntryFits(sc, f, d, obj[d])
              else d !in r
    {
      RebuiltAt(sc, f, name, obj, d);
    }
    if ComesBack(sc, f, obj) {
      if obj.Keys == {IdKey(f)} {
        NothingButName(sc, f, obj);
        assert false;
      }
    }
    if ObjectFits(sc, f, obj) {
      SomeEntryPrints(sc, f, obj);
      assert forall d :: d in r <==> d in obj;
      assert r == obj;
    }
  }

  lemma OtherMember(keys: set<string>, k: string)
    requires k in keys && keys != {k}
    ensures exists d :: d in keys && d != k
  {
    assert {k} + (keys - {k}) == keys;
    var d :| d in keys - {k};
  }

  lemma SomeEntryPrints(sc: Strconv, f: Family, obj: Object)
    requires ObjectFits(sc, f, obj)
    ensures ObjectLines(sc, f, obj) != []
  {
    hide EntryFits, ObjectLines, GoodName;
    assert exists d :: d in obj.Keys && d != IdKey(f) by {
      OtherMember(obj.Keys, IdKey(f));
    }
    var d :| d in obj.Keys && d != IdKey(f);
    EntryPrints(sc, f, obj, d);
  }

  // ----- which lists come back -----

  ghost predicate NamesDistinct(f: Family, objs: seq<Object>) {
    forall i, j :: 0 <= i < j < |objs| ==> NameOf(f, objs[i]) != NameOf(f, objs[j])
  }

  lemma RebuiltKeepsName(sc: Strconv, f: Family, base: Object, obj: Object)
    ensures NameOf(f, Rebuilt(sc, f, base, obj)) == NameOf(f, base)
  {
    hide FieldsOf, RereadOnto, AppendAll, RereadItems, FieldFor, PubkeyItems, Reread;
    var fields := RereadOnto(sc, f.User?, base, obj, FieldsOf(f));
    RereadAt(sc, f.User?, base, obj, FieldsOf(f), IdKey(f));
    FieldForFacts(f, IdKey(f));
    if f.User? {
      AppendKeepsName(fields, RereadItems(sc, PubkeyItems(obj)));
    }
  }

  lemma {:induction false} AppendKeepsName(acc: Object, items: seq<string>)
    ensures NameOf(User, AppendAll(acc, items)) == NameOf(User, acc)
    decreases |items|
  {
    hide NameOf, AppendString;
    if items != [] {
      AppendOneKeepsName(acc, items[0]);
      AppendKeepsName(AppendString(acc, "pubkey", items[0]), items[1..]);
    }
  }

  lemma AppendOneKeepsName(acc: Object, item: string)
    ensures NameOf(User, AppendString(acc, "pubkey", item)) == NameOf(User, acc)
  {
    PubkeyIsNotName();
  }

  lemma FreshName(f: Family, name: string)
    ensures NameOf(f, Fresh(f, name)) == name
  {
  }

  /** What a list of the right length must have been made of. */
  ghost predicate MadeFrom(sc: Strconv, f: Family, r: Object, obj: Object) {
    && NameOf(f, obj) != "" && ObjectLines(sc, f, obj) != []
    && r == Rebuilt(sc, f, Fresh(f, Trim(NameOf(f, obj))), obj) && NameOf(f, r) == Trim(NameOf(f, obj))
  }

  /**
   The list that is read has distinct names and is no longer than the printed one; if it is as long,
   each of its objects was made from the printed one at its place.
   */
  lemma {:induction false} RereadListIs(sc: Strconv, f: Family, objs: seq<Object>)
    ensures var r := RereadList(sc, f, objs);
      && |r| <= |objs| && NamesDistinct(f, r)
      && (|r| == |objs| ==> forall i :: 0 <= i < |r| ==> MadeFrom(sc, f, r[i], objs[i]))
  {
    hide Rebuilt, NameOf, ObjectLines, Trim, FindNamed;
    if objs != [] {
      var n := |objs| - 1;
      var list, obj := RereadList(sc, f, objs[..n]), objs[n];
      RereadListIs(sc, f, objs[..n]);
      var name := Trim(NameOf(f, obj));
      RebuiltKeepsName(sc, f, Fresh(f, name), obj);
      FreshName(f, name);
      var i := FindNamed(f, list, name);
      if i < |list| {
        RebuiltKeepsName(sc, f, list[i], obj);
      }
    }
  }

  /** Distinct trimmed names and printed lines make the list as long as the printed one. */
  lemma {:induction false} RereadListFull(sc: Strconv, f: Family, objs: seq<Object>)
    requires forall i :: 0 <= i < |objs| ==> ComesBack(sc, f, objs[i]) && Trim(NameOf(f, objs[i])) == NameOf(f, objs[i])
    requires NamesDistinct(f, objs)
    ensures RereadList(sc, f, objs) == objs
  {
    hide Rebuilt, NameOf, ObjectLines, Trim, FindNamed;
    if objs != [] {
      var n := |objs| - 1;
      RereadListFull(sc, f, objs[..n]);
      assert ComesBack(sc, f, objs[n]);
      assert FindNamed(f, objs[..n], NameOf(f, objs[n])) == n;
      assert objs == objs[..n] + [objs[n]];
    }
  }

  ghost predicate SortedByName(f: Family, objs: seq<Object>) {
    forall i, j :: 0 <= i < j < |objs| ==> Less(NameOf(f, objs[i]), NameOf(f, objs[j]))
  }

  /** Objects that fit, in strictly increasing order of their names. */
  ghost predicate FamilyFits(sc: Strconv, f: Family, objs: seq<Object>) {
    SortedByName(f, objs) && forall i :: 0 <= i < |objs| ==> ObjectFits(sc, f, objs[i])
  }

  lemma SortedIsDistinct(f: Family, objs: seq<Object>)
    requires SortedByName(f, objs)
    ensures NamesDistinct(f, objs)
  {
    hide NameOf, Less;
    forall i, j | 0 <= i < j < |objs|
      ensures NameOf(f, objs[i]) != NameOf(f, objs[j])
    {
      LessIsStrictTotal(NameOf(f, objs[i]), NameOf(f, objs[j]));
    }
  }

  /** A strictly sorted list is printed in its own order. */
  lemma {:induction false} SortedStays(f: Family, objs: seq<Object>)
    requires SortedByName(f, objs)
    ensures SortByName(f, objs) == objs
    decreases |objs|
  {
    hide NameOf, Less;
    if objs != [] {
      var n := |objs| - 1;
      SortedStays(f, objs[..n]);
      assert objs == objs[..n] + [objs[n]];
      if n > 0 {
        assert Less(NameOf(f, objs[n - 1]), NameOf(f, objs[n]));
        LessIsStrictTotal(NameOf(f, objs[n - 1]), NameOf(f, objs[n]));
      }
    }
  }

  // ----- sorting -----

  ghost predicate WeaklySorted(f: Family, objs: seq<Object>) {
    forall i, j :: 0 <= i < j < |objs| ==> !Less(NameOf(f, objs[j]), NameOf(f, objs[i]))
  }

  ghost predicate NoneAbove(f: Family, objs: seq<Object>, name: string) {
    forall i :: 0 <= i < |objs| ==> !Less(name, NameOf(f, objs[i]))
  }

  lemma LastIsAbove(f: Family, objs: seq<Object>, name: string)
    requires WeaklySorted(f, objs) && objs != [] && !Less(name, NameOf(f, objs[|objs| - 1]))
    ensures NoneAbove(f, objs, name)
  {
    hide Less, NameOf;
    var n := |objs| - 1;
    forall i | 0 <= i < |objs|
      ensures !Less(name, NameOf(f, objs[i]))
    {
      if i < n {
        NotLessTransitive(NameOf(f, objs[i]), NameOf(f, objs[n]), name);
      }
    }
  }

  lemma WeaklyAppend(f: Family, objs: seq<Object>, x: Object)
    requires WeaklySorted(f, objs) && NoneAbove(f, objs, NameOf(f, x))
    ensures WeaklySorted(f, objs + [x])
  {
    hide Less, NameOf;
  }

  lemma {:induction false} InsertSorts(f: Family, sorted: seq<Object>, x: Object)
    requires WeaklySorted(f, sorted)
    ensures WeaklySorted(f, InsertByName(f, sorted, x))
    ensures forall name :: NoneAbove(f, sorted, name) && !Less(name, NameOf(f, x)) ==> NoneAbove(f, InsertByName(f, sorted, x), name)
    decreases |sorted|
  {
    hide Less, NameOf;
    if sorted != [] {
      var n := |sorted| - 1;
      if Less(NameOf(f, x), NameOf(f, sorted[n])) {
        InsertSorts(f, sorted[..n], x);
        LessIsStrictTotal(NameOf(f, x), NameOf(f, sorted[n]));
        WeaklyAppend(f, InsertByName(f, sorted[..n], x), sorted[n]);
      } else {
        LastIsAbove(f, sorted, NameOf(f, x));
        WeaklyAppend(f, sorted, x);
      }
    }
  }

  lemma {:induction false} InsertKeepsAll(f: Family, sorted: seq<Object>, x: Object)
    ensures multiset(InsertByName(f, sorted, x)) == multiset(sorted) + multiset{x}
    decreases |sorted|
  {
    hide Less, NameOf;
    if sorted != [] {
      var n := |sorted| - 1;
      assert sorted == sorted[..n] + [sorted[n]];
      InsertKeepsAll(f, sorted[..n], x);
    }
  }

  /** The printer's sorting. */
  lemma {:induction false} SortSorts(f: Family, objs: seq<Object>)
    ensures WeaklySorted(f, SortByName(f, objs)) && multiset(SortByName(f, objs)) == multiset(objs)
    ensures |SortByName(f, objs)| == |objs|
    decreases |objs|
  {
    hide Less, NameOf, InsertByName;
    if objs != [] {
      var n := |objs| - 1;
      SortSorts(f, objs[..n]);
      InsertSorts(f, SortByName(f, objs[..n]), objs[n]);
      InsertKeepsAll(f, SortByName(f, objs[..n]), objs[n]);
      assert objs == objs[..n] + [objs[n]];
      assert |multiset(SortByName(f, objs))| == |multiset(objs)|;
    }
  }

  /** If the sorted list reads as the list, its names are trimmed and it was sorted already. */
  lemma ReturnedIsSorted(sc: Strconv, f: Family, objs: seq<Object>)
    requires RereadList(sc, f, SortByName(f, objs)) == objs
    ensures SortedByName(f, objs) && forall i :: 0 <= i < |objs| ==> MadeFrom(sc, f, objs[i], objs[i])
  {
    hide Rebuilt, NameOf, ObjectLines, Trim, RereadList, SortByName, Less;
    var sorted := SortByName(f, objs);
    SortSorts(f, objs);
    RereadListIs(sc, f, sorted);
    forall i | 0 <= i < |objs|
      ensures NameOf(f, objs[i]) == NameOf(f, sorted[i])
    {
      assert sorted[i] in multiset(sorted);
      assert sorted[i] in objs;
      var j :| 0 <= j < |objs| && objs[j] == sorted[i];
      assert MadeFrom(sc, f, objs[j], sorted[j]) && MadeFrom(sc, f, objs[i], sorted[i]);
      TrimOfTrimmed(NameOf(f, sorted[j]));
      TrimOfTrimmed(NameOf(f, sorted[i]));
    }
    forall i, j | 0 <= i < j < |objs|
      ensures Less(NameOf(f, objs[i]), NameOf(f, objs[j]))
    {
      LessIsStrictTotal(NameOf(f, objs[i]), NameOf(f, objs[j]));
    }
    SortedStays(f, objs);
    assert sorted == objs;
  }

  /** A list comes back exactly when its objects fit and are strictly sorted by name. */
  lemma FamilyReturnsIff(sc: Strconv, f: Family, objs: seq<Object>)
    requires Lawful(sc) && forall i :: 0 <= i < |objs| ==> RepresentableObject(sc, objs[i])
    ensures RereadList(sc, f, SortByName(f, objs)) == objs <==> FamilyFits(sc, f, objs)
  {
    hide Lawful, RepresentableObject, ObjectFits, Rebuilt, ObjectLines, RereadList, SortByName, SortedByName;
    forall i | 0 <= i < |objs|
      ensures ComesBack(sc, f, objs[i]) <==> ObjectFits(sc, f, objs[i])
    {
      ObjectReturnsIff(sc, f, objs[i]);
    }
    if RereadList(sc, f, SortByName(f, objs)) == objs {
      ReturnedIsSorted(sc, f, objs);
      forall i | 0 <= i < |objs|
        ensures ObjectFits(sc, f, objs[i])
      {
        assert MadeFrom(sc, f, objs[i], objs[i]);
      }
    }
    if FamilyFits(sc, f, objs) {
      SortedStays(f, objs);
      SortedIsDistinct(f, objs);
      forall i | 0 <= i < |objs|
        ensures Trim(NameOf(f, objs[i])) == NameOf(f, objs[i])
      {
        FitsIsTrimmed(sc, f, objs[i]);
      }
      RereadListFull(sc, f, objs);
    }
  }

  lemma FitsIsTrimmed(sc: Strconv, f: Family, obj: Object)
    requires ObjectFits(sc, f, obj)
    ensures Trim(NameOf(f, obj)) == NameOf(f, obj)
  {
    hide EntryFits, Trim;
    TrimOfTrimmed(NameOf(f, obj));
  }
}
