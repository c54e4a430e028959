/**
 The named objects: users, routes and policies.  What reading a printed list of them gives, and
 exactly which lists come back.
 */
module IniObjects {
  import opened Text
  import opened IniQuoting
  import opened IniText
  import opened IniCodec
  import opened IniRoundTrip

  // ----- fields -----

  lemma StringIsTyped(sc: Strconv, v: string)
    ensures Typed(sc, v, StringKind) == Str(v)
  {
  }

  lemma UserFieldUpdates(sc: Strconv, acc: Object, k: nat, v: string)
    requires k < |USER_FIELDS|
    ensures var field := USER_FIELDS[k];
      UserUpdate(sc, acc, field.key, v) == acc[field.docKey := ReadField(sc, true, field, v)]
  {
    hide Typed, ParseList;
    StringIsTyped(sc, v);
    var key := USER_FIELDS[k].key;
    if k == 0 {
      assert key == "password_hash" && |key| == 13 && key[0] == 'p' && key[6] == 'r';
    } else if k == 1 {
      assert key == "pubkey_file" && |key| == 11 && key[0] == 'p' && key[5] == 'y';
    } else if k == 2 {
      assert key == "enabled" && |key| == 7 && key[0] == 'e' && key[3] == 'b';
    } else if k == 3 {
      assert key == "password_changed_at" && |key| == 19 && key[0] == 'p' && key[9] == 'c';
    } else if k == 4 {
      assert key == "password_change_required" && |key| == 24 && key[0] == 'p' && key[12] == 'n';
    } else if k == 5 {
      assert key == "totp_secret" && |key| == 11 && key[0] == 't' && key[5] == 's';
    } else if k == 6 {
      assert key == "mfa_enabled" && |key| == 11 && key[0] == 'm' && key[5] == 'n';
    }
  }

  lemma RouteFieldUpdates(sc: Strconv, acc: Object, k: nat, v: string)
    requires k < |ROUTE_FIELDS|
    ensures var field := ROUTE_FIELDS[k];
      RouteUpdate(sc, acc, field.key, v) == acc[field.docKey := ReadField(sc, false, field, v)]
  {
    hide Typed, ParseList;
    StringIsTyped(sc, v);
    var key := ROUTE_FIELDS[k].key;
    if k == 0 {
      assert key == "upstream" && |key| == 8 && key[0] == 'u' && key[4] == 'r';
    } else if k == 1 {
      assert key == "port" && |key| == 4 && key[0] == 'p' && key[2] == 'r';
    } else if k == 2 {
      assert key == "user" && |key| == 4 && key[0] == 'u' && key[2] == 'e';
    } else if k == 3 {
      assert key == "privkey" && |key| == 7 && key[0] == 'p' && key[3] == 'v';
    } else if k == 4 {
      assert key == "country_code" && |key| == 12 && key[0] == 'c' && key[6] == 'y';
    } else if k == 5 {
      assert key == "country" && |key| == 7 && key[0] == 'c' && key[3] == 'n';
    } else if k == 6 {
      assert key == "region" && |key| == 6 && key[0] == 'r' && key[3] == 'i';
    } else if k == 7 {
      assert key == "city" && |key| == 4 && key[0] == 'c' && key[2] == 't';
    } else if k == 8 {
      assert key == "latitude" && |key| == 8 && key[0] == 'l' && key[4] == 't';
    } else if k == 9 {
      assert key == "longitude" && |key| == 9 && key[0] == 'l' && key[4] == 'i';
    } else if k == 10 {
      assert key == "enabled" && |key| == 7 && key[0] == 'e' && key[3] == 'b';
    }
  }

  lemma PolicyFieldUpdates(sc: Strconv, acc: Object, k: nat, v: string)
    requires k < |POLICY_FIELDS|
    ensures var field := POLICY_FIELDS[k];
      PolicyUpdate(acc, field.key, v) == acc[field.docKey := ReadField(sc, false, field, v)]
  {
    hide Typed, ParseList;
    StringIsTyped(sc, v);
    var key := POLICY_FIELDS[k].key;
    if k == 0 {
      assert key == "allow" && |key| == 5 && key[0] == 'a' && key[2] == 'l';
    } else if k == 1 {
      assert key == "deny" && |key| == 4 && key[0] == 'd' && key[2] == 'n';
    } else if k == 2 {
      assert key == "allowed_source_types" && |key| == 20 && key[0] == 'a' && key[10] == 'u';
    } else if k == 3 {
      assert key == "denied_source_types" && |key| == 19 && key[0] == 'd' && key[9] == 'u';
    } else if k == 4 {
      assert key == "login_window" && |key| == 12 && key[0] == 'l' && key[6] == 'w';
    } else if k == 5 {
      assert key == "login_days" && |key| == 10 && key[0] == 'l' && key[5] == '_';
    } else if k == 6 {
      assert key == "login_timezone" && |key| == 14 && key[0] == 'l' && key[7] == 'i';
    }
  }

  /** The keys of named objects are names, and none of them names the object or is repeated. */
  predicate IsFieldKey(key: string) {
    IsName(key) && key != "username" && key != "pattern" && key != "pubkey"
  }

  lemma UserFieldKeys(k: nat)
    requires k < |USER_FIELDS|
    ensures var field := USER_FIELDS[k]; IsFieldKey(field.key) && field.docKey == field.key
  {
    if k == 3 || k == 4 {
      LongUserKeys(k);
    } else {
      var key := USER_FIELDS[k].key;
      match k
      case 0 => assert |key| == 13;
      case 1 => assert |key| == 11;
      case 2 => assert |key| == 7 && key[0] == 'e';
      case 5 => assert |key| == 11;
      case _ => assert |key| == 11;
    }
  }

  lemma LongUserKeys(k: nat)
    requires k == 3 || k == 4
    ensures var field := USER_FIELDS[k]; IsFieldKey(field.key) && field.docKey == field.key
  {
    var key := USER_FIELDS[k].key;
    if k == 3 {
      assert |key| == 19;
    } else {
      assert |key| == 24;
    }
  }

  lemma RouteFieldKeys(k: nat)
    requires k < |ROUTE_FIELDS|
    ensures var field := ROUTE_FIELDS[k]; IsFieldKey(field.key) && field.docKey == field.key
  {
    var key := ROUTE_FIELDS[k].key;
    match k
    case 0 => assert |key| == 8 && key[0] == 'u';
    case 1 => assert |key| == 4;
    case 2 => assert |key| == 4;
    case 3 => assert |key| == 7 && key[0] == 'p';
    case 4 => assert |key| == 12;
    case 5 => assert |key| == 7 && key[0] == 'c';
    case 6 => assert |key| == 6 && key[0] == 'r';
    case 7 => assert |key| == 4;
    case 8 => assert |key| == 8 && key[0] == 'l';
    case 9 => assert |key| == 9;
    case _ => assert |key| == 7 && key[0] == 'e';
  }

  lemma PolicyListKeys(k: nat)
    requires k < 4
    ensures var field := POLICY_FIELDS[k]; IsFieldKey(field.key) && field.docKey == field.key
  {
    var key := POLICY_FIELDS[k].key;
    match k
    case 0 => assert |key| == 5;
    case 1 => assert |key| == 4;
    case 2 => assert |key| == 20;
    case _ => assert |key| == 19;
  }

  lemma PolicyFieldKeys(k: nat)
    requires k < |POLICY_FIELDS|
    ensures var field := POLICY_FIELDS[k]; IsFieldKey(field.key) && field.docKey == field.key
  {
    if k < 4 {
      PolicyListKeys(k);
    } else {
      var key := POLICY_FIELDS[k].key;
      match k
      case 4 => assert |key| == 12;
      case 5 => assert |key| == 10;
      case _ => assert |key| == 14;
    }
  }

  lemma FieldFacts(f: Family, k: nat)
    requires k < |FieldsOf(f)|
    ensures var field := FieldsOf(f)[k];
      && IsName(field.key) && field.docKey == field.key && field.key != IdKey(f) && field.key != "pubkey"
  {
    hide IsName;
    match f
    case Route => RouteFieldKeys(k);
    case Policy => PolicyFieldKeys(k);
    case User => UserFieldKeys(k);
  }

  lemma FieldUpdates(sc: Strconv, f: Family, acc: Object, k: nat, v: string)
    requires k < |FieldsOf(f)|
    ensures var field := FieldsOf(f)[k];
      UpdateObject(sc, f, acc, field.key, v) == acc[field.docKey := ReadField(sc, f.User?, field, v)]
  {
    hide RouteUpdate, PolicyUpdate, UserUpdate, ReadField;
    match f
    case Route => RouteFieldUpdates(sc, acc, k, v);
    case Policy => PolicyFieldUpdates(sc, acc, k, v);
    case User => UserFieldUpdates(sc, acc, k, v);
  }

  // ----- the object under construction -----

  /** The parser is inside a section of this family, and its object is the first of its name. */
  ghost predicate Building(st: State, f: Family, pre: seq<Object>, acc: Object, post: seq<Object>, name: string) {
    && st.section == SectionName(f) && st.param == name
    && DocKey(f) in st.doc && st.doc[DocKey(f)] == Objs(pre + [acc] + post)
    && NameOf(f, acc) == name
    && (forall k :: 0 <= k < |pre| ==> NameOf(f, pre[k]) != name)
  }

  function WithObject(st: State, f: Family, pre: seq<Object>, acc: Object, post: seq<Object>): (r: State) {
    st.(doc := st.doc[DocKey(f) := Objs(pre + [acc] + post)])
  }

  lemma AssignFamily(sc: Strconv, table: seq<Section>, st: State, f: Family, key: string, v: string)
    requires st.section == SectionName(f)
    ensures Assign(sc, table, st, key, v) == AssignNamed(sc, f, st, key, v) && st.section != ""
  {
    hide AssignNamed;
    assert "route"[0] == 'r' && "policy"[0] == 'p' && |"user"| == 4;
  }

  lemma UpdateThere(sc: Strconv, f: Family, pre: seq<Object>, acc: Object, post: seq<Object>, name: string, key: string, v: string)
    requires NameOf(f, acc) == name
    requires forall k :: 0 <= k < |pre| ==> NameOf(f, pre[k]) != name
    ensures UpdateNamed(sc, f, pre + [acc] + post, name, key, v) == pre + [UpdateObject(sc, f, acc, key, v)] + post
  {
    hide NameOf, UpdateObject, FindNamed;
    var objs := pre + [acc] + post;
    var i := FindNamed(f, objs, name);
    assert objs[|pre|] == acc;
    assert forall k :: 0 <= k < |pre| ==> objs[k] == pre[k];
    assert i == |pre|;
  }

  lemma UpdateFresh(sc: Strconv, f: Family, pre: seq<Object>, name: string, key: string, v: string)
    requires forall k :: 0 <= k < |pre| ==> NameOf(f, pre[k]) != name
    ensures UpdateNamed(sc, f, pre, name, key, v) == pre + [UpdateObject(sc, f, map[IdKey(f) := Str(name)], key, v)]
  {
    hide NameOf, UpdateObject, FindNamed;
  }

  /** One printed key line updates the object under construction. */
  lemma StepBuilding(sc: Strconv, table: seq<Section>, st: State, f: Family, pre: seq<Object>, acc: Object, post: seq<Object>,
                     name: string, key: string, printed: string)
    requires Building(st, f, pre, acc, post, name) && IsName(key)
    ensures StepLine(sc, table, st, KeyLine(key, printed))
         == WithObject(st, f, pre, UpdateObject(sc, f, acc, key, ReadBack(sc, printed)), post)
  {
    hide StepLine, KeyLine, ReadBack, UpdateObject, UpdateNamed, NameOf, IsName, Assign;
    AssignFamily(sc, table, st, f, key, ReadBack(sc, printed));
    StepKeyLine(sc, table, st, key, printed);
    UpdateThere(sc, f, pre, acc, post, name, key, ReadBack(sc, printed));
  }

  /** The first key line of an object creates it. */
  lemma StepCreates(sc: Strconv, table: seq<Section>, st: State, f: Family, pre: seq<Object>, name: string,
                    key: string, printed: string)
    requires st.section == SectionName(f) && st.param == name && ObjectsIn(st.doc, DocKey(f)) == pre
    requires forall k :: 0 <= k < |pre| ==> NameOf(f, pre[k]) != name
    requires IsName(key)
    ensures var init: Object := map[IdKey(f) := Str(name)];
      StepLine(sc, table, st, KeyLine(key, printed)) == StepLine(sc, table, WithObject(st, f, pre, init, []), KeyLine(key, printed))
  {
    hide StepLine, KeyLine, ReadBack, UpdateObject, UpdateNamed, IsName, Assign;
    var init: Object := map[IdKey(f) := Str(name)];
    var st' := WithObject(st, f, pre, init, []);
    AssignFamily(sc, table, st, f, key, ReadBack(sc, printed));
    StepKeyLine(sc, table, st, key, printed);
    UpdateFresh(sc, f, pre, name, key, ReadBack(sc, printed));
    StepBuilding(sc, table, st', f, pre, init, [], name, key, printed);
    var made := UpdateObject(sc, f, init, key, ReadBack(sc, printed));
    assert pre + [made] + [] == pre + [made];
  }

  lemma BuildingOn(st: State, f: Family, pre: seq<Object>, acc: Object, post: seq<Object>, next: Object, name: string)
    requires Building(st, f, pre, acc, post, name)
    ensures WithObject(st, f, pre, acc, post) == st
    ensures NameOf(f, next) == name ==> Building(WithObject(st, f, pre, next, post), f, pre, next, post, name)
    ensures forall o :: WithObject(WithObject(st, f, pre, next, post), f, pre, o, post) == WithObject(st, f, pre, o, post)
  {
  }

  lemma BuildingNames(st: State, f: Family, pre: seq<Object>, acc: Object, post: seq<Object>, name: string)
    requires Building(st, f, pre, acc, post, name)
    ensures NameOf(f, acc) == name
  {
  }

  lemma NameStays(f: Family, acc: Object, key: string, v: Value)
    requires key != IdKey(f)
    ensures NameOf(f, acc[key := v]) == NameOf(f, acc)
  {
  }

  /** One printed field of an object. */
  lemma FieldBuilds(sc: Strconv, table: seq<Section>, st: State, f: Family, pre: seq<Object>, acc: Object, post: seq<Object>,
                    name: string, k: nat, v: Value)
    requires Building(st, f, pre, acc, post, name) && k < |FieldsOf(f)|
    ensures var field := FieldsOf(f)[k];
      var next := acc[field.docKey := Reread(sc, f.User?, field, v)];
      && StepLine(sc, table, st, KeyLine(field.key, Format(sc, v, field.kind))) == WithObject(st, f, pre, next, post)
      && NameOf(f, next) == name
  {
    hide Building, WithObject, UpdateObject, ReadField, ReadBack, Format, KeyLine, StepLine, NameOf, IsName, FieldsOf, IdKey;
    var field := FieldsOf(f)[k];
    var printed := Format(sc, v, field.kind);
    BuildingNames(st, f, pre, acc, post, name);
    FieldFacts(f, k);
    FieldUpdates(sc, f, acc, k, ReadBack(sc, printed));
    StepBuilding(sc, table, st, f, pre, acc, post, name, field.key, printed);
    NameStays(f, acc, field.docKey, Reread(sc, f.User?, field, v));
  }

  lemma {:induction false} FieldsBuild(sc: Strconv, table: seq<Section>, st: State, f: Family, pre: seq<Object>,
                                       acc: Object, post: seq<Object>, name: string, obj: Object, k: nat)
    requires Building(st, f, pre, acc, post, name) && k <= |FieldsOf(f)|
    ensures var r := RereadOnto(sc, f.User?, acc, obj, FieldsOf(f)[k..]);
      && StepLines(sc, table, st, FieldLines(sc, obj, FieldsOf(f)[k..])) == WithObject(st, f, pre, r, post)
      && NameOf(f, r) == name
    decreases |FieldsOf(f)| - k
  {
    hide StepLine, Format, Reread, KeyLine, FieldsOf, Building, WithObject, NameOf;
    var fields := FieldsOf(f);
    BuildingNames(st, f, pre, acc, post, name);
    if k == |fields| {
      assert fields[k..] == [];
      BuildingOn(st, f, pre, acc, post, acc, name);
    } else {
      var field := fields[k];
      assert fields[k..][1..] == fields[k + 1..] && fields[k..][0] == field;
      if field.docKey in obj {
        var v := obj[field.docKey];
        var line := KeyLine(field.key, Format(sc, v, field.kind));
        var next := acc[field.docKey := Reread(sc, f.User?, field, v)];
        FieldBuilds(sc, table, st, f, pre, acc, post, name, k, v);
        BuildingOn(st, f, pre, acc, post, next, name);
        FieldsBuild(sc, table, WithObject(st, f, pre, next, post), f, pre, next, post, name, obj, k + 1);
        assert FieldLines(sc, obj, fields[k..]) == [line] + FieldLines(sc, obj, fields[k + 1..]);
        StepFirst(sc, table, st, line, FieldLines(sc, obj, fields[k + 1..]));
      } else {
        assert FieldLines(sc, obj, fields[k..]) == FieldLines(sc, obj, fields[k + 1..]);
        FieldsBuild(sc, table, st, f, pre, acc, post, name, obj, k + 1);
      }
    }
  }

  // ----- repeated public keys -----

  function AppendAll(acc: Object, items: seq<string>): (r: Object)
    decreases |items|
  {
    if items == [] then acc else AppendAll(AppendString(acc, "pubkey", items[0]), items[1..])
  }

  /** The public keys as they are after printing and reading. */
  function RereadItems(sc: Strconv, items: seq<string>): (r: seq<string>)
    ensures |r| == |items|
  {
    if items == [] then [] else [ReadBack(sc, FormatText(sc, items[0]))] + RereadItems(sc, items[1..])
  }

  lemma {:induction false} RereadItemsIff(sc: Strconv, items: seq<string>)
    requires Lawful(sc)
    ensures RereadItems(sc, items) == items <==> forall i :: 0 <= i < |items| ==> SafeText(sc, items[i])
  {
    hide Lawful, SafeText, FormatText, ParseValue;
    if items != [] {
      var first, rest := items[0], items[1..];
      RereadItemsIff(sc, rest);
      TextIsOneLine(sc, first);
      TextReturnsIff(sc, first);
      assert items == [first] + rest;
      assert RereadItems(sc, items)[0] == ReadBack(sc, FormatText(sc, first)) && RereadItems(sc, items)[1..] == RereadItems(sc, rest);
      assert forall i :: 0 <= i < |rest| ==> rest[i] == items[i + 1];
    }
  }

  lemma PubkeyIsName()
    ensures IsName("pubkey")
  {
  }

  lemma PubkeyUpdates(sc: Strconv, acc: Object, v: string, name: string)
    requires NameOf(User, acc) == name
    ensures UpdateObject(sc, User, acc, "pubkey", v) == AppendString(acc, "pubkey", v)
    ensures NameOf(User, AppendString(acc, "pubkey", v)) == name
  {
    assert |"pubkey"| == 6 && |"username"| == 8;
  }

  lemma {:induction false} PubkeysBuild(sc: Strconv, table: seq<Section>, st: State, pre: seq<Object>, acc: Object, post: seq<Object>,
                                        name: string, items: seq<string>)
    requires Building(st, User, pre, acc, post, name)
    ensures var r := AppendAll(acc, RereadItems(sc, items));
      && StepLines(sc, table, st, RepeatedLines(sc, "pubkey", items)) == WithObject(st, User, pre, r, post)
      && NameOf(User, r) == name
    decreases |items|
  {
    hide StepLine, FormatText, IsName, KeyLine, ReadBack, AppendString, Building, WithObject, NameOf, UpdateObject;
    BuildingNames(st, User, pre, acc, post, name);
    if items == [] {
      BuildingOn(st, User, pre, acc, post, acc, name);
    } else {
      var printed := FormatText(sc, items[0]);
      var v := ReadBack(sc, printed);
      PubkeyIsName();
      StepBuilding(sc, table, st, User, pre, acc, post, name, "pubkey", printed);
      var next := AppendString(acc, "pubkey", v);
      PubkeyUpdates(sc, acc, v, name);
      BuildingOn(st, User, pre, acc, post, next, name);
      PubkeysBuild(sc, table, WithObject(st, User, pre, next, post), pre, next, post, name, items[1..]);
      assert RereadItems(sc, items)[1..] == RereadItems(sc, items[1..]);
      StepFirst(sc, table, st, KeyLine("pubkey", printed), RepeatedLines(sc, "pubkey", items[1..]));
    }
  }

  lemma {:induction false} AppendToList(acc: Object, done: seq<string>, items: seq<string>)
    requires "pubkey" in acc && acc["pubkey"] == Strs(done)
    ensures AppendAll(acc, items) == acc["pubkey" := Strs(done + items)]
    decreases |items|
  {
    if items == [] {
      assert done + items == done;
      assert acc["pubkey" := Strs(done)] == acc;
    } else {
      AppendToList(acc["pubkey" := Strs(done + [items[0]])], done + [items[0]], items[1..]);
      assert done + [items[0]] + items[1..] == done + items;
    }
  }

  /** No line leaves the entry out, one gives a string, several give a list. */
  lemma AppendedIs(acc: Object, items: seq<string>)
    requires "pubkey" !in acc
    ensures AppendAll(acc, items)
         == if items == [] then acc else acc["pubkey" := if |items| == 1 then Str(items[0]) else Strs(items)]
  {
    if items != [] {
      var one := acc["pubkey" := Str(items[0])];
      assert AppendAll(acc, items) == AppendAll(one, items[1..]);
      if |items| == 1 {
        assert items[1..] == [];
      } else {
        var two := one["pubkey" := Strs([items[0], items[1]])];
        assert AppendAll(one, items[1..]) == AppendAll(two, items[1..][1..]);
        AppendToList(two, [items[0], items[1]], items[2..]);
        assert items[1..][1..] == items[2..] && [items[0], items[1]] + items[2..] == items;
        assert two["pubkey" := Strs(items)] == acc["pubkey" := Strs(items)];
      }
    }
  }

  /** One public key is a string, several are a list. */
  ghost predicate PubkeyFits(sc: Strconv, v: Value) {
    || (v.Str? && v.s != "" && SafeText(sc, v.s))
    || (v.Strs? && |v.strs| >= 2 && forall i :: 0 <= i < |v.strs| ==> SafeText(sc, v.strs[i]))
  }

  /** The public keys of a user come back exactly when they are one string or a list of several. */
  lemma PubkeysReturnIff(sc: Strconv, acc: Object, obj: Object)
    requires Lawful(sc) && "pubkey" !in acc && "pubkey" in obj
    ensures var r := AppendAll(acc, RereadItems(sc, PubkeyItems(obj)));
      ("pubkey" in r && r["pubkey"] == obj["pubkey"]) <==> PubkeyFits(sc, obj["pubkey"])
  {
    hide Lawful, SafeText, AppendAll, RereadItems;
    var items := PubkeyItems(obj);
    AppendedIs(acc, RereadItems(sc, items));
    RereadItemsIff(sc, items);
    assert |items| == 1 ==> RereadItems(sc, items) == [RereadItems(sc, items)[0]];
  }
}
