/**
 What the parser makes of hand-written text: comments, quotes, letter case, white space, other
 names of keys, and which of several lines counts.
 */
module IniReading {
  import opened Text
  import opened IniQuoting
  import opened IniText
  import opened IniCodec
  import opened IniRoundTrip
  import opened IniDocuments

  // ----- values -----

  lemma NotAMark(v: string, k: int)
    requires 0 <= k < |v| && v[k] != '#' && v[k] != ';'
    ensures !StartsComment(v, k)
  {
  }

  /** A value without a mark is kept whole. */
  lemma NothingIsCut(v: string)
    requires Without(v, '#') && Without(v, ';')
    ensures Stripped(v) == v
  {
    hide StartsComment, CommentAt;
    CommentIs(v);
    var r := CommentAt(v, 0, false, false);
    if r.Some? {
      NotAMark(v, r.value);
    }
  }

  /** Without a quote character everything is outside quotes. */
  lemma NoQuotesOutside(v: string, i: nat)
    requires i <= |v| && forall k :: 0 <= k < i ==> v[k] != '\'' && v[k] != '"'
    ensures Outside(v, i)
  {
  }

  lemma {:induction false} OutsideOfPrefix(v: string, w: string, i: nat)
    requires i <= |v| && i <= |w| && v[..i] == w[..i]
    ensures Outside(v, i) <==> Outside(w, i)
    decreases i
  {
    assert forall k :: 0 <= k < i ==> v[k] == v[..i][k] == w[..i][k] == w[k];
    forall k: nat | k < i
      ensures (Outside(v, k) <==> Outside(w, k)) && v[k + 1..i] == w[k + 1..i]
    {
      assert v[..k] == v[..i][..k] == w[..i][..k] == w[..k];
      OutsideOfPrefix(v, w, k);
      assert v[k + 1..i] == v[..i][k + 1..] == w[..i][k + 1..] == w[k + 1..i];
    }
  }

  lemma SpaceStaysOutside(v: string, i: nat)
    requires i < |v| && Outside(v, i) && v[i] == ' '
    ensures Outside(v, i + 1)
  {
    hide Outside;
    StaysOutside(v, i);
  }

  lemma CutAt(v: string, i: nat)
    requires StartsComment(v, i) && forall k :: 0 <= k < i ==> v[k] != '#' && v[k] != ';'
    ensures Stripped(v) == TrimRight(v[..i])
  {
    hide StartsComment, CommentAt, TrimRight;
    CommentIs(v);
    OnlyInside(v, i);
    forall k | 0 <= k < i
      ensures !StartsComment(v, k)
    {
      NotAMark(v, k);
    }
  }

  /** A comment behind a value is dropped, with either mark. */
  lemma CommentIsDropped(sc: Strconv, t: string, mark: char, c: string)
    requires mark == '#' || mark == ';'
    requires Trimmed(t) && Without(t, '#') && Without(t, ';') && !Wrapped(t) && Outside(" " + t, |t| + 1)
    ensures ParseValue(sc, " " + t + " " + [mark] + c) == t
  {
    hide Outside, TrimLeft, TrimRight, Trim;
    var v, i := " " + t + " " + [mark] + c, |t| + 2;
    OutsideOfPrefix(" " + t, v, |t| + 1);
    SpaceStaysOutside(v, |t| + 1);
    assert StartsComment(v, i);
    assert forall k :: 0 < k < |t| + 1 ==> v[k] == t[k - 1];
    CutAt(v, i);
    assert v[..i] == " " + t + " ";
    TrimRightKeepsTrim(" " + t + " ");
    TrimUnique(" ", t, " ");
  }

  lemma {:induction false} PlainDecodes(w: string, u: string, q: char)
    requires Decodes(w, u, q) && Without(w, '\\')
    ensures u == w
  {
    if w != [] {
      assert w[0] != '\\';
      PlainDecodes(w[1..], u[1..], q);
      assert w == [w[0]] + w[1..] && u == [u[0]] + u[1..];
    }
  }

  lemma QuoteOpens(q: char, t: string, k: nat)
    requires (q == '\'' || q == '"') && Without(t, q) && 2 <= k < |t| + 2
    ensures OpenSince(" " + [q] + t + [q], k, q, 1)
  {
    hide Outside;
    var v := " " + [q] + t + [q];
    NoQuotesOutside(v, 1);
    assert v[2..k] == t[..k - 2];
    NotInPrefix(t, q, k - 2);
  }

  lemma NotInPrefix(t: string, q: char, n: nat)
    requires Without(t, q) && n <= |t|
    ensures q !in t[..n]
  {
  }

  lemma InsideQuotes(q: char, t: string, k: nat)
    requires (q == '\'' || q == '"') && Without(t, q) && 2 <= k < |t| + 2
    ensures !StartsComment(" " + [q] + t + [q], k)
  {
    hide Outside, OpenSince;
    var v := " " + [q] + t + [q];
    QuoteOpens(q, t, k);
    OpenIsInside(v, k, q, 1);
  }

  /** Quotes of either kind are taken off, and protect marks and white space between them. */
  lemma QuotesAreTakenOff(sc: Strconv, q: char, t: string)
    requires Lawful(sc) && (q == '\'' || q == '"') && Without(t, q) && Without(t, '\\')
    ensures ParseValue(sc, " " + [q] + t + [q]) == t
  {
    hide StartsComment, CommentAt, Lawful, Trim;
    var v := " " + [q] + t + [q];
    CommentIs(v);
    forall k | 0 <= k < |v|
      ensures !StartsComment(v, k)
    {
      if 2 <= k < |t| + 2 {
        InsideQuotes(q, t, k);
      } else {
        NotAMark(v, k);
      }
    }
    var w := [q] + t + [q];
    assert v == " " + w + "";
    TrimUnique(" ", w, "");
    assert w[1..|w| - 1] == t;
    QuotedIs(sc, w);
  }

  lemma QuotedIs(sc: Strconv, w: string)
    requires Lawful(sc) && Wrapped(w) && Without(w[1..|w| - 1], '\\')
    ensures Unwrap(sc, w) == w[1..|w| - 1]
  {
    hide Decodes, IsEscapeOf;
    if sc.unquote(w).Some? {
      PlainDecodes(w[1..|w| - 1], sc.unquote(w).value, w[0]);
    }
  }

  // ----- lines -----

  /** Keys are read in any letter case and with any white space around them. */
  lemma KeyIsRead(sc: Strconv, left: string, key: string, right: string, v: string)
    requires AllSpace(left) && AllSpace(right) && Trimmed(key) && key != "" && Without(key, '=')
    ensures ParseKeyValue(sc, left + key + right + "=" + v) == Some((ToLower(key), ParseValue(sc, v)))
  {
    hide Trim, ParseValue, ToLower;
    var line, i := left + key + right + "=" + v, |left + key + right|;
    assert line[i] == '=' && line[..i] == left + key + right && line[i + 1..] == v;
    forall k | 0 <= k < i
      ensures line[k] != '='
    {
      assert k < |left| ==> line[k] == left[k] && IsSpace(left[k]);
      assert |left| <= k < |left| + |key| ==> line[k] == key[k - |left|];
      assert |left| + |key| <= k ==> line[k] == right[k - |left| - |key|] && IsSpace(right[k - |left| - |key|]);
    }
    assert FirstIndex(line, '=') == Some(i);
    TrimUnique(left, key, right);
    LowerNotEmpty(key);
  }

  lemma LowerNotEmpty(s: string)
    ensures ToLower(s) == "" <==> s == ""
  {
  }

  /** Lines whose first character is a mark, and blank ones, say nothing. */
  lemma CommentLineIsIgnored(sc: Strconv, table: seq<Section>, st: State, left: string, mark: char, rest: string)
    requires AllSpace(left) && (mark == '#' || mark == ';')
    ensures StepLine(sc, table, st, left + [mark] + rest) == st
  {
    hide Trim, TrimLeft, TrimRight;
    var raw := left + [mark] + rest;
    var kept := TrimRight([mark] + rest);
    TrimRightParts([mark] + rest);
    KeepsFirst(mark, rest);
    assert raw == left + kept + ([mark] + rest)[|kept|..];
    TrimUnique(left, kept, ([mark] + rest)[|kept|..]);
    assert kept[..1] == [mark];
  }

  lemma KeepsFirst(mark: char, rest: string)
    requires !IsSpace(mark)
    ensures var kept := TrimRight([mark] + rest); kept != [] && kept[0] == mark && Trimmed(kept)
  {
    hide TrimRight;
    var s := [mark] + rest;
    var kept := TrimRight(s);
    TrimRightParts(s);
    assert !AllSpace(s) by {
      assert !IsSpace(s[0]);
    }
    assert s[0..] == s;
  }

  /** A header of a family is read in any letter case, with its name as it is written. */
  lemma HeaderOfFamily(f: Family, word: string, name: string)
    requires SameLetters(word, match f case Route => "route" case Policy => "policy" case User => "user")
    ensures ClassifySection(word + ":" + name) == (match f case Route => "route" case Policy => "policy" case User => "user", Trim(name))
  {
    hide Trim;
    var w := match f case Route => "route" case Policy => "policy" case User => "user";
    var section := word + ":" + name;
    LowerWord(word, w);
    assert ToLower(section)[..|w| + 1] == ToLower(word) + ":";
    assert section[|w| + 1..] == name;
    match f
    case Route => assert HasPrefix(ToLower(section), "route:");
    case Policy =>
      assert ToLower(section)[0] == 'p';
      assert HasPrefix(ToLower(section), "policy:");
    case User =>
      assert ToLower(section)[0] == 'u';
      assert HasPrefix(ToLower(section), "user:");
  }

  // ----- typed values -----

  /** The words that switch a field on when it is read, in any letter case. */
  lemma WordsForTrue(sc: Strconv, v: string)
    ensures Typed(sc, v, BoolKind) == Bool(v == "1" || SameLetters(v, "true") || SameLetters(v, "yes") || SameLetters(v, "on"))
  {
    hide ToLower;
    LowerWord(v, "true");
    LowerWord(v, "yes");
    LowerWord(v, "on");
  }

  /** When text is printed into such a field the word on counts as false, unlike when it is read. */
  lemma OnIsPrintedAsFalse(sc: Strconv, v: string)
    ensures Format(sc, Str(v), BoolKind) == if v == "1" || SameLetters(v, "true") || SameLetters(v, "yes") then "true" else "false"
    ensures Typed(sc, "on", BoolKind) == Bool(true) && Format(sc, Str("on"), BoolKind) == "false"
  {
    hide ToLower;
    LowerWord(v, "true");
    LowerWord(v, "yes");
    LowerWord("on", "true");
    LowerWord("on", "yes");
    LowerWord("on", "on");
  }

  /** A number with a fraction in an integer field loses the fraction; other text stays text. */
  lemma FractionIsCut(sc: Strconv, v: string)
    requires Atoi(v).None?
    ensures Typed(sc, v, IntKind) == if sc.parseFloat(v).Some? then Int(sc.truncate(sc.parseFloat(v).value)) else Str(v)
  {
  }

  /** What is printed for values that do not have the kind of their field. */
  lemma OtherKinds(sc: Strconv, v: Value)
    ensures !v.Str? ==> Format(sc, v, StringKind) == "\"\""
    ensures v.Float? ==> Format(sc, v, IntKind) == Itoa(sc.truncate(v.r))
    ensures v.Bool? || v.Words? || v.Strs? || v.Objs? ==> Format(sc, v, IntKind) == Format(sc, v, FloatKind) == Itoa(0)
    ensures v.Int? ==> Format(sc, v, FloatKind) == Itoa(v.n)
    ensures !v.Bool? && !v.Str? ==> Format(sc, v, BoolKind) == "false"
    ensures v.Int? || v.Bool? || v.Float? || v.Objs? ==> Format(sc, v, CsvKind) == ""
    ensures v.Str? ==> Format(sc, v, CsvKind) == Format(sc, Words(ParseList(v.s)), CsvKind)
  {
    hide Itoa, JoinWords, ParseList, NonBlank;
    NoWords();
  }

  lemma NoWords()
    ensures JoinWords([]) == ""
  {
  }

  // ----- other names of keys -----

  ghost predicate IsRouteKey(key: string) {
    || key == "upstream" || key == "upstream_host" || key == "host" || key == "port" || key == "upstream_port"
    || key == "user" || key == "upstream_user" || key == "privkey" || key == "private_key"
    || key == "country_code" || key == "country" || key == "region" || key == "city"
    || key == "latitude" || key == "longitude" || key == "enabled"
  }

  ghost predicate IsPolicyKey(key: string) {
    || key == "allow" || key == "allowed" || key == "deny" || key == "denied"
    || key == "allowed_source_types" || key == "source_types" || key == "denied_source_types"
    || key == "login_window" || key == "allowed_login_window" || key == "time_window"
    || key == "login_days" || key == "allowed_login_days" || key == "login_timezone" || key == "timezone"
  }

  /** Keys that routes and policies do not know are ignored. */
  lemma UnknownKeysAreIgnored(sc: Strconv, obj: Object, key: string, v: string)
    ensures IsRouteKey(key) || RouteUpdate(sc, obj, key, v) == obj
    ensures IsPolicyKey(key) || PolicyUpdate(obj, key, v) == obj
  {
    hide Typed, ParseList;
  }

  /** Keys that users do not know are kept as text. */
  lemma UserKeepsOtherKeys(sc: Strconv, obj: Object, key: string, v: string)
    requires key != "pubkey" && key != "enabled" && key != "password_changed_at" && key != "password_change_required"
    ensures UserUpdate(sc, obj, key, v) == obj[key := Str(v)]
  {
  }

  /** Keys of routes that mean the same. */
  lemma OtherRouteNames(sc: Strconv, obj: Object, v: string)
    ensures RouteUpdate(sc, obj, "upstream_host", v) == RouteUpdate(sc, obj, "host", v) == RouteUpdate(sc, obj, "upstream", v)
    ensures RouteUpdate(sc, obj, "upstream_port", v) == RouteUpdate(sc, obj, "port", v)
    ensures RouteUpdate(sc, obj, "upstream_user", v) == RouteUpdate(sc, obj, "user", v)
    ensures RouteUpdate(sc, obj, "private_key", v) == RouteUpdate(sc, obj, "privkey", v)
  {
    hide Typed;
  }

  /** Keys of policies that mean the same. */
  lemma OtherPolicyNames(obj: Object, v: string)
    ensures PolicyUpdate(obj, "allowed", v) == PolicyUpdate(obj, "allow", v)
    ensures PolicyUpdate(obj, "denied", v) == PolicyUpdate(obj, "deny", v)
    ensures PolicyUpdate(obj, "source_types", v) == PolicyUpdate(obj, "allowed_source_types", v)
  {
    hide ParseList;
  }

  lemma OtherWindowNames(obj: Object, v: string)
    ensures PolicyUpdate(obj, "allowed_login_window", v) == PolicyUpdate(obj, "time_window", v) == PolicyUpdate(obj, "login_window", v)
  {
    hide ParseList;
  }

  lemma OtherDayNames(obj: Object, v: string)
    ensures PolicyUpdate(obj, "allowed_login_days", v) == PolicyUpdate(obj, "login_days", v)
    ensures PolicyUpdate(obj, "timezone", v) == PolicyUpdate(obj, "login_timezone", v)
  {
    hide ParseList;
  }

  // ----- which line counts -----

  ghost predicate IsHeader(raw: string) {
    ParseSectionHeader(Trim(raw)).Some?
  }

  ghost predicate Says(sc: Strconv, raw: string, key: string, v: string) {
    var line := Trim(raw);
    line != "" && line[0] != '#' && line[0] != ';' && !IsHeader(raw) && ParseKeyValue(sc, line) == Some((key, v))
  }

  /** Line h is the last header above line i. */
  ghost predicate InSection(lines: seq<string>, i: int, h: int) {
    0 <= h < i <= |lines| && IsHeader(lines[h]) && forall k :: h < k < i ==> !IsHeader(lines[k])
  }

  ghost function Headed(raw: string): (r: (string, string))
    requires IsHeader(raw)
  {
    ClassifySection(ParseSectionHeader(Trim(raw)).value)
  }

  /** In this section the line gives the table's field for d a value. */
  ghost predicate SetsIn(sc: Strconv, table: seq<Section>, section: string, raw: string, d: string, a: int, b: int, v: string) {
    && SpecAt(table, a, b) && table[a].name == section && table[a].fields[b].docKey == d
    && Says(sc, raw, table[a].fields[b].key, v)
  }

  /** Line i gives the table's field for d a value, in the section of the last header above it. */
  ghost predicate Sets(sc: Strconv, table: seq<Section>, lines: seq<string>, i: int, d: string, a: int, b: int, v: string) {
    0 <= i < |lines| && exists h :: InSection(lines, i, h) && SetsIn(sc, table, Headed(lines[h]).0, lines[i], d, a, b, v)
  }

  lemma StepSection(sc: Strconv, table: seq<Section>, st: State, raw: string)
    ensures var t := StepLine(sc, table, st, raw);
      (t.section, t.param) == if IsHeader(raw) then Headed(raw) else (st.section, st.param)
  {
    hide Trim, ClassifySection, Assign, ParseKeyValue;
  }

  /** The section that the parser is in is that of the last header. */
  lemma {:induction false} SectionIs(sc: Strconv, table: seq<Section>, lines: seq<string>)
    ensures var st := StepLines(sc, table, START, lines);
      && (forall h :: InSection(lines, |lines|, h) ==> (st.section, st.param) == Headed(lines[h]))
      && ((forall h :: !InSection(lines, |lines|, h)) ==> st.section == "")
  {
    hide StepLine, IsHeader, Headed;
    if lines != [] {
      var n := |lines| - 1;
      var before, raw := lines[..n], lines[n];
      var st := StepLines(sc, table, START, before);
      assert lines == before + [raw];
      StepLinesConcat(sc, table, START, before, [raw]);
      StepOne(sc, table, st, raw);
      StepSection(sc, table, st, raw);
      SectionIs(sc, table, before);
      if IsHeader(raw) {
        assert InSection(lines, |lines|, n);
      } else {
        assert forall h :: InSection(lines, |lines|, h) <==> InSection(before, n, h);
      }
    }
  }

  lemma StepOne(sc: Strconv, table: seq<Section>, st: State, raw: string)
    ensures StepLines(sc, table, st, [raw]) == StepLine(sc, table, st, raw)
  {
    hide StepLine;
  }

  lemma StepSets(sc: Strconv, table: seq<Section>, st: State, raw: string, d: string, a: int, b: int, v: string)
    requires GoodTable(table) && SetsIn(sc, table, st.section, raw, d, a, b, v)
    ensures var t := StepLine(sc, table, st, raw); d in t.doc && t.doc[d] == Typed(sc, v, table[a].fields[b].kind)
  {
    hide Trim, ParseKeyValue, ParseSectionHeader, Typed, LookupSpec, DistinctKeys, GoodField;
    LookupSpecFinds(table, a, b);
    assert GoodSection(table[a]);
    var line := Trim(raw);
    assert line[..1] == [line[0]];
  }

  lemma StepSkips(sc: Strconv, table: seq<Section>, st: State, raw: string, d: string)
    requires !IsFamilyKey(d) && forall a, b, v :: !SetsIn(sc, table, st.section, raw, d, a, b, v)
    ensures var t := StepLine(sc, table, st, raw); (d in t.doc <==> d in st.doc) && (d in t.doc ==> t.doc[d] == st.doc[d])
  {
    hide Trim, ParseKeyValue, ParseSectionHeader, Typed, LookupSpec, ClassifySection, UpdateNamed;
    var line := Trim(raw);
    if line != "" && line[0] != '#' && line[0] != ';' && ParseSectionHeader(line).None? && ParseKeyValue(sc, line).Some? {
      var (key, v) := ParseKeyValue(sc, line).value;
      LookupSets(sc, table, st.section, raw, key, v);
    }
  }

  lemma LookupSets(sc: Strconv, table: seq<Section>, section: string, raw: string, key: string, v: string)
    requires Says(sc, raw, key, v)
    ensures var spec := LookupSpec(table, section, key);
      spec.Some? ==> exists a, b :: SetsIn(sc, table, section, raw, spec.value.docKey, a, b, v)
  {
    hide Says, LookupSpec;
    LookupSpecNames(table, section, key);
    var spec := LookupSpec(table, section, key);
    if spec.Some? {
      var a, b :| SpecAt(table, a, b) && table[a].fields[b] == spec.value && table[a].name == section;
      assert SetsIn(sc, table, section, raw, spec.value.docKey, a, b, v);
    }
  }

  lemma {:induction false} LookupFieldNames(fields: seq<Field>, key: string)
    ensures var f := LookupField(fields, key); f.Some? ==> f.value.key == key && exists k :: 0 <= k < |fields| && fields[k] == f.value
  {
    if fields != [] {
      LookupFieldNames(fields[..|fields| - 1], key);
    }
  }

  lemma {:induction false} LookupSpecNames(table: seq<Section>, section: string, key: string)
    ensures var spec := LookupSpec(table, section, key);
      && (spec.Some? ==> spec.value.key == key)
      && (spec.Some? ==> exists a, b :: SpecAt(table, a, b) && table[a].fields[b] == spec.value && table[a].name == section)
  {
    hide LookupField;
    if table != [] {
      var n := |table| - 1;
      LookupFieldNames(table[n].fields, key);
      LookupSpecNames(table[..n], section, key);
      var spec := LookupSpec(table, section, key);
      if spec.Some? {
        if table[n].name == section && LookupField(table[n].fields, key).Some? {
          var b :| 0 <= b < |table[n].fields| && table[n].fields[b] == spec.value;
          assert SpecAt(table, n, b);
        } else {
          var a, b :| SpecAt(table[..n], a, b) && table[..n][a].fields[b] == spec.value && table[..n][a].name == section;
          assert SpecAt(table, a, b);
        }
      }
    }
  }

  ghost predicate NeverSet(sc: Strconv, table: seq<Section>, lines: seq<string>, from: int, d: string) {
    forall i, a, b, v :: i >= from ==> !Sets(sc, table, lines, i, d, a, b, v)
  }

  lemma SetsInPrefix(sc: Strconv, table: seq<Section>, lines: seq<string>, n: nat, i: int, d: string, a: int, b: int, v: string)
    requires n <= |lines| && i < n
    ensures Sets(sc, table, lines, i, d, a, b, v) <==> Sets(sc, table, lines[..n], i, d, a, b, v)
  {
    hide SetsIn, IsHeader, Headed;
    assert forall h :: InSection(lines, i, h) ==> InSection(lines[..n], i, h);
    assert forall h :: InSection(lines[..n], i, h) ==> InSection(lines, i, h);
  }

  lemma NeverSetInPrefix(sc: Strconv, table: seq<Section>, lines: seq<string>, n: nat, from: int, d: string)
    requires n <= |lines| && NeverSet(sc, table, lines, from, d)
    ensures NeverSet(sc, table, lines[..n], from, d)
  {
    hide Sets;
    forall i, a, b, v | i >= from
      ensures !Sets(sc, table, lines[..n], i, d, a, b, v)
    {
      if 0 <= i < n {
        SetsInPrefix(sc, table, lines, n, i, d, a, b, v);
      } else {
        SetsWhere(sc, table, lines[..n], i, d, a, b, v);
      }
    }
  }

  lemma SetsWhere(sc: Strconv, table: seq<Section>, lines: seq<string>, i: int, d: string, a: int, b: int, v: string)
    ensures Sets(sc, table, lines, i, d, a, b, v) ==> 0 <= i < |lines|
  {
  }

  /** The last line sets d exactly when it does so in the section that the parser is in. */
  lemma LastSets(sc: Strconv, table: seq<Section>, lines: seq<string>, d: string, a: int, b: int, v: string)
    requires lines != [] && GoodTable(table)
    ensures var n := |lines| - 1;
      Sets(sc, table, lines, n, d, a, b, v)
      <==> SetsIn(sc, table, StepLines(sc, table, START, lines[..n]).section, lines[n], d, a, b, v)
  {
    hide StepLines, IsHeader, Headed, Says, DistinctKeys;
    var n := |lines| - 1;
    var st := StepLines(sc, table, START, lines[..n]);
    SectionIs(sc, table, lines[..n]);
    assert forall h :: InSection(lines, n, h) <==> InSection(lines[..n], n, h);
    if SetsIn(sc, table, st.section, lines[n], d, a, b, v) {
      assert GoodSection(table[a]);
      var h :| InSection(lines[..n], n, h);
    }
  }

  /** A table field has the value of the last line that gives it one, and none when no line does. */
  lemma {:induction false} LastLineCounts(sc: Strconv, table: seq<Section>, lines: seq<string>, d: string, i: int, a: int, b: int, v: string)
    requires GoodTable(table) && !IsFamilyKey(d)
    ensures var doc := StepLines(sc, table, START, lines).doc;
      && (NeverSet(sc, table, lines, 0, d) ==> d !in doc)
      && (Sets(sc, table, lines, i, d, a, b, v) && NeverSet(sc, table, lines, i + 1, d) ==>
            d in doc && doc[d] == Typed(sc, v, table[a].fields[b].kind))
    decreases |lines|
  {
    hide GoodTable, StepLine, Sets, SetsIn, Typed;
    if lines == [] {
      SetsWhere(sc, table, lines, i, d, a, b, v);
    } else {
      var n := |lines| - 1;
      var before, raw := lines[..n], lines[n];
      var st := StepLines(sc, table, START, before);
      assert lines == before + [raw];
      StepLinesConcat(sc, table, START, before, [raw]);
      StepOne(sc, table, st, raw);
      LastLineCounts(sc, table, before, d, i, a, b, v);
      SetsWhere(sc, table, lines, i, d, a, b, v);
      if i == n {
        LastSets(sc, table, lines, d, a, b, v);
        if Sets(sc, table, lines, n, d, a, b, v) {
          StepSets(sc, table, st, raw, d, a, b, v);
        }
      } else if i < n {
        SetsInPrefix(sc, table, lines, n, i, d, a, b, v);
        if NeverSet(sc, table, lines, i + 1, d) {
          NeverSetInPrefix(sc, table, lines, n, i + 1, d);
          LastSkips(sc, table, lines, d);
        }
      }
      if NeverSet(sc, table, lines, 0, d) {
        NeverSetInPrefix(sc, table, lines, n, 0, d);
        LastSkips(sc, table, lines, d);
      }
    }
  }

  lemma LastSkips(sc: Strconv, table: seq<Section>, lines: seq<string>, d: string)
    requires GoodTable(table) && !IsFamilyKey(d) && lines != [] && NeverSet(sc, table, lines, |lines| - 1, d)
    ensures var st := StepLines(sc, table, START, lines[..|lines| - 1]);
      var t := StepLine(sc, table, st, lines[|lines| - 1]);
      (d in t.doc <==> d in st.doc) && (d in t.doc ==> t.doc[d] == st.doc[d])
  {
    hide GoodTable, StepLine, Sets, SetsIn, StepLines, IsFamilyKey;
    var n := |lines| - 1;
    var st := StepLines(sc, table, START, lines[..n]);
    forall a, b, v
      ensures !SetsIn(sc, table, st.section, lines[n], d, a, b, v)
    {
      LastSets(sc, table, lines, d, a, b, v);
    }
    StepSkips(sc, table, st, lines[n], d);
  }
}
