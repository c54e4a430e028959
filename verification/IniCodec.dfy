/**
 The INI parser and printer of configuration documents: scalar fields named by a table, and the
 named objects of user, route and policy sections.
 */
module IniCodec {
  import opened Text
  import opened IniQuoting
  import opened IniText

  datatype Kind = StringKind | IntKind | BoolKind | FloatKind | CsvKind

  /** `Words` is a list of strings, `Strs` and `Objs` are untyped lists of strings and of objects. */
  datatype Value =
    | Str(s: string)
    | Int(n: int)
    | Bool(b: bool)
    | Float(r: real)
    | Words(words: seq<string>)
    | Strs(strs: seq<string>)
    | Objs(objs: seq<Object>)

  type Object = map<string, Value>

  datatype Field = Field(docKey: string, key: string, kind: Kind)

  datatype Section = Section(name: string, fields: seq<Field>)

  // ----- reading typed values -----

  function Typed(sc: Strconv, v: string, kind: Kind): (r: Value) {
    match kind
    case BoolKind => Bool(v == "1" || ToLower(v) == "true" || ToLower(v) == "yes" || ToLower(v) == "on")
    case IntKind =>
      (match Atoi(v)
       case Some(n) => Int(n)
       case None =>
         match sc.parseFloat(v)
         case Some(r) => Int(sc.truncate(r))
         case None => Str(v))
    case FloatKind =>
      (match sc.parseFloat(v)
       case Some(r) => Float(r)
       case None => Str(v))
    case _ => Str(v)
  }

  /** The items between commas, trimmed, without the empty ones. */
  function NonBlank(parts: seq<string>): (r: seq<string>) {
    if parts == [] then [] else (if Trim(parts[0]) == "" then [] else [Trim(parts[0])]) + NonBlank(parts[1..])
  }

  function ParseList(v: string): (r: seq<string>) {
    NonBlank(Split(v, ','))
  }

  // ----- printing typed values -----

  function StringOf(v: Value): (r: string) {
    if v.Str? then v.s else ""
  }

  function BoolOf(v: Value): (r: bool) {
    match v
    case Bool(b) => b
    case Str(s) => s == "1" || ToLower(s) == "true" || ToLower(s) == "yes"
    case _ => false
  }

  function IntOf(sc: Strconv, v: Value): (r: int) {
    match v
    case Int(n) => n
    case Float(r) => sc.truncate(r)
    case Str(s) => AtoiValue(s)
    case _ => 0
  }

  function WordsOf(v: Value): (r: seq<string>) {
    match v
    case Words(ws) => ws
    case Strs(ts) => NonBlank(ts)
    case Str(s) => ParseList(s)
    case _ => []
  }

  function JoinWords(ws: seq<string>): (r: string) {
    if ws == [] then "" else if |ws| == 1 then ws[0] else ws[0] + ", " + JoinWords(ws[1..])
  }

  function Format(sc: Strconv, v: Value, kind: Kind): (r: string) {
    match kind
    case BoolKind => if BoolOf(v) then "true" else "false"
    case IntKind => Itoa(IntOf(sc, v))
    case FloatKind =>
      (match v
       case Float(r) => sc.formatFloat(r)
       case Str(s) => s
       case _ => Itoa(IntOf(sc, v)))
    case CsvKind => JoinWords(WordsOf(v))
    case StringKind => FormatText(sc, StringOf(v))
  }

  // ----- the parser -----

  /** A field name found twice is the later one. */
  function LookupField(fields: seq<Field>, key: string): (r: Option<Field>) {
    if fields == [] then None
    else if fields[|fields| - 1].key == key then Some(fields[|fields| - 1])
    else LookupField(fields[..|fields| - 1], key)
  }

  function LookupSpec(table: seq<Section>, section: string, key: string): (r: Option<Field>) {
    if table == [] then None else
      var last := table[|table| - 1];
      var found := if last.name == section then LookupField(last.fields, key) else None;
      if found.Some? then found else LookupSpec(table[..|table| - 1], section, key)
  }

  function RouteUpdate(sc: Strconv, obj: Object, key: string, v: string): (r: Object) {
    if key == "upstream" || key == "upstream_host" || key == "host" then obj["upstream" := Str(v)]
    else if key == "port" || key == "upstream_port" then obj["port" := Typed(sc, v, IntKind)]
    else if key == "user" || key == "upstream_user" then obj["user" := Str(v)]
    else if key == "privkey" || key == "private_key" then obj["privkey" := Str(v)]
    else if key == "country_code" || key == "country" || key == "region" || key == "city" then obj[key := Str(v)]
    else if key == "latitude" || key == "longitude" then obj[key := Typed(sc, v, FloatKind)]
    else if key == "enabled" then obj["enabled" := Typed(sc, v, BoolKind)]
    else obj
  }

  function PolicyUpdate(obj: Object, key: string, v: string): (r: Object) {
    if key == "allow" || key == "allowed" then obj["allow" := Words(ParseList(v))]
    else if key == "deny" || key == "denied" then obj["deny" := Words(ParseList(v))]
    else if key == "allowed_source_types" || key == "source_types" then obj["allowed_source_types" := Words(ParseList(v))]
    else if key == "denied_source_types" then obj["denied_source_types" := Words(ParseList(v))]
    else if key == "login_window" || key == "allowed_login_window" || key == "time_window" then obj["login_window" := Str(v)]
    else if key == "login_days" || key == "allowed_login_days" then obj["login_days" := Str(v)]
    else if key == "login_timezone" || key == "timezone" then obj["login_timezone" := Str(v)]
    else obj
  }

  /** A repeated string becomes a list. */
  function AppendString(obj: Object, key: string, v: string): (r: Object) {
    if key !in obj then obj[key := Str(v)] else
      match obj[key]
      case Str(s) => obj[key := Strs([s, v])]
      case Strs(ts) => obj[key := Strs(ts + [v])]
      case _ => obj
  }

  function UserUpdate(sc: Strconv, obj: Object, key: string, v: string): (r: Object) {
    if key == "pubkey" then AppendString(obj, "pubkey", v)
    else if key == "enabled" then obj["enabled" := Typed(sc, v, BoolKind)]
    else if key == "password_changed_at" then obj["password_changed_at" := Typed(sc, v, IntKind)]
    else if key == "password_change_required" then obj["password_change_required" := Typed(sc, v, BoolKind)]
    else obj[key := Str(v)]
  }

  /** The three families of named objects. */
  datatype Family = Route | Policy | User

  function SectionName(f: Family): (r: string) {
    match f case Route => "route" case Policy => "policy" case User => "user"
  }

  function DocKey(f: Family): (r: string) {
    match f case Route => "routes" case Policy => "policies" case User => "users"
  }

  function IdKey(f: Family): (r: string) {
    match f case Route => "pattern" case Policy => "pattern" case User => "username"
  }

  function UpdateObject(sc: Strconv, f: Family, obj: Object, key: string, v: string): (r: Object) {
    match f
    case Route => RouteUpdate(sc, obj, key, v)
    case Policy => PolicyUpdate(obj, key, v)
    case User => UserUpdate(sc, obj, key, v)
  }

  function NameOf(f: Family, obj: Object): (r: string) {
    if IdKey(f) in obj then StringOf(obj[IdKey(f)]) else ""
  }

  function FindNamed(f: Family, objs: seq<Object>, name: string): (r: nat)
    ensures r <= |objs|
    ensures r < |objs| ==> NameOf(f, objs[r]) == name
    ensures forall k :: 0 <= k < r ==> NameOf(f, objs[k]) != name
  {
    if objs == [] || NameOf(f, objs[0]) == name then 0 else 1 + FindNamed(f, objs[1..], name)
  }

  /** Updates the object of that name, which is created when it is missing. */
  function UpdateNamed(sc: Strconv, f: Family, objs: seq<Object>, name: string, key: string, v: string): (r: seq<Object>) {
    var i := FindNamed(f, objs, name);
    if i < |objs| then objs[i := UpdateObject(sc, f, objs[i], key, v)]
    else objs + [UpdateObject(sc, f, map[IdKey(f) := Str(name)], key, v)]
  }

  function ObjectsIn(doc: Object, key: string): (r: seq<Object>) {
    if key in doc && doc[key].Objs? then doc[key].objs else []
  }

  datatype State = State(doc: Object, section: string, param: string, seen: bool)

  function Assign(sc: Strconv, table: seq<Section>, st: State, key: string, v: string): (r: Object) {
    if st.section == "route" then AssignNamed(sc, Route, st, key, v)
    else if st.section == "policy" then AssignNamed(sc, Policy, st, key, v)
    else if st.section == "user" then AssignNamed(sc, User, st, key, v)
    else
      match LookupSpec(table, st.section, key)
      case Some(spec) => st.doc[spec.docKey := Typed(sc, v, spec.kind)]
      case None => st.doc
  }

  function AssignNamed(sc: Strconv, f: Family, st: State, key: string, v: string): (r: Object) {
    st.doc[DocKey(f) := Objs(UpdateNamed(sc, f, ObjectsIn(st.doc, DocKey(f)), st.param, key, v))]
  }

  function StepLine(sc: Strconv, table: seq<Section>, st: State, raw: string): (r: State) {
    var line := Trim(raw);
    if line == "" || HasPrefix(line, "#") || HasPrefix(line, ";") then st else
      match ParseSectionHeader(line)
      case Some(section) =>
        var (name, param) := ClassifySection(section);
        State(st.doc, name, param, true)
      case None =>
        match ParseKeyValue(sc, line)
        case None => st
        case Some((key, v)) =>
          if st.section == "" then st else st.(doc := Assign(sc, table, st, key, v))
  }

  function StepLines(sc: Strconv, table: seq<Section>, st: State, lines: seq<string>): (r: State)
    decreases |lines|
  {
    if lines == [] then st else StepLines(sc, table, StepLine(sc, table, st, lines[0]), lines[1..])
  }

  datatype Result = Ok(doc: Object) | TooLong | NoSections

  const START := State(map[], "", "", false)

  /** The scanner gives up on a line of 64 KiB or more. */
  const MAX_LINE: nat := 65536

  ghost predicate EachShort(lines: seq<string>) {
    forall k :: 0 <= k < |lines| ==> |lines[k]| < MAX_LINE
  }

  ghost function ParseResult(sc: Strconv, table: seq<Section>, text: string): (r: Result) {
    var lines := Split(text, '\n');
    if !EachShort(lines) then TooLong else
      var st := StepLines(sc, table, START, lines);
      if !st.seen && st.doc == map[] then NoSections else Ok(st.doc)
  }

  lemma {:induction false} StepLinesConcat(sc: Strconv, table: seq<Section>, st: State, a: seq<string>, b: seq<string>)
    ensures StepLines(sc, table, st, a + b) == StepLines(sc, table, StepLines(sc, table, st, a), b)
    decreases |a|
  {
    hide StepLine;
    if a == [] {
      assert a + b == b;
    } else {
      assert (a + b)[1..] == a[1..] + b;
      StepLinesConcat(sc, table, StepLine(sc, table, st, a[0]), a[1..], b);
    }
  }

  /** The parser: one loop over the lines, updating document, section, name and flag. */
  method ParseIniDocument(sc: Strconv, table: seq<Section>, raw: string) returns (r: Result)
    ensures r == ParseResult(sc, table, raw)
  {
    hide StepLine, Split;
    var st := START;
    var lines := Split(raw, '\n');
    for i := 0 to |lines|
      invariant StepLines(sc, table, st, lines[i..]) == StepLines(sc, table, START, lines)
      invariant forall k :: 0 <= k < i ==> |lines[k]| < MAX_LINE
    {
      if |lines[i]| >= MAX_LINE {
        return TooLong;
      }
      assert lines[i..][1..] == lines[i + 1..] && lines[i..][0] == lines[i];
      st := StepLine(sc, table, st, lines[i]);
    }
    if !st.seen && st.doc == map[] {
      return NoSections;
    }
    return Ok(st.doc);
  }

  // ----- the printer -----

  const USER_FIELDS := [
    Field("password_hash", "password_hash", StringKind),
    Field("pubkey_file", "pubkey_file", StringKind),
    Field("enabled", "enabled", BoolKind),
    Field("password_changed_at", "password_changed_at", IntKind),
    Field("password_change_required", "password_change_required", BoolKind),
    Field("totp_secret", "totp_secret", StringKind),
    Field("mfa_enabled", "mfa_enabled", BoolKind)]

  const ROUTE_FIELDS := [
    Field("upstream", "upstream", StringKind),
    Field("port", "port", IntKind),
    Field("user", "user", StringKind),
    Field("privkey", "privkey", StringKind),
    Field("country_code", "country_code", StringKind),
    Field("country", "country", StringKind),
    Field("region", "region", StringKind),
    Field("city", "city", StringKind),
    Field("latitude", "latitude", FloatKind),
    Field("longitude", "longitude", FloatKind),
    Field("enabled", "enabled", BoolKind)]

  const POLICY_FIELDS := [
    Field("allow", "allow", CsvKind),
    Field("deny", "deny", CsvKind),
    Field("allowed_source_types", "allowed_source_types", CsvKind),
    Field("denied_source_types", "denied_source_types", CsvKind),
    Field("login_window", "login_window", StringKind),
    Field("login_days", "login_days", StringKind),
    Field("login_timezone", "login_timezone", StringKind)]

  function FieldsOf(f: Family): (r: seq<Field>) {
    match f case Route => ROUTE_FIELDS case Policy => POLICY_FIELDS case User => USER_FIELDS
  }

  /** One line for every field that is present, in table order. */
  function FieldLines(sc: Strconv, obj: Object, fields: seq<Field>): (r: seq<string>)
    decreases |fields|
  {
    if fields == [] then [] else
      (if fields[0].docKey in obj then [KeyLine(fields[0].key, Format(sc, obj[fields[0].docKey], fields[0].kind))] else [])
      + FieldLines(sc, obj, fields[1..])
  }

  function RepeatedLines(sc: Strconv, key: string, items: seq<string>): (r: seq<string>)
    decreases |items|
  {
    if items == [] then [] else [KeyLine(key, FormatText(sc, items[0]))] + RepeatedLines(sc, key, items[1..])
  }

  /** The strings that the pubkey entry of a user prints, one line each. */
  function PubkeyItems(obj: Object): (r: seq<string>) {
    if "pubkey" !in obj then [] else
      match obj["pubkey"]
      case Str(s) => if s == "" then [] else [s]
      case Strs(ts) => ts
      case Objs(os) => seq(|os|, _ => "")
      case _ => []
  }

  function ObjectLines(sc: Strconv, f: Family, obj: Object): (r: seq<string>) {
    FieldLines(sc, obj, FieldsOf(f)) + if f.User? then RepeatedLines(sc, "pubkey", PubkeyItems(obj)) else []
  }

  /** Objects without a name are not printed. */
  function ObjectBlocks(sc: Strconv, f: Family, objs: seq<Object>): (r: seq<seq<string>>)
    decreases |objs|
  {
    if objs == [] then [] else
      (if NameOf(f, objs[0]) == "" then []
       else [[Header(SectionName(f) + ":" + NameOf(f, objs[0]))] + ObjectLines(sc, f, objs[0])])
      + ObjectBlocks(sc, f, objs[1..])
  }

  /** Sections without a line are not printed. */
  function SectionBlocks(sc: Strconv, doc: Object, table: seq<Section>): (r: seq<seq<string>>)
    decreases |table|
  {
    if table == [] then [] else
      var lines := FieldLines(sc, doc, table[0].fields);
      (if lines == [] then [] else [[Header(table[0].name)] + lines]) + SectionBlocks(sc, doc, table[1..])
  }

  function InsertByName(f: Family, sorted: seq<Object>, x: Object): (r: seq<Object>)
    decreases |sorted|
  {
    if sorted == [] then [x]
    else if Less(NameOf(f, x), NameOf(f, sorted[|sorted| - 1])) then
      InsertByName(f, sorted[..|sorted| - 1], x) + [sorted[|sorted| - 1]]
    else sorted + [x]
  }

  function SortByName(f: Family, objs: seq<Object>): (r: seq<Object>)
    decreases |objs|
  {
    if objs == [] then [] else InsertByName(f, SortByName(f, objs[..|objs| - 1]), objs[|objs| - 1])
  }

  function Blocks(sc: Strconv, table: seq<Section>, doc: Object): (r: seq<seq<string>>) {
    SectionBlocks(sc, doc, table)
    + ObjectBlocks(sc, User, SortByName(User, ObjectsIn(doc, "users")))
    + ObjectBlocks(sc, Route, SortByName(Route, ObjectsIn(doc, "routes")))
    + ObjectBlocks(sc, Policy, SortByName(Policy, ObjectsIn(doc, "policies")))
  }

  /** Blocks are separated by a blank line. */
  function Spaced(blocks: seq<seq<string>>): (r: seq<string>)
    decreases |blocks|
  {
    if blocks == [] then [] else if |blocks| == 1 then blocks[0] else blocks[0] + [""] + Spaced(blocks[1..])
  }

  function RenderText(sc: Strconv, table: seq<Section>, doc: Object): (r: string) {
    Terminated(Spaced(Blocks(sc, table, doc)))
  }

  // ----- the printer as a program -----

  ghost predicate EachNonEmpty(blocks: seq<seq<string>>) {
    forall k :: 0 <= k < |blocks| ==> blocks[k] != []
  }

  lemma {:induction false} SpacedAppend(blocks: seq<seq<string>>, b: seq<string>)
    ensures Spaced(blocks + [b]) == if blocks == [] then b else Spaced(blocks) + [""] + b
    decreases |blocks|
  {
    if blocks == [] {
      assert blocks + [b] == [b];
    } else {
      assert (blocks + [b])[1..] == blocks[1..] + [b];
      SpacedAppend(blocks[1..], b);
    }
  }

  lemma PrintedNothing(blocks: seq<seq<string>>)
    requires EachNonEmpty(blocks)
    ensures Terminated(Spaced(blocks)) == "" <==> blocks == []
  {
    if blocks != [] {
      assert blocks[0] != [];
      assert Spaced(blocks) != [];
    }
  }

  /** What the buffer holds after one more block. */
  lemma PrintedBlock(blocks: seq<seq<string>>, b: seq<string>)
    requires EachNonEmpty(blocks)
    ensures var buf := Terminated(Spaced(blocks));
      Terminated(Spaced(blocks + [b])) == (if |buf| > 0 then buf + "\n" else buf) + Terminated(b)
  {
    hide Spaced, Terminated;
    PrintedNothing(blocks);
    SpacedAppend(blocks, b);
    if blocks != [] {
      TerminatedConcat(Spaced(blocks) + [""], b);
      TerminatedConcat(Spaced(blocks), [""]);
      BlankTerminated();
    }
  }

  lemma BlankTerminated()
    ensures Terminated([""]) == "\n"
  {
  }

  /** Appends a block, with a blank line before it unless it is the first. */
  method WriteBlock(buf: string, ghost blocks: seq<seq<string>>, b: seq<string>) returns (r: string)
    requires EachNonEmpty(blocks) && buf == Terminated(Spaced(blocks))
    ensures r == Terminated(Spaced(blocks + [b]))
  {
    hide Spaced, Terminated;
    PrintedBlock(blocks, b);
    r := buf;
    if |r| > 0 {
      r := r + "\n";
    }
    ghost var base := r;
    assert b[0..] == b;
    for i := 0 to |b|
      invariant r + Terminated(b[i..]) == base + Terminated(b)
    {
      TerminatedStep(b, i);
      assert r + (b[i] + "\n" + Terminated(b[i + 1..])) == (r + b[i] + "\n") + Terminated(b[i + 1..]);
      r := r + b[i] + "\n";
    }
    assert b[|b|..] == [];
    NothingTerminated();
    assert r + "" == r;
  }

  lemma TerminatedStep(b: seq<string>, i: nat)
    requires i < |b|
    ensures Terminated(b[i..]) == b[i] + "\n" + Terminated(b[i + 1..])
  {
    assert b[i..][1..] == b[i + 1..];
  }

  lemma NothingTerminated()
    ensures Terminated([]) == ""
  {
  }

  lemma BlocksStep(sc: Strconv, doc: Object, table: seq<Section>, i: nat)
    requires i < |table|
    ensures SectionBlocks(sc, doc, table[i..])
         == (if FieldLines(sc, doc, table[i].fields) == [] then [] else [[Header(table[i].name)] + FieldLines(sc, doc, table[i].fields)])
            + SectionBlocks(sc, doc, table[i + 1..])
  {
    hide FieldLines;
    assert table[i..][1..] == table[i + 1..];
  }

  method RenderSections(sc: Strconv, table: seq<Section>, doc: Object) returns (buf: string, ghost blocks: seq<seq<string>>)
    ensures blocks == SectionBlocks(sc, doc, table) && EachNonEmpty(blocks)
    ensures buf == Terminated(Spaced(blocks))
  {
    hide Spaced, Terminated, SectionBlocks, FieldLines;
    buf, blocks := "", [];
    PrintedNothing([]);
    assert table[0..] == table;
    for i := 0 to |table|
      invariant EachNonEmpty(blocks) && buf == Terminated(Spaced(blocks))
      invariant blocks + SectionBlocks(sc, doc, table[i..]) == SectionBlocks(sc, doc, table)
    {
      BlocksStep(sc, doc, table, i);
      var lines := FieldLines(sc, doc, table[i].fields);
      if lines != [] {
        buf := WriteBlock(buf, blocks, [Header(table[i].name)] + lines);
        blocks := blocks + [[Header(table[i].name)] + lines];
      }
    }
    assert table[|table|..] == [];
    NoSectionBlocks(sc, doc);
    assert blocks + [] == blocks;
  }

  lemma NoSectionBlocks(sc: Strconv, doc: Object)
    ensures SectionBlocks(sc, doc, []) == []
  {
  }

  lemma ObjectBlocksStep(sc: Strconv, f: Family, objs: seq<Object>, i: nat)
    requires i < |objs|
    ensures ObjectBlocks(sc, f, objs[i..])
         == (if NameOf(f, objs[i]) == "" then []
             else [[Header(SectionName(f) + ":" + NameOf(f, objs[i]))] + ObjectLines(sc, f, objs[i])])
            + ObjectBlocks(sc, f, objs[i + 1..])
  {
    hide ObjectLines, Header, NameOf;
    assert objs[i..][1..] == objs[i + 1..] && objs[i..][0] == objs[i];
  }

  method RenderObjects(sc: Strconv, f: Family, objs: seq<Object>, buf0: string, ghost blocks0: seq<seq<string>>)
    returns (buf: string, ghost blocks: seq<seq<string>>)
    requires EachNonEmpty(blocks0) && buf0 == Terminated(Spaced(blocks0))
    ensures blocks == blocks0 + ObjectBlocks(sc, f, objs) && EachNonEmpty(blocks)
    ensures buf == Terminated(Spaced(blocks))
  {
    hide Spaced, Terminated, ObjectBlocks, ObjectLines, Header, NameOf;
    buf, blocks := buf0, blocks0;
    assert objs[0..] == objs;
    for i := 0 to |objs|
      invariant EachNonEmpty(blocks) && buf == Terminated(Spaced(blocks))
      invariant blocks + ObjectBlocks(sc, f, objs[i..]) == blocks0 + ObjectBlocks(sc, f, objs)
    {
      ObjectBlocksStep(sc, f, objs, i);
      var name := NameOf(f, objs[i]);
      if name == "" {
        continue;
      }
      var block := [Header(SectionName(f) + ":" + name)] + ObjectLines(sc, f, objs[i]);
      buf := WriteBlock(buf, blocks, block);
      blocks := blocks + [block];
    }
    assert objs[|objs|..] == [];
    NoObjectBlocks(sc, f);
    assert blocks + [] == blocks;
  }

  lemma NoObjectBlocks(sc: Strconv, f: Family)
    ensures ObjectBlocks(sc, f, []) == []
  {
  }

  /** The printer: sections, then users, routes and policies, appended to one buffer. */
  method RenderIniDocument(sc: Strconv, table: seq<Section>, doc: Object) returns (buf: string)
    ensures buf == RenderText(sc, table, doc)
    ensures buf == Terminated(Spaced(
      SectionBlocks(sc, doc, table)
      + ObjectBlocks(sc, User, SortByName(User, ObjectsIn(doc, "users")))
      + ObjectBlocks(sc, Route, SortByName(Route, ObjectsIn(doc, "routes")))
      + ObjectBlocks(sc, Policy, SortByName(Policy, ObjectsIn(doc, "policies")))))
  {
    hide Spaced, Terminated, ObjectBlocks, SectionBlocks, SortByName, ObjectsIn;
    ghost var blocks;
    buf, blocks := RenderSections(sc, table, doc);
    buf, blocks := RenderObjects(sc, User, SortByName(User, ObjectsIn(doc, "users")), buf, blocks);
    buf, blocks := RenderObjects(sc, Route, SortByName(Route, ObjectsIn(doc, "routes")), buf, blocks);
    buf, blocks := RenderObjects(sc, Policy, SortByName(Policy, ObjectsIn(doc, "policies")), buf, blocks);
  }
}
