/**
 The list of managed servers: the configured ones with the state that the data plane reports
 folded into them, and the reported ones that are not configured.
 */
module Servers {
  import opened Text

  /** `tags` is `None` for a nil map, `checkedAt` is `None` for the zero time. */
  datatype Server = Server(
    id: string, name: string, host: string, port: int, group: string, status: string,
    weight: int, maxSessions: int, tags: Option<map<string, string>>,
    healthy: bool, maintenance: bool, sessions: int, checkedAt: Option<int>)

  function Or(a: string, b: string): (r: string) {
    if a == "" then b else a
  }

  function OrInt(a: int, b: int): (r: int) {
    if a == 0 then b else a
  }

  function MergeState(c: Server, r: Server): (m: Server) {
    Server(
      Or(c.id, r.id), Or(c.name, r.name), Or(c.host, r.host), OrInt(c.port, r.port), Or(c.group, r.group),
      Or(r.status, c.status),
      OrInt(c.weight, r.weight), OrInt(c.maxSessions, r.maxSessions), if c.tags.None? then r.tags else c.tags,
      r.healthy, c.maintenance || r.maintenance,
      if r.sessions > 0 then r.sessions else c.sessions,
      if r.checkedAt.Some? then r.checkedAt else c.checkedAt)
  }

  function EndpointKey(host: string, port: int): (r: string) {
    ToLower(host) + ":" + Itoa(port)
  }

  // ----- the merge and its two indexes -----

  datatype State = State(entries: seq<Server>, byId: map<string, nat>, byEndpoint: map<string, nat>)

  function Added(s: State, srv: Server): (t: State) {
    State(
      s.entries + [srv],
      if srv.id != "" then s.byId[srv.id := |s.entries|] else s.byId,
      if srv.host != "" && srv.port > 0 then s.byEndpoint[EndpointKey(srv.host, srv.port) := |s.entries|] else s.byEndpoint)
  }

  /** The entry a reported server belongs to; past the end when it needs a new one. */
  function OwnerOf(s: State, srv: Server): (i: nat) {
    if srv.id in s.byId then s.byId[srv.id]
    else if EndpointKey(srv.host, srv.port) in s.byEndpoint then s.byEndpoint[EndpointKey(srv.host, srv.port)]
    else |s.entries|
  }

  function Folded(s: State, srv: Server): (t: State) {
    var i := OwnerOf(s, srv);
    if i >= |s.entries| then Added(s, srv)
    else State(s.entries[i := MergeState(s.entries[i], srv)], if srv.id != "" then s.byId[srv.id := i] else s.byId, s.byEndpoint)
  }

  function Configured(configured: seq<Server>): (s: State) {
    if configured == [] then State([], map[], map[]) else
      var n := |configured| - 1;
      Added(Configured(configured[..n]), configured[n])
  }

  function MergeAll(configured: seq<Server>, runtime: seq<Server>): (s: State) {
    if runtime == [] then Configured(configured) else
      var n := |runtime| - 1;
      Folded(MergeAll(configured, runtime[..n]), runtime[n])
  }

  // ----- the indexes -----

  /** Both indexes point at entries, and the endpoint index at entries with that endpoint. */
  ghost predicate IndexesValid(s: State) {
    && "" !in s.byId
    && (forall id :: id in s.byId ==> s.byId[id] < |s.entries|)
    && (forall key :: key in s.byEndpoint ==>
          && s.byEndpoint[key] < |s.entries|
          && var e := s.entries[s.byEndpoint[key]]; e.host != "" && e.port > 0 && EndpointKey(e.host, e.port) == key)
  }

  lemma AddedIsValid(s: State, srv: Server)
    requires IndexesValid(s)
    ensures IndexesValid(Added(s, srv))
  {
    hide EndpointKey;
  }

  lemma FoldedIsValid(s: State, srv: Server)
    requires IndexesValid(s)
    ensures IndexesValid(Folded(s, srv)) && OwnerOf(s, srv) <= |s.entries|
    ensures srv.id in s.byId ==> Folded(s, srv).byId == s.byId
  {
    hide EndpointKey;
    AddedIsValid(s, srv);
  }

  lemma {:induction false} ConfiguredIsValid(configured: seq<Server>)
    ensures IndexesValid(Configured(configured)) && Configured(configured).entries == configured
  {
    hide IndexesValid, Added;
    if configured == [] {
      EmptyIsValid();
    } else {
      var n := |configured| - 1;
      ConfiguredIsValid(configured[..n]);
      AddedIsValid(Configured(configured[..n]), configured[n]);
      AddedLast(Configured(configured[..n]), configured[n]);
      assert configured == configured[..n] + [configured[n]];
    }
  }

  lemma AddedLast(s: State, srv: Server)
    ensures Added(s, srv).entries == s.entries + [srv]
  {
  }

  lemma EmptyIsValid()
    ensures IndexesValid(State([], map[], map[]))
  {
  }

  /** Both indexes stay valid throughout the merge. */
  lemma {:induction false} MergeIsValid(configured: seq<Server>, runtime: seq<Server>)
    ensures IndexesValid(MergeAll(configured, runtime))
  {
    hide IndexesValid, Folded;
    if runtime == [] {
      ConfiguredIsValid(configured);
    } else {
      var n := |runtime| - 1;
      MergeIsValid(configured, runtime[..n]);
      FoldedIsValid(MergeAll(configured, runtime[..n]), runtime[n]);
    }
  }

  // ----- sorting -----

  function Label(s: Server): (r: string) {
    Or(s.name, s.host)
  }

  ghost predicate SortedByLabel(s: seq<Server>) {
    forall i, j :: 0 <= i < j < |s| ==> !Less(Label(s[j]), Label(s[i]))
  }

  function InsertByLabel(sorted: seq<Server>, x: Server): (r: seq<Server>)
    decreases |sorted|
  {
    if sorted == [] then [x]
    else
      var n := |sorted| - 1;
      if Less(Label(x), Label(sorted[n])) then InsertByLabel(sorted[..n], x) + [sorted[n]] else sorted + [x]
  }

  function SortByLabel(s: seq<Server>): (r: seq<Server>) {
    if s == [] then [] else
      var n := |s| - 1;
      InsertByLabel(SortByLabel(s[..n]), s[n])
  }

  /** The entries of one label, in order. */
  ghost function OfLabel(s: seq<Server>, title: string): (r: seq<Server>) {
    if s == [] then [] else
      var n := |s| - 1;
      if Label(s[n]) == title then OfLabel(s[..n], title) + [s[n]] else OfLabel(s[..n], title)
  }

  ghost predicate NoneAfter(s: seq<Server>, title: string) {
    forall i :: 0 <= i < |s| ==> !Less(title, Label(s[i]))
  }

  /** Appending an entry that is not below the last one keeps the list sorted. */
  lemma SortedAppend(s: seq<Server>, x: Server)
    requires SortedByLabel(s) && NoneAfter(s, Label(x))
    ensures SortedByLabel(s + [x])
  {
    hide Less, Label;
  }

  lemma LastIsGreatest(s: seq<Server>, title: string)
    requires SortedByLabel(s) && s != [] && !Less(title, Label(s[|s| - 1]))
    ensures NoneAfter(s, title)
  {
    hide Less, Label;
    var n := |s| - 1;
    forall i | 0 <= i < |s|
      ensures !Less(title, Label(s[i]))
    {
      if i < n {
        NotLessTransitive(Label(s[i]), Label(s[n]), title);
      }
    }
  }

  lemma {:induction false} InsertSorts(sorted: seq<Server>, x: Server)
    requires SortedByLabel(sorted)
    ensures SortedByLabel(InsertByLabel(sorted, x))
    ensures forall title :: NoneAfter(sorted, title) && !Less(title, Label(x)) ==> NoneAfter(InsertByLabel(sorted, x), title)
    decreases |sorted|
  {
    hide Less, Label;
    if sorted != [] {
      var n := |sorted| - 1;
      if Less(Label(x), Label(sorted[n])) {
        InsertSorts(sorted[..n], x);
        LessIsStrictTotal(Label(x), Label(sorted[n]));
        SortedAppend(InsertByLabel(sorted[..n], x), sorted[n]);
      } else {
        LastIsGreatest(sorted, Label(x));
        SortedAppend(sorted, x);
      }
    }
  }

  lemma OfLabelAppend(s: seq<Server>, x: Server, title: string)
    ensures OfLabel(s + [x], title) == if Label(x) == title then OfLabel(s, title) + [x] else OfLabel(s, title)
  {
    hide Label;
    assert (s + [x])[..|s|] == s;
  }

  /** Insertion puts an entry behind all others of its label. */
  lemma {:induction false} InsertIsStable(sorted: seq<Server>, x: Server, title: string)
    requires SortedByLabel(sorted)
    ensures OfLabel(InsertByLabel(sorted, x), title) == OfLabel(sorted + [x], title)
    decreases |sorted|
  {
    hide Less, Label;
    OfLabelAppend(sorted, x, title);
    if sorted == [] {
      assert [] + [x] == [x];
    } else {
      var n := |sorted| - 1;
      var last := sorted[n];
      if Less(Label(x), Label(last)) {
        LessIsStrictTotal(Label(x), Label(last));
        InsertIsStable(sorted[..n], x, title);
        OfLabelAppend(sorted[..n], x, title);
        OfLabelAppend(InsertByLabel(sorted[..n], x), last, title);
      }
    }
  }

  lemma {:induction false} InsertKeepsAll(sorted: seq<Server>, x: Server)
    ensures multiset(InsertByLabel(sorted, x)) == multiset(sorted) + multiset{x}
    decreases |sorted|
  {
    hide Less, Label;
    if sorted != [] {
      var n := |sorted| - 1;
      assert sorted == sorted[..n] + [sorted[n]];
      InsertKeepsAll(sorted[..n], x);
    }
  }

  /** The result is sorted by label, holds the same entries, and keeps the order of equal labels. */
  lemma {:induction false} SortIsStable(s: seq<Server>, title: string)
    ensures SortedByLabel(SortByLabel(s)) && multiset(SortByLabel(s)) == multiset(s)
    ensures OfLabel(SortByLabel(s), title) == OfLabel(s, title)
  {
    hide Less, Label, InsertByLabel;
    if s != [] {
      var n := |s| - 1;
      assert s == s[..n] + [s[n]];
      SortIsStable(s[..n], title);
      InsertSorts(SortByLabel(s[..n]), s[n]);
      InsertIsStable(SortByLabel(s[..n]), s[n], title);
      InsertKeepsAll(SortByLabel(s[..n]), s[n]);
      OfLabelAppend(SortByLabel(s[..n]), s[n], title);
      OfLabelAppend(s[..n], s[n], title);
    }
  }

  lemma SortedMeans(s: seq<Server>)
    requires SortedByLabel(s)
    ensures forall i, j :: 0 <= i < j < |s| ==>
      !Less(if s[j].name == "" then s[j].host else s[j].name, if s[i].name == "" then s[i].host else s[i].name)
  {
    hide Less;
  }

  // ----- the program -----

  method MergeManagedServers(configured: seq<Server>, runtime: seq<Server>) returns (r: seq<Server>)
    ensures r == SortByLabel(MergeAll(configured, runtime).entries)
    ensures multiset(r) == multiset(MergeAll(configured, runtime).entries)
    ensures forall i, j :: 0 <= i < j < |r| ==>
      !Less(if r[j].name == "" then r[j].host else r[j].name, if r[i].name == "" then r[i].host else r[i].name)
  {
    hide EndpointKey, MergeState, SortByLabel, SortedByLabel, Less;
    var merged: seq<Server> := [];
    var byId: map<string, nat> := map[];
    var byEndpoint: map<string, nat> := map[];
    assert configured[..0] == [];
    for i := 0 to |configured|
      invariant State(merged, byId, byEndpoint) == Configured(configured[..i])
    {
      assert configured[..i + 1][..i] == configured[..i];
      merged, byId, byEndpoint := Add(merged, byId, byEndpoint, configured[i]);
    }
    assert configured[..|configured|] == configured && runtime[..0] == [];
    ConfiguredIsValid(configured);
    for j := 0 to |runtime|
      invariant State(merged, byId, byEndpoint) == MergeAll(configured, runtime[..j])
      invariant IndexesValid(State(merged, byId, byEndpoint))
    {
      assert runtime[..j + 1][..j] == runtime[..j];
      var srv := runtime[j];
      FoldedIsValid(State(merged, byId, byEndpoint), srv);
      if srv.id in byId {
        var i := byId[srv.id];
        merged := merged[i := MergeState(merged[i], srv)];
        continue;
      }
      var key := EndpointKey(srv.host, srv.port);
      if key in byEndpoint {
        var i := byEndpoint[key];
        merged := merged[i := MergeState(merged[i], srv)];
        if srv.id != "" {
          byId := byId[srv.id := i];
        }
        continue;
      }
      merged, byId, byEndpoint := Add(merged, byId, byEndpoint, srv);
    }
    assert runtime[..|runtime|] == runtime;
    r := SortByLabel(merged);
    SortIsStable(merged, "");
    SortedMeans(r);
  }

  method Add(merged: seq<Server>, byId: map<string, nat>, byEndpoint: map<string, nat>, srv: Server)
    returns (merged': seq<Server>, byId': map<string, nat>, byEndpoint': map<string, nat>)
    ensures State(merged', byId', byEndpoint') == Added(State(merged, byId, byEndpoint), srv)
  {
    var idx := |merged|;
    merged', byId', byEndpoint' := merged + [srv], byId, byEndpoint;
    if srv.id != "" {
      byId' := byId[srv.id := idx];
    }
    if srv.host != "" && srv.port > 0 {
      byEndpoint' := byEndpoint[EndpointKey(srv.host, srv.port) := idx];
    }
  }

  // ----- who owns what -----

  /** The entry of every reported server. */
  ghost function Owners(configured: seq<Server>, runtime: seq<Server>): (r: seq<nat>)
    ensures |r| == |runtime|
  {
    if runtime == [] then [] else
      var n := |runtime| - 1;
      Owners(configured, runtime[..n]) + [OwnerOf(MergeAll(configured, runtime[..n]), runtime[n])]
  }

  /** The reported servers of one entry, in order. */
  ghost function Mine(runtime: seq<Server>, owners: seq<nat>, i: nat): (r: seq<Server>)
    requires |owners| == |runtime|
  {
    if runtime == [] then [] else
      var n := |runtime| - 1;
      Mine(runtime[..n], owners[..n], i) + if owners[n] == i then [runtime[n]] else []
  }

  ghost function FoldOnto(x: Server, rs: seq<Server>): (r: Server) {
    if rs == [] then x else
      var n := |rs| - 1;
      MergeState(FoldOnto(x, rs[..n]), rs[n])
  }

  /** A configured entry starts from its configuration, another one from its first report. */
  ghost function EntryOf(configured: seq<Server>, mine: seq<Server>, i: nat): (r: Server)
    requires i < |configured| || mine != []
  {
    if i < |configured| then FoldOnto(configured[i], mine) else FoldOnto(mine[0], mine[1..])
  }

  lemma FoldOneMore(x: Server, rs: seq<Server>, r: Server)
    ensures FoldOnto(x, rs + [r]) == MergeState(FoldOnto(x, rs), r)
  {
    hide MergeState;
    assert (rs + [r])[..|rs|] == rs;
  }

  lemma EntryOneMore(configured: seq<Server>, mine: seq<Server>, i: nat, r: Server)
    requires i < |configured| || mine != []
    ensures EntryOf(configured, mine + [r], i) == MergeState(EntryOf(configured, mine, i), r)
  {
    hide MergeState, FoldOnto;
    if i < |configured| {
      FoldOneMore(configured[i], mine, r);
    } else {
      FoldOneMore(mine[0], mine[1..], r);
      assert (mine + [r])[1..] == mine[1..] + [r];
    }
  }

  lemma {:induction false} MineBeyond(configured: seq<Server>, runtime: seq<Server>, i: nat)
    requires i >= |MergeAll(configured, runtime).entries|
    ensures Mine(runtime, Owners(configured, runtime), i) == []
  {
    hide OwnerOf, Folded, IndexesValid;
    if runtime != [] {
      var n := |runtime| - 1;
      var s := MergeAll(configured, runtime[..n]);
      MergeIsValid(configured, runtime[..n]);
      FoldedIsValid(s, runtime[n]);
      FoldGrows(s, runtime[n]);
      MineBeyond(configured, runtime[..n], i);
      OwnersOneMore(configured, runtime);
    }
  }

  lemma OwnersOneMore(configured: seq<Server>, runtime: seq<Server>)
    requires runtime != []
    ensures var n, owners := |runtime| - 1, Owners(configured, runtime);
      owners[..n] == Owners(configured, runtime[..n]) && owners[n] == OwnerOf(MergeAll(configured, runtime[..n]), runtime[n])
  {
    hide OwnerOf, MergeAll;
  }

  lemma FoldGrows(s: State, srv: Server)
    ensures var t, i := Folded(s, srv), OwnerOf(s, srv);
      if i >= |s.entries| then t.entries == s.entries + [srv] else t.entries == s.entries[i := MergeState(s.entries[i], srv)]
  {
    hide OwnerOf, MergeState;
  }

  /**
   Every entry is its own start with exactly its reported servers folded in, in the order of the
   report; every reported server has exactly one entry; and the configured entries come first.
   */
  lemma {:induction false} EntriesAreFolds(configured: seq<Server>, runtime: seq<Server>, i: nat)
    ensures var s, owners := MergeAll(configured, runtime), Owners(configured, runtime);
      && |configured| <= |s.entries|
      && (forall j :: 0 <= j < |owners| ==> owners[j] < |s.entries|)
      && (i < |s.entries| ==>
            var mine := Mine(runtime, owners, i);
            (i < |configured| || mine != []) && s.entries[i] == EntryOf(configured, mine, i))
  {
    hide OwnerOf, MergeState, FoldOnto, IndexesValid, EntryOf, Folded;
    var s, owners := MergeAll(configured, runtime), Owners(configured, runtime);
    if runtime == [] {
      ConfiguredIsValid(configured);
      if i < |s.entries| {
        EntryAlone(configured, i);
      }
    } else {
      var n := |runtime| - 1;
      var before := MergeAll(configured, runtime[..n]);
      EntriesAreFolds(configured, runtime[..n], i);
      MergeIsValid(configured, runtime[..n]);
      FoldedIsValid(before, runtime[n]);
      FoldGrows(before, runtime[n]);
      OwnersOneMore(configured, runtime);
      if i < |s.entries| {
        var mine := Mine(runtime[..n], owners[..n], i);
        if i == |before.entries| {
          MineBeyond(configured, runtime[..n], i);
          EntryFirst(configured, runtime[n], i);
        } else if owners[n] == i {
          EntryOneMore(configured, mine, i, runtime[n]);
        } else {
          assert mine + [] == mine;
        }
      }
    }
  }

  lemma EntryAlone(configured: seq<Server>, i: nat)
    requires i < |configured|
    ensures EntryOf(configured, [], i) == configured[i]
  {
  }

  lemma EntryFirst(configured: seq<Server>, srv: Server, i: nat)
    requires i >= |configured|
    ensures EntryOf(configured, [] + [srv], i) == srv
  {
    hide MergeState;
    assert ([] + [srv])[1..] == [];
  }

  lemma FoldKeepsId(s: State, srv: Server, id: string)
    requires IndexesValid(s) && id in s.byId
    ensures id in Folded(s, srv).byId && Folded(s, srv).byId[id] == s.byId[id]
  {
    hide EndpointKey, MergeState;
  }

  /** Once an id has an entry, later reports of that id go to the same one. */
  lemma {:induction false} IdKeepsEntry(configured: seq<Server>, runtime: seq<Server>, more: seq<Server>, id: string)
    requires id in MergeAll(configured, runtime).byId
    ensures var t := MergeAll(configured, runtime + more);
      id in t.byId && t.byId[id] == MergeAll(configured, runtime).byId[id]
    decreases |more|
  {
    hide Folded, IndexesValid;
    if more == [] {
      assert runtime + more == runtime;
    } else {
      var n := |more| - 1;
      IdKeepsEntry(configured, runtime, more[..n], id);
      MergeIsValid(configured, runtime + more[..n]);
      FoldKeepsId(MergeAll(configured, runtime + more[..n]), more[n], id);
      assert (runtime + more)[..|runtime| + n] == runtime + more[..n];
      assert (runtime + more)[|runtime| + n] == more[n];
    }
  }

  lemma ReportRegisters(configured: seq<Server>, runtime: seq<Server>, j: nat)
    requires j < |runtime| && runtime[j].id != ""
    ensures var t := MergeAll(configured, runtime[..j + 1]);
      runtime[j].id in t.byId && t.byId[runtime[j].id] == Owners(configured, runtime[..j + 1])[j]
  {
    hide EndpointKey, MergeState, IndexesValid;
    var part := runtime[..j + 1];
    assert part[..j] == runtime[..j];
    MergeIsValid(configured, runtime[..j]);
    FoldedIsValid(MergeAll(configured, runtime[..j]), runtime[j]);
    OwnersOneMore(configured, part);
  }

  lemma {:induction false} OwnersOfPrefix(configured: seq<Server>, runtime: seq<Server>, j: nat)
    requires j < |runtime|
    ensures Owners(configured, runtime)[j] == Owners(configured, runtime[..j + 1])[j]
  {
    hide OwnerOf, MergeAll;
    var n := |runtime| - 1;
    if j == n {
      assert runtime[..j + 1] == runtime;
    } else {
      OwnersOneMore(configured, runtime);
      OwnersOfPrefix(configured, runtime[..n], j);
      assert runtime[..n][..j + 1] == runtime[..j + 1];
      assert Owners(configured, runtime)[..n][j] == Owners(configured, runtime)[j];
    }
  }

  /** Reported servers that share an id share an entry. */
  lemma SameIdSameEntry(configured: seq<Server>, runtime: seq<Server>, j: nat, k: nat)
    requires j < k < |runtime| && runtime[j].id == runtime[k].id != ""
    ensures Owners(configured, runtime)[j] == Owners(configured, runtime)[k]
  {
    hide MergeAll, Owners;
    var id := runtime[j].id;
    ReportRegisters(configured, runtime, j);
    IdKeepsEntry(configured, runtime[..j + 1], runtime[j + 1..k], id);
    assert runtime[..j + 1] + runtime[j + 1..k] == runtime[..k];
    var part := runtime[..k + 1];
    assert part[..k] == runtime[..k];
    OwnersOneMore(configured, part);
    OwnersOfPrefix(configured, runtime, j);
    OwnersOfPrefix(configured, runtime, k);
  }

  lemma AddedId(s: State, srv: Server, id: string)
    requires id != ""
    ensures var byId := Added(s, srv).byId;
      if srv.id == id then id in byId && byId[id] == |s.entries|
      else (id in byId <==> id in s.byId) && (id in byId ==> byId[id] == s.byId[id])
  {
    hide EndpointKey;
  }

  /** The last configured server of an id. */
  ghost predicate IsLastId(configured: seq<Server>, id: string, k: int) {
    0 <= k < |configured| && configured[k].id == id && forall j :: k < j < |configured| ==> configured[j].id != id
  }

  lemma {:induction false} ConfiguredIds(configured: seq<Server>, id: string)
    requires id != ""
    ensures var byId := Configured(configured).byId;
      && (id in byId <==> exists i :: 0 <= i < |configured| && configured[i].id == id)
      && (id in byId ==> IsLastId(configured, id, byId[id]))
  {
    hide Added, IndexesValid;
    if configured != [] {
      var n := |configured| - 1;
      ConfiguredIds(configured[..n], id);
      ConfiguredIsValid(configured[..n]);
      AddedId(Configured(configured[..n]), configured[n], id);
    }
  }

  /** A report of a configured id goes to the last entry configured with that id. */
  lemma ConfiguredIdOwns(configured: seq<Server>, runtime: seq<Server>, i: nat, j: nat)
    requires i < |configured| && j < |runtime| && runtime[j].id == configured[i].id != ""
    ensures IsLastId(configured, runtime[j].id, Owners(configured, runtime)[j])
  {
    hide MergeAll, Owners, Configured;
    var id := runtime[j].id;
    ConfiguredIds(configured, id);
    NoReports(configured);
    IdKeepsEntry(configured, [], runtime[..j], id);
    assert [] + runtime[..j] == runtime[..j];
    var part := runtime[..j + 1];
    assert part[..j] == runtime[..j];
    OwnersOneMore(configured, part);
    OwnersOfPrefix(configured, runtime, j);
  }

  lemma NoReports(configured: seq<Server>)
    ensures MergeAll(configured, []) == Configured(configured)
  {
  }

  // ----- reports without a known id -----

  lemma KeyIff(h: string, p: int, host: string, port: int)
    ensures EndpointKey(h, p) == EndpointKey(host, port) <==> SameLetters(h, host) && p == port
  {
    hide ToLower, Itoa;
    LowerIff(h, host);
    if EndpointKey(h, p) == EndpointKey(host, port) {
      ItoaIsPlain(p);
      ItoaIsPlain(port);
      LastColon(ToLower(h), Itoa(p), ToLower(host), Itoa(port));
      ParseOfItoa(p);
      ParseOfItoa(port);
    }
  }

  lemma NoColonBehind(a: string, x: string)
    requires Without(x, ':')
    ensures var s := a + ":" + x; s[|a|] == ':' && forall i :: |a| < i < |s| ==> s[i] != ':'
  {
    var s := a + ":" + x;
    forall i | |a| < i < |s|
      ensures s[i] != ':'
    {
      assert s[i] == x[i - |a| - 1];
    }
  }

  /** A text without a colon stands behind the last colon. */
  lemma LastColon(a: string, x: string, b: string, y: string)
    requires a + ":" + x == b + ":" + y && Without(x, ':') && Without(y, ':')
    ensures a == b && x == y
  {
    var s, t := a + ":" + x, b + ":" + y;
    NoColonBehind(a, x);
    NoColonBehind(b, y);
    assert a == s[..|a|] && b == t[..|b|] && x == s[|a| + 1..] && y == t[|b| + 1..];
  }

  /** The servers that the entries were made from: the configured ones, then first reports. */
  ghost function Seeds(configured: seq<Server>, runtime: seq<Server>): (r: seq<Server>) {
    if runtime == [] then configured else
      var n := |runtime| - 1;
      var before := Seeds(configured, runtime[..n]);
      if OwnerOf(MergeAll(configured, runtime[..n]), runtime[n]) < |before| then before else before + [runtime[n]]
  }

  /** Reachable under that host, in any letter case, and that port. */
  ghost predicate Serves(e: Server, host: string, port: int) {
    e.host != "" && e.port > 0 && SameLetters(e.host, host) && e.port == port
  }

  ghost predicate IsLastServing(seeds: seq<Server>, host: string, port: int, k: int) {
    0 <= k < |seeds| && Serves(seeds[k], host, port) && forall j :: k < j < |seeds| ==> !Serves(seeds[j], host, port)
  }

  ghost predicate NoneServes(seeds: seq<Server>, host: string, port: int) {
    forall k :: 0 <= k < |seeds| ==> !Serves(seeds[k], host, port)
  }

  ghost predicate EndpointsFit(s: State, seeds: seq<Server>, host: string, port: int) {
    var key := EndpointKey(host, port);
    && |s.entries| == |seeds|
    && (if key in s.byEndpoint then IsLastServing(seeds, host, port, s.byEndpoint[key]) else NoneServes(seeds, host, port))
  }

  lemma AddedEndpoint(s: State, seeds: seq<Server>, srv: Server, host: string, port: int)
    requires EndpointsFit(s, seeds, host, port)
    ensures EndpointsFit(Added(s, srv), seeds + [srv], host, port)
  {
    hide EndpointKey, SameLetters;
    KeyIff(srv.host, srv.port, host, port);
  }

  lemma {:induction false} ConfiguredEndpoints(configured: seq<Server>, host: string, port: int)
    ensures EndpointsFit(Configured(configured), configured, host, port)
  {
    hide Added, EndpointKey, Serves;
    if configured != [] {
      var n := |configured| - 1;
      ConfiguredEndpoints(configured[..n], host, port);
      AddedEndpoint(Configured(configured[..n]), configured[..n], configured[n], host, port);
      assert configured == configured[..n] + [configured[n]];
    }
  }

  /** The endpoint index leads to the last entry that was made with that host and port. */
  lemma {:induction false} EndpointIndex(configured: seq<Server>, runtime: seq<Server>, host: string, port: int)
    ensures EndpointsFit(MergeAll(configured, runtime), Seeds(configured, runtime), host, port)
  {
    hide Added, EndpointKey, OwnerOf, EndpointsFit, Configured;
    if runtime == [] {
      ConfiguredEndpoints(configured, host, port);
    } else {
      var n := |runtime| - 1;
      var s, seeds := MergeAll(configured, runtime[..n]), Seeds(configured, runtime[..n]);
      EndpointIndex(configured, runtime[..n], host, port);
      EndpointsCount(s, seeds, host, port);
      if OwnerOf(s, runtime[n]) < |seeds| {
        FoldedEndpoint(s, seeds, runtime[n], host, port);
      } else {
        AddedEndpoint(s, seeds, runtime[n], host, port);
      }
    }
  }

  lemma EndpointsCount(s: State, seeds: seq<Server>, host: string, port: int)
    requires EndpointsFit(s, seeds, host, port)
    ensures |s.entries| == |seeds|
  {
  }

  lemma FoldedEndpoint(s: State, seeds: seq<Server>, srv: Server, host: string, port: int)
    requires EndpointsFit(s, seeds, host, port) && OwnerOf(s, srv) < |s.entries|
    ensures EndpointsFit(Folded(s, srv), seeds, host, port)
  {
    hide EndpointKey, OwnerOf, Serves;
  }

  ghost predicate KnownId(configured: seq<Server>, runtime: seq<Server>, id: string) {
    id != "" && (|| (exists k :: 0 <= k < |configured| && configured[k].id == id)
                 || (exists k :: 0 <= k < |runtime| && runtime[k].id == id))
  }

  /** The id index knows exactly the ids that were configured or reported. */
  lemma {:induction false} KnownIds(configured: seq<Server>, runtime: seq<Server>, id: string)
    ensures id in MergeAll(configured, runtime).byId <==> KnownId(configured, runtime, id)
  {
    hide Folded, IndexesValid, Configured;
    if runtime == [] {
      ConfiguredIsValid(configured);
      EmptyIdUnknown(Configured(configured));
      if id != "" {
        ConfiguredIds(configured, id);
      }
    } else {
      var n := |runtime| - 1;
      KnownIds(configured, runtime[..n], id);
      MergeIsValid(configured, runtime[..n]);
      FoldedIds(MergeAll(configured, runtime[..n]), runtime[n], id);
    }
  }

  lemma EmptyIdUnknown(s: State)
    requires IndexesValid(s)
    ensures "" !in s.byId
  {
  }

  lemma FoldedIds(s: State, srv: Server, id: string)
    requires IndexesValid(s)
    ensures id in Folded(s, srv).byId <==> id in s.byId || (id != "" && srv.id == id)
  {
    hide EndpointKey, MergeState;
  }

  /**
   A report without a known id goes to the last entry made with its host and port, in any letter
   case of the host, and makes a new entry exactly when there is none.
   */
  lemma UnknownIdGoesByEndpoint(configured: seq<Server>, runtime: seq<Server>, j: nat)
    requires j < |runtime| && !KnownId(configured, runtime[..j], runtime[j].id)
    ensures var owner, seeds := Owners(configured, runtime)[j], Seeds(configured, runtime[..j]);
      if NoneServes(seeds, runtime[j].host, runtime[j].port) then owner == |seeds|
      else IsLastServing(seeds, runtime[j].host, runtime[j].port, owner)
  {
    hide MergeAll, Owners, EndpointKey, Seeds, Serves;
    var part, srv := runtime[..j + 1], runtime[j];
    assert part[..j] == runtime[..j];
    OwnersOneMore(configured, part);
    OwnersOfPrefix(configured, runtime, j);
    KnownIds(configured, runtime[..j], srv.id);
    EndpointIndex(configured, runtime[..j], srv.host, srv.port);
  }

  /** The entries are those of the folds: each one's seed is its configuration or its first report. */
  lemma {:induction false} SeedIs(configured: seq<Server>, runtime: seq<Server>, i: nat)
    ensures var seeds, mine := Seeds(configured, runtime), Mine(runtime, Owners(configured, runtime), i);
      && |seeds| == |MergeAll(configured, runtime).entries|
      && (i < |seeds| ==> (i < |configured| || mine != []) && seeds[i] == if i < |configured| then configured[i] else mine[0])
  {
    hide OwnerOf, MergeAll, EndpointsFit, Mine, Seeds, Owners, EntryOf;
    EndpointIndex(configured, runtime, "", 0);
    EndpointsCount(MergeAll(configured, runtime), Seeds(configured, runtime), "", 0);
    EntriesAreFolds(configured, runtime, i);
    if runtime == [] {
      FirstSeeds(configured);
    } else {
      var n := |runtime| - 1;
      SeedIs(configured, runtime[..n], i);
      EntriesAreFolds(configured, runtime[..n], i);
      OwnersOneMore(configured, runtime);
      SeedsGrow(configured, runtime, i);
      MineOneMore(runtime, Owners(configured, runtime), i);
    }
  }

  lemma FirstSeeds(configured: seq<Server>)
    ensures Seeds(configured, []) == configured
  {
  }

  lemma MineOneMore(runtime: seq<Server>, owners: seq<nat>, i: nat)
    requires |owners| == |runtime| && runtime != []
    ensures var n := |runtime| - 1;
      Mine(runtime, owners, i) == Mine(runtime[..n], owners[..n], i) + if owners[n] == i then [runtime[n]] else []
  {
  }

  lemma SeedsGrow(configured: seq<Server>, runtime: seq<Server>, i: nat)
    requires runtime != [] && |Seeds(configured, runtime[..|runtime| - 1])| == |MergeAll(configured, runtime[..|runtime| - 1]).entries|
    ensures var n := |runtime| - 1;
      var before, owners := Seeds(configured, runtime[..n]), Owners(configured, runtime);
      && |before| <= |Seeds(configured, runtime)| <= |before| + 1
      && (i < |before| ==> Seeds(configured, runtime)[i] == before[i])
      && (i == |before| && i < |Seeds(configured, runtime)| ==>
            Seeds(configured, runtime)[i] == runtime[n] && owners[n] == i
            && Mine(runtime[..n], owners[..n], i) == [])
  {
    hide OwnerOf, IndexesValid, MergeAll;
    var n := |runtime| - 1;
    OwnersOneMore(configured, runtime);
    MergeIsValid(configured, runtime[..n]);
    FoldedIsValid(MergeAll(configured, runtime[..n]), runtime[n]);
    if i == |Seeds(configured, runtime[..n])| {
      MineBeyond(configured, runtime[..n], i);
    }
  }

  // ----- what folding keeps -----

  /** The first value that is not blank, and blank when there is none. */
  ghost predicate FirstSet<T>(vals: seq<T>, blank: T, v: T) {
    if forall k :: 0 <= k < |vals| ==> vals[k] == blank then v == blank
    else exists k :: 0 <= k < |vals| && vals[k] == v != blank && forall j :: 0 <= j < k ==> vals[j] == blank
  }

  /** The last value that is not blank, and blank when there is none. */
  ghost predicate LastSet<T>(vals: seq<T>, blank: T, v: T) {
    if forall k :: 0 <= k < |vals| ==> vals[k] == blank then v == blank
    else exists k :: 0 <= k < |vals| && vals[k] == v != blank && forall j :: k < j < |vals| ==> vals[j] == blank
  }

  lemma FirstOneMore<T>(vals: seq<T>, blank: T, v: T, x: T)
    requires FirstSet(vals, blank, v)
    ensures FirstSet(vals + [x], blank, if v == blank then x else v)
  {
    var more := vals + [x];
    assert forall k :: 0 <= k < |vals| ==> more[k] == vals[k];
    assert more[|vals|] == x;
    if v != blank {
      var k :| 0 <= k < |vals| && vals[k] == v && forall j :: 0 <= j < k ==> vals[j] == blank;
      assert more[k] == v;
    }
  }

  lemma LastOneMore<T>(vals: seq<T>, blank: T, v: T, x: T)
    requires LastSet(vals, blank, v)
    ensures LastSet(vals + [x], blank, if x == blank then v else x)
  {
    var more := vals + [x];
    assert forall k :: 0 <= k < |vals| ==> more[k] == vals[k];
    assert more[|vals|] == x;
    if x == blank && v != blank {
      var k :| 0 <= k < |vals| && vals[k] == v && forall j :: k < j < |vals| ==> vals[j] == blank;
      assert more[k] == v;
    }
  }

  ghost function Column<T>(all: seq<Server>, f: Server -> T): (r: seq<T>) {
    seq(|all|, i requires 0 <= i < |all| => f(all[i]))
  }

  lemma ColumnOneMore<T>(all: seq<Server>, x: Server, f: Server -> T)
    ensures Column(all + [x], f) == Column(all, f) + [f(x)]
  {
  }

  /** What identifies and sizes a server is as the first of them says, its status as the last one does. */
  ghost predicate FoldFits(all: seq<Server>, m: Server) {
    && FirstSet(Column(all, (s: Server) => s.id), "", m.id)
    && FirstSet(Column(all, (s: Server) => s.name), "", m.name)
    && FirstSet(Column(all, (s: Server) => s.host), "", m.host)
    && FirstSet(Column(all, (s: Server) => s.port), 0, m.port)
    && FirstSet(Column(all, (s: Server) => s.group), "", m.group)
    && FirstSet(Column(all, (s: Server) => s.weight), 0, m.weight)
    && FirstSet(Column(all, (s: Server) => s.maxSessions), 0, m.maxSessions)
    && FirstSet(Column(all, (s: Server) => s.tags), None, m.tags)
    && LastSet(Column(all, (s: Server) => s.status), "", m.status)
    && LastSet(Column(all, (s: Server) => s.checkedAt), None, m.checkedAt)
  }

  lemma FoldFitsOneMore(all: seq<Server>, m: Server, r: Server)
    requires FoldFits(all, m)
    ensures FoldFits(all + [r], MergeState(m, r))
  {
    hide FirstSet, LastSet, Column;
    ColumnOneMore(all, r, (s: Server) => s.id);
    FirstOneMore(Column(all, (s: Server) => s.id), "", m.id, r.id);
    ColumnOneMore(all, r, (s: Server) => s.name);
    FirstOneMore(Column(all, (s: Server) => s.name), "", m.name, r.name);
    ColumnOneMore(all, r, (s: Server) => s.host);
    FirstOneMore(Column(all, (s: Server) => s.host), "", m.host, r.host);
    ColumnOneMore(all, r, (s: Server) => s.port);
    FirstOneMore(Column(all, (s: Server) => s.port), 0, m.port, r.port);
    ColumnOneMore(all, r, (s: Server) => s.group);
    FirstOneMore(Column(all, (s: Server) => s.group), "", m.group, r.group);
    ColumnOneMore(all, r, (s: Server) => s.weight);
    FirstOneMore(Column(all, (s: Server) => s.weight), 0, m.weight, r.weight);
    ColumnOneMore(all, r, (s: Server) => s.maxSessions);
    FirstOneMore(Column(all, (s: Server) => s.maxSessions), 0, m.maxSessions, r.maxSessions);
    ColumnOneMore(all, r, (s: Server) => s.tags);
    FirstOneMore(Column(all, (s: Server) => s.tags), None, m.tags, r.tags);
    ColumnOneMore(all, r, (s: Server) => s.status);
    LastOneMore(Column(all, (s: Server) => s.status), "", m.status, r.status);
    ColumnOneMore(all, r, (s: Server) => s.checkedAt);
    LastOneMore(Column(all, (s: Server) => s.checkedAt), None, m.checkedAt, r.checkedAt);
  }

  lemma SetAlone<T>(x: Server, f: Server -> T, blank: T)
    ensures FirstSet(Column([x], f), blank, f(x)) && LastSet(Column([x], f), blank, f(x))
  {
    assert Column([x], f)[0] == f(x);
  }

  lemma FoldFitsAlone(x: Server)
    ensures FoldFits([x], x)
  {
    hide FirstSet, LastSet, Column;
    SetAlone(x, (s: Server) => s.id, "");
    SetAlone(x, (s: Server) => s.name, "");
    SetAlone(x, (s: Server) => s.host, "");
    SetAlone(x, (s: Server) => s.port, 0);
    SetAlone(x, (s: Server) => s.group, "");
    SetAlone(x, (s: Server) => s.weight, 0);
    SetAlone(x, (s: Server) => s.maxSessions, 0);
    SetAlone(x, (s: Server) => s.tags, None);
    SetAlone(x, (s: Server) => s.status, "");
    SetAlone(x, (s: Server) => s.checkedAt, None);
  }

  /** The sessions of the last report that has any, else those of the start. */
  ghost predicate SessionsFit(x: Server, rs: seq<Server>, sessions: int) {
    if forall k :: 0 <= k < |rs| ==> rs[k].sessions <= 0 then sessions == x.sessions
    else exists k :: 0 <= k < |rs| && rs[k].sessions == sessions > 0 && forall j :: k < j < |rs| ==> rs[j].sessions <= 0
  }

  /**
   Folding, field by field: the first value set counts for what identifies and sizes the server,
   the last one for its state; it is healthy as the last report says, and in maintenance exactly
   when the configuration or some report says so.
   */
  lemma {:induction false} FoldKeeps(x: Server, rs: seq<Server>)
    ensures FoldFits([x] + rs, FoldOnto(x, rs)) && SessionsFit(x, rs, FoldOnto(x, rs).sessions)
    ensures FoldOnto(x, rs).healthy == if rs == [] then x.healthy else rs[|rs| - 1].healthy
    ensures FoldOnto(x, rs).maintenance <==> x.maintenance || exists k :: 0 <= k < |rs| && rs[k].maintenance
  {
    hide FoldFits;
    if rs == [] {
      FoldFitsAlone(x);
      assert [x] + rs == [x];
    } else {
      var n := |rs| - 1;
      var m := FoldOnto(x, rs[..n]);
      FoldKeeps(x, rs[..n]);
      FoldFitsOneMore([x] + rs[..n], m, rs[n]);
      assert [x] + rs == [x] + rs[..n] + [rs[n]];
      SessionsOneMore(x, rs, m.sessions);
    }
  }

  lemma SessionsOneMore(x: Server, rs: seq<Server>, sessions: int)
    requires rs != [] && SessionsFit(x, rs[..|rs| - 1], sessions)
    ensures SessionsFit(x, rs, if rs[|rs| - 1].sessions > 0 then rs[|rs| - 1].sessions else sessions)
  {
    var n := |rs| - 1;
    var before := rs[..n];
    assert forall k :: 0 <= k < n ==> rs[k] == before[k];
    if rs[n].sessions <= 0 && exists k :: 0 <= k < n && before[k].sessions > 0 {
      var k :| 0 <= k < n && before[k].sessions == sessions > 0 && forall j :: k < j < n ==> before[j].sessions <= 0;
      assert rs[k].sessions == sessions;
    }
  }
}
