/**
 Counting cluster nodes by region and zone, and deciding whether this node may be drained.
 */
module Topology {
  import opened Text

  /** A node as the cluster lists it; `region` and `zone` are its metadata, blank when missing. */
  datatype Node = Node(id: string, online: bool, region: string, zone: string)

  function RegionOf(n: Node): (r: string) {
    Trim(n.region)
  }

  function ZoneOf(n: Node): (r: string) {
    if Trim(n.zone) == "" then "" else if RegionOf(n) == "" then Trim(n.zone) else RegionOf(n) + "/" + Trim(n.zone)
  }

  // ----- one kind of place -----

  /** What the loop keeps per region, and again per zone. */
  datatype Tally = Tally(
    counts: map<string, nat>, healthyCounts: map<string, nat>,
    places: set<string>, healthyPlaces: set<string>,
    othersHere: nat, othersElsewhere: nat)

  const NO_TALLY := Tally(map[], map[], {}, {}, 0, 0)

  /** A node's place, whether it is healthy, and whether it has this node's id. */
  datatype Sighting = Sighting(place: string, healthy: bool, own: bool)

  function Bumped(m: map<string, nat>, key: string): (r: map<string, nat>) {
    m[key := if key in m then m[key] + 1 else 1]
  }

  function Tallied(t: Tally, x: Sighting, here: string): (r: Tally) {
    var placed :=
      if x.place == "" then t
      else if x.healthy then
        t.(counts := Bumped(t.counts, x.place), healthyCounts := Bumped(t.healthyCounts, x.place),
           places := t.places + {x.place}, healthyPlaces := t.healthyPlaces + {x.place})
      else t.(counts := Bumped(t.counts, x.place), places := t.places + {x.place});
    if !x.healthy || x.own || here == "" || x.place == "" then placed
    else if x.place == here then placed.(othersHere := t.othersHere + 1)
    else placed.(othersElsewhere := t.othersElsewhere + 1)
  }

  ghost function At(xs: seq<Sighting>, place: string): (r: set<int>) {
    set i | 0 <= i < |xs| && xs[i].place == place
  }

  ghost function HealthyAt(xs: seq<Sighting>, place: string): (r: set<int>) {
    set i | 0 <= i < |xs| && xs[i].place == place && xs[i].healthy
  }

  ghost function OthersAt(xs: seq<Sighting>, place: string): (r: set<int>) {
    set i | 0 <= i < |xs| && xs[i].place == place && xs[i].healthy && !xs[i].own
  }

  ghost function OthersNotAt(xs: seq<Sighting>, place: string): (r: set<int>) {
    set i | 0 <= i < |xs| && xs[i].place != place && xs[i].place != "" && xs[i].healthy && !xs[i].own
  }

  ghost predicate CountsFit(m: map<string, nat>, place: string, seen: set<int>) {
    if place == "" || seen == {} then place !in m else place in m && m[place] == |seen|
  }

  /** Every number of the tally is the size of the set of nodes that it counts. */
  ghost predicate TallyFits(t: Tally, xs: seq<Sighting>, here: string) {
    && (forall place :: CountsFit(t.counts, place, At(xs, place)))
    && (forall place :: CountsFit(t.healthyCounts, place, HealthyAt(xs, place)))
    && t.places == t.counts.Keys && t.healthyPlaces == t.healthyCounts.Keys
    && (here != "" ==> t.othersHere == |OthersAt(xs, here)| && t.othersElsewhere == |OthersNotAt(xs, here)|)
  }

  lemma BumpFits(m: map<string, nat>, key: string, place: string, before: set<int>, k: int)
    requires CountsFit(m, place, before) && k !in before && key != ""
    ensures CountsFit(Bumped(m, key), place, if key == place then before + {k} else before)
  {
  }

  lemma AtOneMore(xs: seq<Sighting>, x: Sighting, place: string)
    ensures At(xs + [x], place) == if x.place == place then At(xs, place) + {|xs|} else At(xs, place)
    ensures HealthyAt(xs + [x], place) == if x.place == place && x.healthy then HealthyAt(xs, place) + {|xs|} else HealthyAt(xs, place)
    ensures |xs| !in At(xs, place) && |xs| !in HealthyAt(xs, place)
  {
  }

  lemma OthersOneMore(xs: seq<Sighting>, x: Sighting, place: string)
    ensures OthersAt(xs + [x], place)
         == if x.place == place && x.healthy && !x.own then OthersAt(xs, place) + {|xs|} else OthersAt(xs, place)
    ensures OthersNotAt(xs + [x], place)
         == if x.place != place && x.place != "" && x.healthy && !x.own then OthersNotAt(xs, place) + {|xs|} else OthersNotAt(xs, place)
    ensures |xs| !in OthersAt(xs, place) && |xs| !in OthersNotAt(xs, place)
  {
  }

  lemma NoPlace(m: map<string, nat>, a: set<int>, b: set<int>)
    ensures CountsFit(m, "", a) <==> CountsFit(m, "", b)
  {
  }

  lemma PlacesOneMore(t: Tally, xs: seq<Sighting>, x: Sighting, here: string, place: string)
    requires TallyFits(t, xs, here)
    ensures CountsFit(Tallied(t, x, here).counts, place, At(xs + [x], place))
    ensures CountsFit(Tallied(t, x, here).healthyCounts, place, HealthyAt(xs + [x], place))
  {
    hide At, HealthyAt, Bumped, CountsFit;
    assert CountsFit(t.counts, place, At(xs, place)) && CountsFit(t.healthyCounts, place, HealthyAt(xs, place));
    AtOneMore(xs, x, place);
    if x.place == "" {
      NoPlace(t.counts, At(xs, ""), At(xs + [x], ""));
      NoPlace(t.healthyCounts, HealthyAt(xs, ""), HealthyAt(xs + [x], ""));
    } else {
      BumpFits(t.counts, x.place, place, At(xs, place), |xs|);
      BumpFits(t.healthyCounts, x.place, place, HealthyAt(xs, place), |xs|);
    }
  }

  lemma TalliesOneMore(t: Tally, xs: seq<Sighting>, x: Sighting, here: string)
    requires TallyFits(t, xs, here)
    ensures TallyFits(Tallied(t, x, here), xs + [x], here)
  {
    hide At, HealthyAt, OthersAt, OthersNotAt, CountsFit;
    OthersOneMore(xs, x, here);
    forall place
      ensures CountsFit(Tallied(t, x, here).counts, place, At(xs + [x], place))
      ensures CountsFit(Tallied(t, x, here).healthyCounts, place, HealthyAt(xs + [x], place))
    {
      PlacesOneMore(t, xs, x, here, place);
    }
  }

  lemma NothingTallied(here: string)
    ensures TallyFits(NO_TALLY, [], here)
  {
    forall place
      ensures At([], place) == {} && HealthyAt([], place) == {}
    {
    }
    assert OthersAt([], here) == {} && OthersNotAt([], here) == {};
  }

  // ----- the topology -----

  ghost function Regions(self: Node, nodes: seq<Node>): (r: seq<Sighting>) {
    if nodes == [] then [] else
      var n := |nodes| - 1;
      Regions(self, nodes[..n]) + [Sighting(RegionOf(nodes[n]), nodes[n].online, nodes[n].id == self.id)]
  }

  ghost function Zones(self: Node, nodes: seq<Node>): (r: seq<Sighting>) {
    if nodes == [] then [] else
      var n := |nodes| - 1;
      Zones(self, nodes[..n]) + [Sighting(ZoneOf(nodes[n]), nodes[n].online, nodes[n].id == self.id)]
  }

  lemma {:induction false} SightingAt(self: Node, nodes: seq<Node>, i: nat)
    requires i < |nodes|
    ensures |Regions(self, nodes)| == |Zones(self, nodes)| == |nodes|
    ensures Regions(self, nodes)[i] == Sighting(RegionOf(nodes[i]), nodes[i].online, nodes[i].id == self.id)
    ensures Zones(self, nodes)[i] == Sighting(ZoneOf(nodes[i]), nodes[i].online, nodes[i].id == self.id)
  {
    hide RegionOf, ZoneOf;
    var n := |nodes| - 1;
    if n > 0 {
      SightingAt(self, nodes[..n], if i < n then i else 0);
    }
  }

  lemma SightingsOneMore(self: Node, nodes: seq<Node>, node: Node)
    ensures Regions(self, nodes + [node]) == Regions(self, nodes) + [Sighting(RegionOf(node), node.online, node.id == self.id)]
    ensures Zones(self, nodes + [node]) == Zones(self, nodes) + [Sighting(ZoneOf(node), node.online, node.id == self.id)]
  {
    hide RegionOf, ZoneOf;
    assert (nodes + [node])[..|nodes|] == nodes;
  }

  /** The nodes of a list whose entries may be missing. */
  function Present(listed: seq<Option<Node>>): (r: seq<Node>) {
    if listed == [] then [] else
      var n := |listed| - 1;
      Present(listed[..n]) + if listed[n].Some? then [listed[n].value] else []
  }

  function Entries(nodes: seq<Node>): (r: seq<Option<Node>>) {
    if nodes == [] then [] else Entries(nodes[..|nodes| - 1]) + [Some(nodes[|nodes| - 1])]
  }

  lemma {:induction false} AllPresent(nodes: seq<Node>)
    ensures Present(Entries(nodes)) == nodes
  {
    if nodes != [] {
      var n := |nodes| - 1;
      AllPresent(nodes[..n]);
      assert Entries(nodes)[..|Entries(nodes)| - 1] == Entries(nodes[..n]);
      assert nodes == nodes[..n] + [nodes[n]];
    }
  }

  /** The counts, the names in order, and whether this node is the last healthy one of its place. */
  datatype Topology = Topology(
    regions: Tally, zones: Tally,
    regionNames: seq<string>, healthyRegionNames: seq<string>, zoneNames: seq<string>, healthyZoneNames: seq<string>,
    lastInRegion: bool, lastInZone: bool)

  predicate IsLast(t: Tally, here: string) {
    here != "" && |t.healthyPlaces| > 1 && here in t.healthyCounts && t.healthyCounts[here] == 1
  }

  /** Exactly the members of the set, in increasing order. */
  ghost predicate IsSortedList(names: seq<string>, places: set<string>) {
    && (forall x :: x in names <==> x in places)
    && (forall i, j :: 0 <= i < j < |names| ==> Less(names[i], names[j]))
  }

  lemma SortedKeysAre(places: set<string>)
    ensures IsSortedList(SortedKeys(places), places) && |SortedKeys(places)| == |places|
  {
    hide Less;
  }

  method BuildClusterTopology(self: Node, listed: seq<Option<Node>>) returns (t: Topology)
    ensures TallyFits(t.regions, Regions(self, Present(listed)), RegionOf(self))
    ensures TallyFits(t.zones, Zones(self, Present(listed)), ZoneOf(self))
    ensures IsSortedList(t.regionNames, t.regions.places) && IsSortedList(t.healthyRegionNames, t.regions.healthyPlaces)
    ensures IsSortedList(t.zoneNames, t.zones.places) && IsSortedList(t.healthyZoneNames, t.zones.healthyPlaces)
    ensures t.lastInRegion == IsLast(t.regions, RegionOf(self)) && t.lastInZone == IsLast(t.zones, ZoneOf(self))
  {
    hide TallyFits, Tallied, RegionOf, ZoneOf, Regions, Zones, IsSortedList, SortedKeys;
    var selfRegion, selfZone := RegionOf(self), ZoneOf(self);
    var regions, zones := NO_TALLY, NO_TALLY;
    NothingTallied(selfRegion);
    NothingTallied(selfZone);
    NoSightings(self);
    assert listed[..0] == [];
    for i := 0 to |listed|
      invariant TallyFits(regions, Regions(self, Present(listed[..i])), selfRegion)
      invariant TallyFits(zones, Zones(self, Present(listed[..i])), selfZone)
    {
      assert listed[..i + 1][..i] == listed[..i];
      if listed[i].None? {
        assert Present(listed[..i]) + [] == Present(listed[..i]);
        continue;
      }
      var node := listed[i].value;
      ghost var seen := Present(listed[..i]);
      var own := node.id == self.id;
      SightingsOneMore(self, seen, node);
      TalliesOneMore(regions, Regions(self, seen), Sighting(RegionOf(node), node.online, own), selfRegion);
      TalliesOneMore(zones, Zones(self, seen), Sighting(ZoneOf(node), node.online, own), selfZone);
      regions := Tallied(regions, Sighting(RegionOf(node), node.online, own), selfRegion);
      zones := Tallied(zones, Sighting(ZoneOf(node), node.online, own), selfZone);
    }
    assert listed[..|listed|] == listed;
    SortedKeysAre(regions.places);
    SortedKeysAre(regions.healthyPlaces);
    SortedKeysAre(zones.places);
    SortedKeysAre(zones.healthyPlaces);
    t := Topology(
      regions, zones,
      SortedKeys(regions.places), SortedKeys(regions.healthyPlaces), SortedKeys(zones.places), SortedKeys(zones.healthyPlaces),
      IsLast(regions, selfRegion), IsLast(zones, selfZone));
  }

  lemma NoSightings(self: Node)
    ensures Regions(self, []) == [] && Zones(self, []) == []
  {
  }

  // ----- draining -----

  ghost predicate HealthyIn(xs: seq<Sighting>, place: string) {
    place != "" && exists i :: 0 <= i < |xs| && xs[i].place == place && xs[i].healthy
  }

  ghost predicate CoveredWithoutSelf(xs: seq<Sighting>, place: string) {
    exists i :: 0 <= i < |xs| && xs[i].place == place && xs[i].healthy && !xs[i].own
  }

  ghost predicate TwoHealthyPlaces(xs: seq<Sighting>) {
    exists p, q :: p != q && HealthyIn(xs, p) && HealthyIn(xs, q)
  }

  /** When two places are healthy, every healthy place keeps a healthy node without this one. */
  ghost predicate EveryPlaceCovered(xs: seq<Sighting>) {
    TwoHealthyPlaces(xs) ==> forall place :: HealthyIn(xs, place) ==> CoveredWithoutSelf(xs, place)
  }

  /** Exactly one sighting is this node's own; it is healthy and stands where the node says. */
  ghost predicate OwnAt(xs: seq<Sighting>, k: int, here: string) {
    0 <= k < |xs| && xs[k] == Sighting(here, true, true) && forall i :: 0 <= i < |xs| && xs[i].own ==> i == k
  }

  lemma HealthyPlacesAre(t: Tally, xs: seq<Sighting>, here: string, place: string)
    requires TallyFits(t, xs, here)
    ensures place in t.healthyPlaces <==> HealthyIn(xs, place)
  {
    assert CountsFit(t.healthyCounts, place, HealthyAt(xs, place));
    if HealthyIn(xs, place) {
      var i :| 0 <= i < |xs| && xs[i].place == place && xs[i].healthy;
      assert i in HealthyAt(xs, place);
    } else if place != "" {
      assert HealthyAt(xs, place) == {};
    }
  }

  lemma TwoMembers(s: set<string>)
    ensures |s| > 1 <==> exists p, q :: p != q && p in s && q in s
  {
    if |s| > 1 {
      var p :| p in s;
      assert |s - {p}| > 0;
      var q :| q in s - {p};
    } else if p, q :| p != q && p in s && q in s {
      assert {p, q} <= s;
      SubsetIsSmaller({p, q}, s);
      assert false;
    }
  }

  lemma {:induction false} SubsetIsSmaller<T>(a: set<T>, b: set<T>)
    requires a <= b
    ensures |a| <= |b| && (|a| == |b| ==> a == b)
  {
    if x :| x in a {
      SubsetIsSmaller(a - {x}, b - {x});
    }
  }

  lemma TwoHealthyIff(t: Tally, xs: seq<Sighting>, here: string)
    requires TallyFits(t, xs, here)
    ensures |t.healthyPlaces| > 1 <==> TwoHealthyPlaces(xs)
  {
    hide TallyFits, HealthyIn;
    TwoMembers(t.healthyPlaces);
    forall place
      ensures place in t.healthyPlaces <==> HealthyIn(xs, place)
    {
      HealthyPlacesAre(t, xs, here, place);
    }
  }

  /** The count at this node's place is one exactly when nobody else covers it. */
  lemma AloneIff(t: Tally, xs: seq<Sighting>, here: string, k: int)
    requires TallyFits(t, xs, here) && OwnAt(xs, k, here) && here != ""
    ensures here in t.healthyCounts && (t.healthyCounts[here] == 1 <==> !CoveredWithoutSelf(xs, here))
  {
    var seen := HealthyAt(xs, here);
    assert k in seen && CountsFit(t.healthyCounts, here, seen);
    SubsetIsSmaller({k}, seen);
    if CoveredWithoutSelf(xs, here) {
      var i :| 0 <= i < |xs| && xs[i].place == here && xs[i].healthy && !xs[i].own;
      assert i in seen && i !in {k};
    } else {
      assert seen == {k};
    }
  }

  lemma ElsewhereCovered(xs: seq<Sighting>, here: string, k: int, place: string)
    requires OwnAt(xs, k, here) && place != here && HealthyIn(xs, place)
    ensures CoveredWithoutSelf(xs, place)
  {
    var i :| 0 <= i < |xs| && xs[i].place == place && xs[i].healthy;
    assert !xs[i].own;
  }

  /** This node counts as the last one exactly when draining it would empty its place. */
  lemma LastIff(t: Tally, xs: seq<Sighting>, here: string, k: int)
    requires TallyFits(t, xs, here) && OwnAt(xs, k, here)
    ensures IsLast(t, here) <==> !EveryPlaceCovered(xs)
  {
    hide TallyFits, HealthyIn, CoveredWithoutSelf, TwoHealthyPlaces;
    TwoHealthyIff(t, xs, here);
    HealthyPlacesAre(t, xs, here, here);
    if here != "" {
      AloneIff(t, xs, here, k);
      OwnIsHealthy(xs, here, k);
    } else {
      NoBlankPlace(xs);
    }
    forall place | place != here && HealthyIn(xs, place)
      ensures CoveredWithoutSelf(xs, place)
    {
      ElsewhereCovered(xs, here, k, place);
    }
  }

  lemma OwnIsHealthy(xs: seq<Sighting>, here: string, k: int)
    requires OwnAt(xs, k, here) && here != ""
    ensures HealthyIn(xs, here)
  {
  }

  lemma NoBlankPlace(xs: seq<Sighting>)
    ensures !HealthyIn(xs, "")
  {
  }

  ghost predicate OtherHealthyNode(self: Node, nodes: seq<Node>) {
    exists i :: 0 <= i < |nodes| && nodes[i].id != self.id && nodes[i].online
  }

  method CountOtherHealthy(self: Node, nodes: seq<Node>) returns (n: nat)
    ensures n > 0 <==> OtherHealthyNode(self, nodes)
  {
    n := 0;
    for i := 0 to |nodes|
      invariant n > 0 <==> exists j :: 0 <= j < i && nodes[j].id != self.id && nodes[j].online
    {
      if nodes[i].id == self.id || !nodes[i].online {
        continue;
      }
      n := n + 1;
    }
  }

  /** Node ids are unique, and this node is listed as healthy at the place it says. */
  ghost predicate SelfListed(self: Node, nodes: seq<Node>) {
    exists k :: SelfListedAt(self, nodes, k)
  }

  ghost predicate SelfListedAt(self: Node, nodes: seq<Node>, k: int) {
    && (forall i, j :: 0 <= i < j < |nodes| ==> nodes[i].id != nodes[j].id)
    && 0 <= k < |nodes| && nodes[k].id == self.id && nodes[k].online
    && RegionOf(nodes[k]) == RegionOf(self) && ZoneOf(nodes[k]) == ZoneOf(self)
  }

  /** What must hold of the cluster without this node. */
  ghost predicate SafeWithout(self: Node, leader: bool, nodes: seq<Node>) {
    && (leader ==> OtherHealthyNode(self, nodes))
    && EveryPlaceCovered(Regions(self, nodes)) && EveryPlaceCovered(Zones(self, nodes))
  }

  lemma OwnSighting(self: Node, nodes: seq<Node>, k: int)
    requires SelfListedAt(self, nodes, k)
    ensures OwnAt(Regions(self, nodes), k, RegionOf(self)) && OwnAt(Zones(self, nodes), k, ZoneOf(self))
  {
    hide RegionOf, ZoneOf, Regions, Zones;
    forall i | 0 <= i < |nodes|
      ensures |Regions(self, nodes)| == |Zones(self, nodes)| == |nodes|
      ensures Regions(self, nodes)[i] == Sighting(RegionOf(nodes[i]), nodes[i].online, nodes[i].id == self.id)
      ensures Zones(self, nodes)[i] == Sighting(ZoneOf(nodes[i]), nodes[i].online, nodes[i].id == self.id)
    {
      SightingAt(self, nodes, i);
    }
  }

  lemma LastMeansUnsafe(self: Node, nodes: seq<Node>, t: Topology)
    requires SelfListed(self, nodes)
    requires TallyFits(t.regions, Regions(self, nodes), RegionOf(self)) && TallyFits(t.zones, Zones(self, nodes), ZoneOf(self))
    ensures IsLast(t.regions, RegionOf(self)) <==> !EveryPlaceCovered(Regions(self, nodes))
    ensures IsLast(t.zones, ZoneOf(self)) <==> !EveryPlaceCovered(Zones(self, nodes))
  {
    hide TallyFits, RegionOf, ZoneOf, IsLast, EveryPlaceCovered, OwnAt, SelfListedAt;
    var k :| SelfListedAt(self, nodes, k);
    OwnSighting(self, nodes, k);
    LastIff(t.regions, Regions(self, nodes), RegionOf(self), k);
    LastIff(t.zones, Zones(self, nodes), ZoneOf(self), k);
  }

  // ----- safety in terms of the nodes themselves -----

  ghost predicate SameRegion(m: Node, n: Node) {
    Trim(m.region) == Trim(n.region)
  }

  ghost predicate SameZone(m: Node, n: Node) {
    Trim(m.region) == Trim(n.region) && Trim(m.zone) == Trim(n.zone)
  }

  ghost predicate HasRegion(nodes: seq<Node>, i: int) {
    0 <= i < |nodes| && nodes[i].online && Trim(nodes[i].region) != ""
  }

  ghost predicate HasZone(nodes: seq<Node>, i: int) {
    0 <= i < |nodes| && nodes[i].online && Trim(nodes[i].zone) != ""
  }

  ghost predicate TwoRegions(nodes: seq<Node>) {
    exists i, j :: HasRegion(nodes, i) && HasRegion(nodes, j) && !SameRegion(nodes[i], nodes[j])
  }

  ghost predicate RegionKept(self: Node, nodes: seq<Node>, i: int)
    requires HasRegion(nodes, i)
  {
    exists j :: HasRegion(nodes, j) && nodes[j].id != self.id && SameRegion(nodes[i], nodes[j])
  }

  /** When two regions have healthy nodes, each of them keeps one without this node. */
  ghost predicate RegionsCovered(self: Node, nodes: seq<Node>) {
    TwoRegions(nodes) ==> forall i :: HasRegion(nodes, i) ==> RegionKept(self, nodes, i)
  }

  ghost predicate TwoZones(nodes: seq<Node>) {
    exists i, j :: HasZone(nodes, i) && HasZone(nodes, j) && !SameZone(nodes[i], nodes[j])
  }

  ghost predicate ZoneKept(self: Node, nodes: seq<Node>, i: int)
    requires HasZone(nodes, i)
  {
    exists j :: HasZone(nodes, j) && nodes[j].id != self.id && SameZone(nodes[i], nodes[j])
  }

  /** When two zones, each of its region, have healthy nodes, each of them keeps one without this node. */
  ghost predicate ZonesCovered(self: Node, nodes: seq<Node>) {
    TwoZones(nodes) ==> forall i :: HasZone(nodes, i) ==> ZoneKept(self, nodes, i)
  }

  /** Part of the region's name of m stands in the zone's name of n. */
  ghost predicate Shifted(m: Node, n: Node) {
    var r, z := Trim(n.region), Trim(n.zone);
    exists w :: Trim(m.region) == (if r == "" then w else r + "/" + w) && z == w + "/" + Trim(m.zone) && Trim(m.region) != ""
  }

  lemma ZoneTail(s: string, r: string, z: string)
    requires s == r + "/" + z
    ensures s[|r|] == '/' && r == s[..|r|] && z == s[|r| + 1..]
  {
  }

  lemma ShorterRegion(m: Node, n: Node)
    requires ZoneOf(m) == ZoneOf(n) && Trim(m.zone) != "" && Trim(n.zone) != "" && |Trim(n.region)| < |Trim(m.region)|
    ensures Shifted(m, n)
  {
    hide Trim;
    var r, z, s := Trim(n.region), Trim(n.zone), ZoneOf(m);
    var region := Trim(m.region);
    ZoneTail(s, region, Trim(m.zone));
    var w := if r == "" then region else region[|r| + 1..];
    if r != "" {
      ZoneTail(s, r, z);
      assert region == region[..|r|] + [region[|r|]] + region[|r| + 1..];
      assert region[|r|] == s[|r|] && region[..|r|] == s[..|r|];
      assert z == s[|r| + 1..] == region[|r| + 1..] + "/" + Trim(m.zone);
    }
    assert region == (if r == "" then w else r + "/" + w) && z == w + "/" + Trim(m.zone);
  }

  lemma ShiftedMeets(m: Node, n: Node)
    requires Shifted(m, n) && Trim(m.zone) != "" && Trim(n.zone) != ""
    ensures ZoneOf(m) == ZoneOf(n)
  {
    hide Trim;
    var r, z := Trim(n.region), Trim(n.zone);
    var w :| Trim(m.region) == (if r == "" then w else r + "/" + w) && z == w + "/" + Trim(m.zone);
    if r != "" {
      assert r + "/" + w + "/" + Trim(m.zone) == r + "/" + (w + "/" + Trim(m.zone));
    }
  }

  /** Two zoned nodes count for the same zone exactly when they are in the same one, or a name holds part of the other's. */
  lemma SamePlaceIff(m: Node, n: Node)
    requires Trim(m.zone) != "" && Trim(n.zone) != ""
    ensures ZoneOf(m) == ZoneOf(n) <==> SameZone(m, n) || Shifted(m, n) || Shifted(n, m)
  {
    hide Trim, Shifted;
    if Shifted(m, n) {
      ShiftedMeets(m, n);
    }
    if Shifted(n, m) {
      ShiftedMeets(n, m);
    }
    if ZoneOf(m) == ZoneOf(n) {
      var r, q := Trim(m.region), Trim(n.region);
      if |q| < |r| {
        ShorterRegion(m, n);
      } else if |r| < |q| {
        ShorterRegion(n, m);
      } else if r != "" {
        ZoneTail(ZoneOf(m), r, Trim(m.zone));
        ZoneTail(ZoneOf(n), q, Trim(n.zone));
      }
    }
  }

  /** No name of a zone holds part of a region's name. */
  ghost predicate ZonesTellApart(nodes: seq<Node>) {
    forall i, j :: HasZone(nodes, i) && HasZone(nodes, j) && Shifted(nodes[i], nodes[j]) ==> SameZone(nodes[i], nodes[j])
  }

  /** Names of zones without a slash are told apart. */
  lemma NoSlashTellsApart(nodes: seq<Node>)
    requires forall i :: 0 <= i < |nodes| ==> Without(nodes[i].zone, '/')
    ensures ZonesTellApart(nodes)
  {
    hide SameZone, Trim;
    forall i, j | HasZone(nodes, i) && HasZone(nodes, j)
      ensures !Shifted(nodes[i], nodes[j])
    {
      NoSlashNotShifted(nodes[i], nodes[j]);
    }
  }

  lemma NoSlashNotShifted(m: Node, n: Node)
    requires Without(n.zone, '/')
    ensures !Shifted(m, n)
  {
    hide Trim;
    var left, right := TrimParts(n.zone);
    var z := Trim(n.zone);
    forall i | 0 <= i < |z|
      ensures z[i] != '/'
    {
      assert n.zone[|left| + i] == z[i];
    }
    forall w
      ensures z != w + "/" + Trim(m.zone)
    {
      assert (w + "/" + Trim(m.zone))[|w|] == '/';
    }
  }

  /** A healthy sighting of some place. */
  ghost predicate Up(xs: seq<Sighting>, i: int) {
    0 <= i < |xs| && xs[i].healthy && xs[i].place != ""
  }

  ghost predicate TwoUp(xs: seq<Sighting>) {
    exists i, j :: Up(xs, i) && Up(xs, j) && xs[i].place != xs[j].place
  }

  ghost predicate KeptUp(xs: seq<Sighting>, i: int)
    requires Up(xs, i)
  {
    exists j :: Up(xs, j) && !xs[j].own && xs[j].place == xs[i].place
  }

  lemma UpIsHealthy(xs: seq<Sighting>, i: int)
    requires Up(xs, i)
    ensures HealthyIn(xs, xs[i].place) && (KeptUp(xs, i) <==> CoveredWithoutSelf(xs, xs[i].place))
  {
    if CoveredWithoutSelf(xs, xs[i].place) {
      var j :| 0 <= j < |xs| && xs[j].place == xs[i].place && xs[j].healthy && !xs[j].own;
      assert Up(xs, j);
    }
  }

  lemma HealthyIsUp(xs: seq<Sighting>, place: string) returns (i: int)
    requires HealthyIn(xs, place)
    ensures Up(xs, i) && xs[i].place == place
  {
    i :| 0 <= i < |xs| && xs[i].place == place && xs[i].healthy;
  }

  lemma TwoUpIff(xs: seq<Sighting>)
    ensures TwoUp(xs) <==> TwoHealthyPlaces(xs)
  {
    hide HealthyIn;
    if TwoUp(xs) {
      var i, j :| Up(xs, i) && Up(xs, j) && xs[i].place != xs[j].place;
      UpIsHealthy(xs, i);
      UpIsHealthy(xs, j);
    }
    if TwoHealthyPlaces(xs) {
      var p, q :| p != q && HealthyIn(xs, p) && HealthyIn(xs, q);
      var i := HealthyIsUp(xs, p);
      var j := HealthyIsUp(xs, q);
    }
  }

  /** The cover of every place, told by sightings. */
  lemma CoveredIff(xs: seq<Sighting>)
    ensures EveryPlaceCovered(xs) <==> (TwoUp(xs) ==> forall i :: Up(xs, i) ==> KeptUp(xs, i))
  {
    hide HealthyIn, CoveredWithoutSelf, TwoHealthyPlaces, TwoUp, KeptUp;
    TwoUpIff(xs);
    if forall i :: Up(xs, i) ==> KeptUp(xs, i) {
      forall place | HealthyIn(xs, place)
        ensures CoveredWithoutSelf(xs, place)
      {
        var i := HealthyIsUp(xs, place);
        UpIsHealthy(xs, i);
      }
    }
    if forall place :: HealthyIn(xs, place) ==> CoveredWithoutSelf(xs, place) {
      forall i | Up(xs, i)
        ensures KeptUp(xs, i)
      {
        UpIsHealthy(xs, i);
        assert CoveredWithoutSelf(xs, xs[i].place);
      }
    }
  }

  lemma SightingsAt(self: Node, nodes: seq<Node>)
    ensures |Regions(self, nodes)| == |Zones(self, nodes)| == |nodes|
    ensures forall i :: 0 <= i < |nodes| ==>
      Regions(self, nodes)[i] == Sighting(RegionOf(nodes[i]), nodes[i].online, nodes[i].id == self.id)
    ensures forall i :: 0 <= i < |nodes| ==>
      Zones(self, nodes)[i] == Sighting(ZoneOf(nodes[i]), nodes[i].online, nodes[i].id == self.id)
  {
    hide RegionOf, ZoneOf;
    if nodes == [] {
      NoSightings(self);
    } else {
      forall i | 0 <= i < |nodes|
        ensures |Regions(self, nodes)| == |Zones(self, nodes)| == |nodes|
        ensures Regions(self, nodes)[i] == Sighting(RegionOf(nodes[i]), nodes[i].online, nodes[i].id == self.id)
        ensures Zones(self, nodes)[i] == Sighting(ZoneOf(nodes[i]), nodes[i].online, nodes[i].id == self.id)
      {
        SightingAt(self, nodes, i);
      }
      SightingAt(self, nodes, 0);
    }
  }

  lemma RegionAt(self: Node, nodes: seq<Node>, i: int)
    ensures var xs := Regions(self, nodes);
      |xs| == |nodes| && (Up(xs, i) <==> HasRegion(nodes, i))
      && (Up(xs, i) ==> xs[i].place == Trim(nodes[i].region) && (xs[i].own <==> nodes[i].id == self.id))
  {
    hide Trim, Regions;
    SightingsAt(self, nodes);
  }

  lemma RegionsCoveredIff(self: Node, nodes: seq<Node>)
    ensures EveryPlaceCovered(Regions(self, nodes)) <==> RegionsCovered(self, nodes)
  {
    hide Trim, Regions, EveryPlaceCovered, Up, HasRegion;
    var xs := Regions(self, nodes);
    CoveredIff(xs);
    forall i
      ensures |xs| == |nodes| && (Up(xs, i) <==> HasRegion(nodes, i))
      ensures Up(xs, i) ==> 0 <= i < |nodes| && xs[i].place == Trim(nodes[i].region) && (xs[i].own <==> nodes[i].id == self.id)
    {
      RegionAt(self, nodes, i);
      UpInside(xs, i);
    }
    assert TwoUp(xs) <==> TwoRegions(nodes);
    assert forall i :: Up(xs, i) ==> (KeptUp(xs, i) <==> RegionKept(self, nodes, i));
  }

  lemma UpInside(xs: seq<Sighting>, i: int)
    ensures Up(xs, i) ==> 0 <= i < |xs|
  {
  }

  lemma ZoneAt(self: Node, nodes: seq<Node>, i: int)
    ensures var xs := Zones(self, nodes);
      |xs| == |nodes| && (Up(xs, i) <==> HasZone(nodes, i))
      && (Up(xs, i) ==> xs[i].place == ZoneOf(nodes[i]) && (xs[i].own <==> nodes[i].id == self.id))
  {
    hide Trim, Zones;
    SightingsAt(self, nodes);
  }

  lemma ZonesCoveredIff(self: Node, nodes: seq<Node>)
    requires ZonesTellApart(nodes)
    ensures EveryPlaceCovered(Zones(self, nodes)) <==> ZonesCovered(self, nodes)
  {
    hide Zones, EveryPlaceCovered, Up, HasZone, SameZone, ZoneOf, ZonesTellApart;
    var xs := Zones(self, nodes);
    CoveredIff(xs);
    forall i
      ensures |xs| == |nodes| && (Up(xs, i) <==> HasZone(nodes, i))
      ensures Up(xs, i) ==> 0 <= i < |nodes| && xs[i].place == ZoneOf(nodes[i]) && (xs[i].own <==> nodes[i].id == self.id)
    {
      ZoneAt(self, nodes, i);
      UpInside(xs, i);
    }
    forall i, j | HasZone(nodes, i) && HasZone(nodes, j)
      ensures ZoneOf(nodes[i]) == ZoneOf(nodes[j]) <==> SameZone(nodes[i], nodes[j])
    {
      ZonesMeet(nodes, i, j);
    }
    assert TwoUp(xs) <==> TwoZones(nodes);
    assert forall i :: Up(xs, i) ==> (KeptUp(xs, i) <==> ZoneKept(self, nodes, i));
  }

  lemma ZonesMeet(nodes: seq<Node>, i: int, j: int)
    requires ZonesTellApart(nodes) && HasZone(nodes, i) && HasZone(nodes, j)
    ensures ZoneOf(nodes[i]) == ZoneOf(nodes[j]) <==> SameZone(nodes[i], nodes[j])
  {
    hide Trim, Shifted;
    SamePlaceIff(nodes[i], nodes[j]);
  }

  /** What must hold of the nodes without this one. */
  ghost predicate NodesSafeWithout(self: Node, leader: bool, nodes: seq<Node>) {
    (leader ==> OtherHealthyNode(self, nodes)) && RegionsCovered(self, nodes) && ZonesCovered(self, nodes)
  }

  lemma SafetyIff(self: Node, leader: bool, nodes: seq<Node>)
    requires ZonesTellApart(nodes)
    ensures SafeWithout(self, leader, nodes) <==> NodesSafeWithout(self, leader, nodes)
    ensures EveryPlaceCovered(Zones(self, nodes)) <==> ZonesCovered(self, nodes)
  {
    hide EveryPlaceCovered, RegionsCovered, ZonesCovered, ZonesTellApart;
    RegionsCoveredIff(self, nodes);
    ZonesCoveredIff(self, nodes);
  }

  /** With a slash in a name the last node of a zone may pass for one of two. */
  lemma SlashHidesAZone()
    ensures var self, twin, other := Node("1", true, "a", "b"), Node("2", true, "", "a/b"), Node("3", true, "", "c");
      SafeWithout(self, false, [self, twin, other]) && !ZonesCovered(self, [self, twin, other])
  {
    hide Trim, Regions, Zones, EveryPlaceCovered, RegionsCovered, ZonesCovered;
    var self, twin, other := Node("1", true, "a", "b"), Node("2", true, "", "a/b"), Node("3", true, "", "c");
    TrimOfTrimmed("a");
    TrimOfTrimmed("b");
    TrimOfTrimmed("a/b");
    TrimOfTrimmed("c");
    TrimOfTrimmed("");
    RegionsCoveredIff(self, [self, twin, other]);
    OneRegion(self, twin, other);
    TwinCovers(self, twin, other);
    TwinIsElsewhere(self, twin, other);
  }

  lemma OneRegion(self: Node, twin: Node, other: Node)
    requires Trim(twin.region) == "" && Trim(other.region) == ""
    ensures RegionsCovered(self, [self, twin, other])
  {
    hide Trim;
    assert !HasRegion([self, twin, other], 1) && !HasRegion([self, twin, other], 2);
  }

  lemma TwinCovers(self: Node, twin: Node, other: Node)
    requires self.online && twin.online && other.online && twin.id != self.id && other.id != self.id
    requires ZoneOf(self) == ZoneOf(twin)
    ensures EveryPlaceCovered(Zones(self, [self, twin, other]))
  {
    hide *;
    var nodes := [self, twin, other];
    var xs := Zones(self, nodes);
    ThreeSightings(self, twin, other);
    CoveredIff(xs);
    KeptByOthers(xs);
  }

  lemma ThreeSightings(self: Node, twin: Node, other: Node)
    ensures Zones(self, [self, twin, other]) == [
      Sighting(ZoneOf(self), self.online, true),
      Sighting(ZoneOf(twin), twin.online, twin.id == self.id),
      Sighting(ZoneOf(other), other.online, other.id == self.id)]
  {
    hide *;
    var nodes := [self, twin, other];
    SightingAt(self, nodes, 0);
    SightingAt(self, nodes, 1);
    SightingAt(self, nodes, 2);
  }

  lemma KeptByOthers(xs: seq<Sighting>)
    requires |xs| == 3 && xs[1].healthy && xs[2].healthy && !xs[1].own && !xs[2].own && xs[0].place == xs[1].place
    ensures forall i :: Up(xs, i) ==> KeptUp(xs, i)
  {
    forall i | Up(xs, i)
      ensures KeptUp(xs, i)
    {
      var j := if i == 2 then 2 else 1;
      assert Up(xs, j) && !xs[j].own && xs[j].place == xs[i].place;
    }
  }

  lemma TwinIsElsewhere(self: Node, twin: Node, other: Node)
    requires self.online && twin.online && Trim(self.zone) != "" && Trim(twin.zone) != ""
    requires !SameZone(self, twin) && !SameZone(self, other)
    ensures !ZonesCovered(self, [self, twin, other])
  {
    hide SameZone, Trim;
    var nodes := [self, twin, other];
    assert HasZone(nodes, 0) && HasZone(nodes, 1);
    assert !ZoneKept(self, nodes, 0);
  }

  datatype Answer = Accepted | LastLeader | LastInZone | LastInRegion

  /** A request to drain is accepted exactly when the cluster is safe without this node. */
  method AcceptDrain(self: Node, leader: bool, nodes: seq<Node>) returns (answer: Answer)
    ensures SelfListed(self, nodes) ==> (answer == Accepted <==> SafeWithout(self, leader, nodes))
    ensures SelfListed(self, nodes) && ZonesTellApart(nodes) ==> (answer == Accepted <==> NodesSafeWithout(self, leader, nodes))
    ensures answer == LastLeader <==> leader && !OtherHealthyNode(self, nodes)
    ensures SelfListed(self, nodes) && ZonesTellApart(nodes) ==>
      (answer == LastInZone <==> !(leader && !OtherHealthyNode(self, nodes)) && !ZonesCovered(self, nodes))
  {
    hide TallyFits, RegionOf, ZoneOf, IsLast, EveryPlaceCovered, OwnAt, SelfListed, OtherHealthyNode, ZonesTellApart, NodesSafeWithout,
      ZonesCovered;
    if ZonesTellApart(nodes) {
      SafetyIff(self, leader, nodes);
    }
    var topology := BuildClusterTopology(self, Entries(nodes));
    AllPresent(nodes);
    if SelfListed(self, nodes) {
      LastMeansUnsafe(self, nodes, topology);
    }
    if leader {
      var others := CountOtherHealthy(self, nodes);
      if others == 0 {
        return LastLeader;
      }
    }
    if topology.lastInZone {
      return LastInZone;
    }
    if topology.lastInRegion {
      return LastInRegion;
    }
    return Accepted;
  }

  /** Without a cluster a drained node is ready; in one it must also be safe to lose. */
  method ReadyForRestart(draining: bool, sessions: int, clustered: bool, self: Node, leader: bool, nodes: seq<Node>)
    returns (ready: bool)
    ensures ready ==> draining && sessions == 0
    ensures !clustered ==> (ready <==> draining && sessions == 0)
    ensures clustered && SelfListed(self, nodes) ==>
      (ready <==> draining && sessions == 0 && SafeWithout(self, leader, nodes))
    ensures clustered && SelfListed(self, nodes) && ZonesTellApart(nodes) ==>
      (ready <==> draining && sessions == 0 && NodesSafeWithout(self, leader, nodes))
  {
    hide TallyFits, RegionOf, ZoneOf, IsLast, EveryPlaceCovered, OwnAt, SelfListed, OtherHealthyNode, ZonesTellApart, NodesSafeWithout;
    if ZonesTellApart(nodes) {
      SafetyIff(self, leader, nodes);
    }
    var others := 0;
    var last := false;
    if clustered {
      others := CountOtherHealthy(self, nodes);
      var topology := BuildClusterTopology(self, Entries(nodes));
      AllPresent(nodes);
      if SelfListed(self, nodes) {
        LastMeansUnsafe(self, nodes, topology);
      }
      last := topology.lastInZone || topology.lastInRegion;
    }
    ready := draining && sessions == 0 && (!clustered || !leader || others > 0) && (!clustered || !last);
  }
}
