/**
 The derived-cost gate of validation, and what an accepted fabric is then known to have: one
 shortest path between any two members of a zone with a universal segment, over the universal
 leg only as a last resort, and never through a leaf.
 */
module CostModel {
  import opened Wrappers
  import opened Seqs
  import opened Fabrics
  import opened Derive
  import opened Preferences
  import opened ZoneGraph
  import PathGraph
  import BroadcastGraph
  import EqualCostGate

  // ---- the zone graph is made of broadcast segments ------------------------------------------

  function Ifnames(segs: seq<Segment>): (r: seq<string>)
    ensures |r| == |segs| && forall i :: 0 <= i < |segs| ==> r[i] == segs[i].ifname
  {
    seq(|segs|, i requires 0 <= i < |segs| => segs[i].ifname)
  }

  ghost function LayersOf(f: Fabric, zone: string, u: Segment): BroadcastGraph.Layers {
    var vias := Ifnames(DomainSegments(f.segments, zone));
    BroadcastGraph.Layers(
      vias, map n | n in vias :: HighestCost(f, f.members, n),
      u.ifname, UniversalCost(f, zone), LeafNames(f), f.leafOffset)
  }

  ghost predicate UniversalOf(f: Fabric, zone: string, u: Segment) {
    u in f.segments && u.zone == zone && u.scope == Universal
  }

  lemma {:induction false} HighSums(f: Fabric, high: map<string, nat>, segs: seq<Segment>)
    requires forall s :: s in segs ==> s.ifname in high && high[s.ifname] == HighestCost(f, f.members, s.ifname)
    ensures BroadcastGraph.SumHigh(high, Ifnames(segs)) == SumHighest(f, segs)
  {
    hide HighestCost;
    if segs != [] {
      var init := segs[..|segs| - 1];
      HighSums(f, high, init);
      assert Ifnames(segs)[..|segs| - 1] == Ifnames(init);
    }
  }

  lemma {:induction false} DomainIfnamesApart(segs: seq<Segment>, zone: string)
    requires SegIfnamesApart(segs)
    ensures SegIfnamesApart(DomainSegments(segs, zone))
  {
    if segs != [] {
      DomainIfnamesApart(segs[1..], zone);
      var rest := DomainSegments(segs[1..], zone);
      forall i | 0 <= i < |rest|
        ensures rest[i].ifname != segs[0].ifname
      {
        assert rest[i] in rest;
      }
    }
  }

  /** A member's offset is the offset of its name. */
  lemma OffsetByName(f: Fabric, m: Member)
    requires MembersOk(f) && m in f.members
    ensures m.name in LeafNames(f) <==> m.kind == Leaf
  {
    if m.name in LeafNames(f) {
      var o :| o in f.members && o.kind == Leaf && o.name == m.name;
      MemberNamesApart(f, m, o);
    }
  }

  /** No member gives a segment more than the highest cost. */
  lemma AtMostHighest(f: Fabric, m: Member, s: Segment)
    requires Declared(f) && Typed(f) && m in f.members && s in f.segments && RowFor(f, m, s).Row?
    ensures RowFor(f, m, s).row.cost <= HighestCost(f, f.members, s.ifname)
  {
    RowIsNamed(f, m, s);
    HighestIsHigh(f, f.members, s.ifname, m);
  }

  lemma RowIsNamed(f: Fabric, m: Member, s: Segment)
    requires Declared(f) && Typed(f) && m in f.members && s in f.segments && RowFor(f, m, s).Row?
    ensures RowNamed(ClassRows(f, m), s.ifname) == Some(RowFor(f, m, s).row)
  {
    hide RowFor, RowNamed, Typed;
    var x := RowFor(f, m, s).row;
    RowNeverPanics(f, m, s);
    RowsHave(f, m, f.segments, x);
    var y := RowNamed(ClassRows(f, m), s.ifname).value;
    RowsHave(f, m, f.segments, y);
    var t :| t in f.segments && RowFor(f, m, t) == Row(y);
    RowNeverPanics(f, m, t);
    if t != s {
      SegmentNamesApart(f, s, t);
    }
  }

  lemma {:induction false} HighestIsHigh(f: Fabric, ms: seq<Member>, ifname: string, m: Member)
    requires m in ms && RowNamed(ClassRows(f, m), ifname).Some?
    ensures RowNamed(ClassRows(f, m), ifname).value.cost <= HighestCost(f, ms, ifname)
  {
    hide RowNamed, ClassRows;
    if ms[0] != m {
      HighestIsHigh(f, ms[1..], ifname, m);
    }
  }

  lemma SegmentLayer(f: Fabric, zone: string, u: Segment, s: Segment)
    requires Declared(f) && UniversalOf(f, zone, u) && s in f.segments && s.zone == zone
    ensures var l := LayersOf(f, zone, u);
            && (s.ifname in l.vias <==> s.scope.OnDomain?)
            && (s.ifname in l.vias ==> s.ifname in l.high && l.high[s.ifname] == HighestCost(f, f.members, s.ifname))
            && (s.ifname == l.universal <==> s == u)
            && (s.scope == Universal ==> s == u)
  {
    hide HighestCost, UniversalCost;
    var segs := DomainSegments(f.segments, zone);
    var vias := Ifnames(segs);
    if s != u {
      SegmentNamesApart(f, s, u);
    }
    if s.ifname in vias {
      var i :| 0 <= i < |vias| && vias[i] == s.ifname;
      assert segs[i] in segs;
      if segs[i] != s {
        SegmentNamesApart(f, segs[i], s);
      }
    }
    if s.scope.OnDomain? {
      var i :| 0 <= i < |segs| && segs[i] == s;
      assert vias[i] == s.ifname;
    }
  }

  /** Each arc of the zone graph lies on a domain segment or on the universal one. */
  lemma ArcLayer(f: Fabric, zone: string, u: Segment, a: Arc) returns (m: Member, o: Member, s: Segment)
    requires Declared(f) && Typed(f) && UniversalOf(f, zone, u) && a in GraphOf(f, zone).arcs
    ensures Joins(f, zone, a, m, o) && (SegmentArc(f, zone, a, m, o, s) || FallbackArc(f, zone, a, m, o, s))
    ensures var l := LayersOf(f, zone, u);
            && (SegmentArc(f, zone, a, m, o, s) <==> a.via in l.vias)
            && (SegmentArc(f, zone, a, m, o, s) ==> BroadcastGraph.DomainArc(l, a))
            && (FallbackArc(f, zone, a, m, o, s) ==> BroadcastGraph.UniversalArc(l, a))
  {
    m, o := ArcJoins(f, zone, a);
    assert m in f.members;
    hide Typed, Declared, GraphOf, LayersOf, UniversalOf;
    s :| SegmentArc(f, zone, a, m, o, s) || FallbackArc(f, zone, a, m, o, s);
    hide SegmentArc, FallbackArc;
    if SegmentArc(f, zone, a, m, o, s) {
      SegmentArcLayer(f, zone, u, a, m, o, s);
    }
    if FallbackArc(f, zone, a, m, o, s) {
      FallbackArcLayer(f, zone, u, a, m, o, s);
    }
  }

  lemma SegmentArcLayer(f: Fabric, zone: string, u: Segment, a: Arc, m: Member, o: Member, s: Segment)
    requires Declared(f) && Typed(f) && UniversalOf(f, zone, u) && m in f.members
    requires SegmentArc(f, zone, a, m, o, s)
    ensures var l := LayersOf(f, zone, u); a.via in l.vias && BroadcastGraph.DomainArc(l, a)
  {
    assert MembersOk(f);
    SegmentLayer(f, zone, u, s);
    OffsetByName(f, m);
    AtMostHighest(f, m, s);
    RowCostPositive(f, m, s);
    assert s.scope.OnDomain?;
    hide HighestCost, UniversalCost, RowFor, Typed, Declared, MembersOk, Carries;
  }

  lemma FallbackArcLayer(f: Fabric, zone: string, u: Segment, a: Arc, m: Member, o: Member, s: Segment)
    requires Declared(f) && Typed(f) && UniversalOf(f, zone, u) && m in f.members
    requires FallbackArc(f, zone, a, m, o, s)
    ensures var l := LayersOf(f, zone, u); a.via !in l.vias && BroadcastGraph.UniversalArc(l, a)
  {
    assert MembersOk(f);
    SegmentLayer(f, zone, u, s);
    OffsetByName(f, m);
    hide HighestCost, UniversalCost, Typed, Declared, MembersOk;
  }

  lemma RowCostPositive(f: Fabric, m: Member, s: Segment)
    requires RowFor(f, m, s).Row?
    ensures RowFor(f, m, s).row.cost >= 10
  {
  }

  lemma NameIsNode(f: Fabric, m: Member)
    requires m in f.members
    ensures m.name in MemberNames(f)
  {
    var i :| 0 <= i < |f.members| && f.members[i] == m;
    assert MemberNames(f)[i] == m.name;
  }

  lemma NodeIsName(f: Fabric, n: string) returns (m: Member)
    requires n in MemberNames(f)
    ensures m in f.members && m.name == n
  {
    var i :| 0 <= i < |f.members| && MemberNames(f)[i] == n;
    m := f.members[i];
  }

  /** Costs are positive and arcs join members. */
  lemma ArcIsWellFormed(f: Fabric, zone: string, a: Arc)
    requires Declared(f) && Typed(f) && a in GraphOf(f, zone).arcs
    ensures a.cost > 0 && a.from in MemberNames(f) && a.to in MemberNames(f)
  {
    hide Declared, Typed, UniversalCost, RowFor, GraphOf, MemberNames;
    var m, o := ArcJoins(f, zone, a);
    NameIsNode(f, m);
    NameIsNode(f, o);
    var s :| SegmentArc(f, zone, a, m, o, s) || FallbackArc(f, zone, a, m, o, s);
    if SegmentArc(f, zone, a, m, o, s) {
      RowCostPositive(f, m, s);
    } else {
      UniversalCostPositive(f, zone);
    }
  }

  lemma ZoneIsWellFormed(f: Fabric, zone: string)
    requires Declared(f) && Typed(f)
    ensures PathGraph.WellFormed(GraphOf(f, zone))
  {
    hide Declared, Typed, ArcLists;
    forall a | a in GraphOf(f, zone).arcs
      ensures a.cost > 0 && a.from in MemberNames(f) && a.to in MemberNames(f)
    {
      ArcIsWellFormed(f, zone, a);
    }
  }

  lemma UniversalCostPositive(f: Fabric, zone: string)
    ensures UniversalCost(f, zone) >= LADDER_STEP
  {
  }

  /** Where one carrier sends and another receives, the segment joins the two directly. */
  lemma ZoneIsBroadcast(f: Fabric, zone: string, u: Segment, a: Arc, b: Arc)
    requires Declared(f) && Typed(f) && UniversalOf(f, zone, u)
    requires a in GraphOf(f, zone).arcs && b in GraphOf(f, zone).arcs
    requires a.via == b.via && a.via in LayersOf(f, zone, u).vias && a.from != b.to
    ensures PathGraph.Arc(a.from, b.to, a.cost, a.via) in GraphOf(f, zone).arcs
  {
    hide HighestCost, UniversalCost, RowFor, Typed, GraphOf, LayersOf, Offset;
    var m, o, s := ArcLayer(f, zone, u, a);
    var n, p, t := ArcLayer(f, zone, u, b);
    if s != t {
      SegmentNamesApart(f, s, t);
    }
    var c := PathGraph.Arc(a.from, b.to, a.cost, a.via);
    assert SegmentArc(f, zone, c, m, p, s);
    JoinedIsArc(f, zone, c, m, p);
  }

  lemma ZoneHasHop(f: Fabric, zone: string, u: Segment, s: string, t: string)
    requires Declared(f) && Typed(f) && UniversalOf(f, zone, u)
    requires s in MemberNames(f) && t in MemberNames(f) && s != t
    ensures BroadcastGraph.UniversalHop(LayersOf(f, zone, u), s, t) in GraphOf(f, zone).arcs
  {
    hide UniversalCost, Typed, GraphOf;
    var m := NodeIsName(f, s);
    var o := NodeIsName(f, t);
    OffsetByName(f, m);
    var a := BroadcastGraph.UniversalHop(LayersOf(f, zone, u), s, t);
    assert FallbackArc(f, zone, a, m, o, u);
    JoinedIsArc(f, zone, a, m, o);
  }

  /** The zone graph meets every condition of the two graph theorems. */
  lemma ZoneIsLayered(f: Fabric, zone: string, u: Segment)
    requires Declared(f) && Typed(f) && UniversalOf(f, zone, u)
    ensures BroadcastGraph.Layered(GraphOf(f, zone), LayersOf(f, zone, u))
  {
    hide Typed, Declared, LayersOf, ArcLists;
    var g, l := GraphOf(f, zone), LayersOf(f, zone, u);
    ZoneIsWellFormed(f, zone);
    ArcsDistinct(f, zone);
    ViasApart(f, zone, u);
    EveryArcHasLayer(f, zone, u);
    ZoneIsOneDomain(f, zone, u);
    ZoneHasHops(f, zone, u);
  }

  lemma EveryArcHasLayer(f: Fabric, zone: string, u: Segment)
    requires Declared(f) && Typed(f) && UniversalOf(f, zone, u)
    ensures var l := LayersOf(f, zone, u);
            forall a :: a in GraphOf(f, zone).arcs ==>
              BroadcastGraph.DomainArc(l, a) || BroadcastGraph.UniversalArc(l, a)
  {
    hide Typed, Declared, LayersOf, GraphOf;
    var l := LayersOf(f, zone, u);
    forall a | a in GraphOf(f, zone).arcs
      ensures BroadcastGraph.DomainArc(l, a) || BroadcastGraph.UniversalArc(l, a)
    {
      var m, o, s := ArcLayer(f, zone, u, a);
    }
  }

  lemma ZoneHasHops(f: Fabric, zone: string, u: Segment)
    requires Declared(f) && Typed(f) && UniversalOf(f, zone, u)
    ensures forall s, t :: s in MemberNames(f) && t in MemberNames(f) && s != t ==>
              BroadcastGraph.UniversalHop(LayersOf(f, zone, u), s, t) in GraphOf(f, zone).arcs
  {
    hide Typed, Declared, LayersOf, GraphOf, MemberNames;
    forall s, t | s in MemberNames(f) && t in MemberNames(f) && s != t
      ensures BroadcastGraph.UniversalHop(LayersOf(f, zone, u), s, t) in GraphOf(f, zone).arcs
    {
      ZoneHasHop(f, zone, u, s, t);
    }
  }

  lemma ZoneIsOneDomain(f: Fabric, zone: string, u: Segment)
    requires Declared(f) && Typed(f) && UniversalOf(f, zone, u)
    ensures BroadcastGraph.OneBroadcastDomain(GraphOf(f, zone), LayersOf(f, zone, u))
  {
    hide Typed, Declared, GraphOf, LayersOf;
    var g, l := GraphOf(f, zone), LayersOf(f, zone, u);
    forall i, j | 0 <= i < |g.arcs| && 0 <= j < |g.arcs| && g.arcs[i].via == g.arcs[j].via
                  && g.arcs[i].via in l.vias && g.arcs[i].from != g.arcs[j].to
      ensures PathGraph.Arc(g.arcs[i].from, g.arcs[j].to, g.arcs[i].cost, g.arcs[i].via) in g.arcs
    {
      ZoneIsBroadcast(f, zone, u, g.arcs[i], g.arcs[j]);
    }
  }

  lemma ViasApart(f: Fabric, zone: string, u: Segment)
    requires Declared(f) && UniversalOf(f, zone, u)
    ensures var l := LayersOf(f, zone, u);
            Distinct(l.vias) && l.universal !in l.vias
            && BroadcastGraph.SumHigh(l.high, l.vias) < l.universalCost
  {
    hide HighestCost;
    var segs := DomainSegments(f.segments, zone);
    var l := LayersOf(f, zone, u);
    SegmentLayer(f, zone, u, u);
    assert SegIfnamesApart(f.segments);
    DomainIfnamesApart(f.segments, zone);
    forall s | s in segs
      ensures s.ifname in l.high
    {
      SegmentLayer(f, zone, u, s);
    }
    HighSums(f, l.high, segs);
  }

  // ---- the universal leg is the last resort --------------------------------------------------

  /** Whether two members are joined over the zone's domain segments, through hosts. */
  ghost predicate JoinedOverDomains(f: Fabric, zone: string, s: string, t: string) {
    exists p :: PathGraph.Walk(GraphOf(f, zone), s, p, t) && OnDomainSegments(f, zone, p)
  }

  ghost predicate OnDomainSegments(f: Fabric, zone: string, p: seq<nat>) {
    forall i :: 0 <= i < |p| && p[i] < |GraphOf(f, zone).arcs| ==>
      GraphOf(f, zone).arcs[p[i]].via in Ifnames(DomainSegments(f.segments, zone))
  }

  /**
   Two members joined by any path over domain segments through hosts: no shortest path between
   them uses the universal segment.
   */
  lemma UniversalLegIsLastResort(f: Fabric, zone: string, u: Segment, s: string, q: seq<nat>, t: string)
    requires Declared(f) && Typed(f) && UniversalOf(f, zone, u)
    requires JoinedOverDomains(f, zone, s, t) && PathGraph.Shortest(GraphOf(f, zone), s, q, t)
    ensures OnDomainSegments(f, zone, q)
  {
    hide Declared, Typed;
    var g, l := GraphOf(f, zone), LayersOf(f, zone, u);
    ZoneIsLayered(f, zone, u);
    var p :| PathGraph.Walk(g, s, p, t) && OnDomainSegments(f, zone, p);
    assert BroadcastGraph.DomainOnly(g, l, p);
    BroadcastGraph.UniversalIsLastResort(g, l, s, q, t);
  }

  /** Otherwise the one shortest path is the direct hop over the universal segment. */
  lemma UniversalLegIsDirect(f: Fabric, zone: string, u: Segment, s: string, t: string) returns (k: nat)
    requires Declared(f) && Typed(f) && UniversalOf(f, zone, u) && !JoinedOverDomains(f, zone, s, t)
    requires s in MemberNames(f) && t in MemberNames(f) && s != t
    ensures k < |GraphOf(f, zone).arcs|
    ensures var a := GraphOf(f, zone).arcs[k]; a.from == s && a.to == t && a.via == u.ifname
    ensures forall q :: PathGraph.Shortest(GraphOf(f, zone), s, q, t) <==> q == [k]
  {
    hide Declared, Typed;
    var g, l := GraphOf(f, zone), LayersOf(f, zone, u);
    ZoneIsLayered(f, zone, u);
    k := BroadcastGraph.UniversalIsDirect(g, l, s, t);
  }

  /**
   With the universal cost below the leaf offset, a graph in which leaves do forward has the same
   shortest paths, and none of them passes through a leaf.
   */
  lemma LeafIsNeverTransited(f: Fabric, zone: string, u: Segment, s: string, q: seq<nat>, t: string)
    requires Declared(f) && Typed(f) && UniversalOf(f, zone, u) && UniversalCost(f, zone) < f.leafOffset
    requires s in MemberNames(f) && t in MemberNames(f) && s != t
    ensures PathGraph.Shortest(GraphOf(f, zone).(leaves := {}), s, q, t)
            <==> PathGraph.Shortest(GraphOf(f, zone), s, q, t)
    ensures PathGraph.Shortest(GraphOf(f, zone).(leaves := {}), s, q, t) ==>
              BroadcastGraph.AvoidsLeaves(GraphOf(f, zone), LeafNames(f), q)
  {
    hide Declared, Typed, UniversalCost;
    ZoneIsLayered(f, zone, u);
    BroadcastGraph.LeafTransitNeverPays(GraphOf(f, zone), LayersOf(f, zone, u), s, q, t);
  }

  ghost predicate CrossesOnce(arcs: seq<PathGraph.Arc>, q: seq<nat>) {
    && (forall i :: 0 <= i < |q| ==> q[i] < |arcs|)
    && (forall i, j :: 0 <= i < j < |q| ==> arcs[q[i]].via != arcs[q[j]].via)
  }

  /** A shortest path of a zone crosses each domain segment at most once, and the universal one only alone. */
  lemma ShortestPathsCrossOnce(f: Fabric, zone: string, u: Segment, s: string, q: seq<nat>, t: string)
    requires Declared(f) && Typed(f) && UniversalOf(f, zone, u)
    requires s in MemberNames(f) && t in MemberNames(f) && s != t
    requires PathGraph.Shortest(GraphOf(f, zone), s, q, t)
    ensures CrossesOnce(GraphOf(f, zone).arcs, q)
    ensures OnDomainSegments(f, zone, q) || |q| == 1
  {
    hide Declared, Typed;
    ZoneIsLayered(f, zone, u);
    BroadcastGraph.ShortestCrossesOnce(GraphOf(f, zone), LayersOf(f, zone, u), s, q, t);
  }

  // ---- the gate ------------------------------------------------------------------------------

  /** Some other member has a wire on the domain. */
  predicate Shared(f: Fabric, m: Member, domain: string) {
    exists o :: o in f.members && o.name != m.name && WireOn(o.wires, domain).Some?
  }

  /** The wire of that name is on a domain some other member wires into. */
  predicate ReachesPeer(f: Fabric, m: Member, wire: string) {
    match WireNamed(m.wires, wire) case None => false case Some(w) => Shared(f, m, w.domain)
  }

  /** A host does not rank an unshared domain first while it has a shared one. */
  predicate RankZeroOk(f: Fabric, m: Member, order: seq<string>) {
    m.kind == Host && order != [] && (exists n :: n in order[1..] && ReachesPeer(f, m, n))
    ==> ReachesPeer(f, m, order[0])
  }

  ghost predicate OffsetsOk(f: Fabric) {
    forall z :: z in f.zones && HasUniversal(f, z.name) ==> UniversalCost(f, z.name) < f.leafOffset
  }

  ghost predicate RanksOk(f: Fabric, zone: string) {
    match ZoneNamed(f.zones, zone)
    case None => true
    case Some(z) => forall m :: m in f.members ==> RankZeroOk(f, m, Order(f, m, z))
  }

  ghost predicate ZoneOk(f: Fabric, zone: string) {
    RanksOk(f, zone) && !EqualCostGate.AnyTie(GraphOf(f, zone))
  }

  /** What the last gate of validation demands of the derived costs. */
  ghost predicate DerivedOk(f: Fabric) {
    OffsetsOk(f) && forall z :: z in f.zones ==> ZoneOk(f, z.name)
  }

  datatype Refusal =
    | UniversalNotBelowOffset(zone: string, cost: nat)
    | UnsharedRankZero(zone: string, member: string)
    | EqualCostPaths(zone: string, src: string, dst: string, paths: nat)

  /** The last gate: universal costs, then each zone's ranks and its equal-cost paths. */
  method ValidateDerived(f: Fabric) returns (r: Option<Refusal>)
    requires Declared(f) && Typed(f)
    ensures r.None? <==> DerivedOk(f)
    ensures r.Some? && r.value.EqualCostPaths? ==>
              PathGraph.Tie(GraphOf(f, r.value.zone), r.value.src, r.value.dst)
  {
    hide Declared, Typed, OffsetsOk, ZoneOk, GraphOf;
    r := CheckOffsets(f);
    if r.Some? {
      return;
    }
    for i := 0 to |f.zones|
      invariant r.None? && forall k :: 0 <= k < i ==> ZoneOk(f, f.zones[k].name)
    {
      r := CheckZone(f, f.zones[i].name);
      if r.Some? {
        assert f.zones[i] in f.zones;
        return;
      }
    }
  }

  method CheckOffsets(f: Fabric) returns (r: Option<Refusal>)
    ensures r.None? <==> OffsetsOk(f)
    ensures r.Some? ==> r.value.UniversalNotBelowOffset?
  {
    hide UniversalCost, HasUniversal;
    for i := 0 to |f.zones|
      invariant forall k :: 0 <= k < i && HasUniversal(f, f.zones[k].name) ==>
                  UniversalCost(f, f.zones[k].name) < f.leafOffset
    {
      var z := f.zones[i].name;
      if HasUniversal(f, z) && UniversalCost(f, z) >= f.leafOffset {
        assert f.zones[i] in f.zones;
        return Some(UniversalNotBelowOffset(z, UniversalCost(f, z)));
      }
    }
    return None;
  }

  method CheckZone(f: Fabric, zone: string) returns (r: Option<Refusal>)
    requires Declared(f) && Typed(f)
    ensures r.None? <==> ZoneOk(f, zone)
    ensures r.Some? && r.value.EqualCostPaths? ==>
              r.value.zone == zone && PathGraph.Tie(GraphOf(f, zone), r.value.src, r.value.dst)
  {
    hide Declared, Typed, RanksOk, ArcLists;
    r := CheckRankZeroIsShared(f, zone);
    if r.None? {
      var edges := BuildEdges(f, zone);
      var g := PathGraph.Graph(MemberNames(f), edges, LeafNames(f));
      assert g == GraphOf(f, zone);
      ZoneIsWellFormed(f, zone);
      ZoneIsSmall(f, zone);
      var v := EqualCostGate.CheckNoEqualCostPaths(g);
      if v.EqualCost? {
        r := Some(EqualCostPaths(zone, v.src, v.dst, v.paths));
      }
    }
  }

  /** Neither lookup of a ranked wire can fail: an order names the member's own wires. */
  method RanksSharedFirst(f: Fabric, m: Member, z: Zone) returns (ok: bool)
    requires Declared(f) && Typed(f) && m in f.members && z in f.zones
    ensures ok <==> RankZeroOk(f, m, Order(f, m, z))
  {
    hide Declared, Typed, Order, Shared;
    var order := Order(f, m, z);
    if m.kind != Host || order == [] {
      return true;
    }
    OrderNamesWires(f, m, z, order[0]);
    if Shared(f, m, WireNamed(m.wires, order[0]).value.domain) {
      return true;
    }
    for i := 1 to |order|
      invariant forall k :: 1 <= k < i ==> !ReachesPeer(f, m, order[k])
    {
      OrderNamesWires(f, m, z, order[i]);
      if Shared(f, m, WireNamed(m.wires, order[i]).value.domain) {
        assert order[i] == order[1..][i - 1] && ReachesPeer(f, m, order[i]);
        assert order[i] in order[1..] && !ReachesPeer(f, m, order[0]);
        return false;
      }
    }
    return true;
  }

  method CheckRankZeroIsShared(f: Fabric, zone: string) returns (r: Option<Refusal>)
    requires Declared(f) && Typed(f)
    ensures r.None? <==> RanksOk(f, zone)
    ensures r.Some? ==> r.value.UnsharedRankZero?
  {
    hide Declared, Typed, RankZeroOk, Order;
    var found := ZoneNamed(f.zones, zone);
    if found.None? {
      return None;
    }
    var z := found.value;
    for i := 0 to |f.members|
      invariant forall k :: 0 <= k < i ==> RankZeroOk(f, f.members[k], Order(f, f.members[k], z))
    {
      var m := f.members[i];
      var ok := RanksSharedFirst(f, m, z);
      if !ok {
        return Some(UnsharedRankZero(zone, m.name));
      }
    }
    return None;
  }

  // ---- the graph has fewer arcs than a count can hold ----------------------------------------

  lemma {:induction false} Pigeonhole(s: seq<nat>, n: nat)
    requires Distinct(s) && forall i :: 0 <= i < |s| ==> s[i] < n
    ensures |s| <= n
    decreases n
  {
    if s != [] {
      assert s[0] < n;
      if n - 1 in s {
        var i :| 0 <= i < |s| && s[i] == n - 1;
        var rest := s[..i] + s[i + 1..];
        Pigeonhole(rest, n - 1);
      } else {
        Pigeonhole(s, n - 1);
      }
    }
  }

  ghost function NodeIds(ms: seq<Member>): (r: seq<nat>)
    ensures |r| == |ms| && forall i :: 0 <= i < |ms| ==> r[i] == ms[i].node
  {
    seq(|ms|, i requires 0 <= i < |ms| => ms[i].node)
  }

  /** Different numbers, each of a segment of the zone. */
  ghost predicate Numbers(segs: seq<Segment>, zone: string, ns: seq<nat>) {
    Distinct(ns) && forall n :: n in ns ==> exists s :: s in segs && s.zone == zone && s.seg == n
  }

  ghost predicate NumbersApart(segs: seq<Segment>) {
    forall i, j :: 0 <= i < j < |segs| ==> !(segs[i].zone == segs[j].zone && segs[i].seg == segs[j].seg)
  }

  lemma OneMoreNumber(segs: seq<Segment>, zone: string, ns: seq<nat>)
    requires segs != [] && NumbersApart(segs) && Numbers(segs[1..], zone, ns)
    ensures Numbers(segs, zone, ns)
    ensures segs[0].zone == zone ==> Numbers(segs, zone, [segs[0].seg] + ns)
  {
    assert forall s :: s in segs[1..] ==> s in segs;
    if segs[0].zone == zone {
      forall i | 0 <= i < |ns|
        ensures ns[i] != segs[0].seg
      {
        assert ns[i] in ns;
        var s :| s in segs[1..] && s.zone == zone && s.seg == ns[i];
        var j :| 1 <= j < |segs| && segs[j] == s;
      }
      assert segs[0] in segs;
    }
  }

  /** A member has at most one class row per numbered segment of the zone. */
  lemma {:induction false} RowSegs(f: Fabric, m: Member, segs: seq<Segment>, zone: string) returns (ns: seq<nat>)
    requires NumbersApart(segs)
    ensures |ns| == |InZone(RowsOver(f, m, segs), zone)| && Numbers(segs, zone, ns)
  {
    hide ZoneNamed, Order, NumbersApart, Numbers;
    if segs == [] {
      ns := [];
      NoNumbers(zone);
    } else {
      RestApart(segs);
      ns := RowSegs(f, m, segs[1..], zone);
      OneMoreNumber(segs, zone, ns);
      var first := match RowFor(f, m, segs[0]) case Row(r) => [r] case Skip => [] case Panics => [];
      InZoneConcat(first, RowsOver(f, m, segs[1..]), zone);
      if RowFor(f, m, segs[0]).Row? && segs[0].zone == zone {
        ns := [segs[0].seg] + ns;
      }
    }
  }

  lemma NoNumbers(zone: string)
    ensures Numbers([], zone, [])
  {
  }

  lemma RestApart(segs: seq<Segment>)
    requires segs != [] && NumbersApart(segs)
    ensures NumbersApart(segs[1..])
  {
  }

  /** Nor more than one universal row. */
  lemma {:induction false} FallbackSegs(f: Fabric, m: Member, segs: seq<Segment>, zone: string) returns (ns: seq<nat>)
    requires NumbersApart(segs)
    ensures |ns| >= |FallbackInZone(FallbackRowsOver(f, m, segs), zone)| && Numbers(segs, zone, ns)
  {
    hide FallbackRowFor, NumbersApart, Numbers;
    if segs == [] {
      ns := [];
      NoNumbers(zone);
    } else {
      RestApart(segs);
      ns := FallbackSegs(f, m, segs[1..], zone);
      OneMoreNumber(segs, zone, ns);
      FallbackRowIs(f, m, segs[0]);
      var after := FallbackRowsOver(f, m, segs[1..]);
      match FallbackRowFor(f, m, segs[0]) {
        case Some(x) =>
          assert FallbackRowsOver(f, m, segs) == [x] + after && ([x] + after)[1..] == after;
        case None =>
          assert FallbackRowsOver(f, m, segs) == [] + after == after;
      }
      if segs[0].zone == zone {
        ns := [segs[0].seg] + ns;
      }
    }
  }

  /** A byte bounds how many there are. */
  lemma FewNumbers(segs: seq<Segment>, zone: string, ns: seq<nat>)
    requires Numbers(segs, zone, ns) && forall s :: s in segs ==> s.seg < 256
    ensures |ns| <= 256
  {
    forall i | 0 <= i < |ns|
      ensures ns[i] < 256
    {
      assert ns[i] in ns;
    }
    Pigeonhole(ns, 256);
  }

  lemma {:induction false} DomainArcsCount(m: Member, o: Member, rows: seq<ClassRow>, their: set<nat>,
                                         offset: nat, k: nat)
    requires k <= |rows|
    ensures |DomainArcs(m, o, rows, their, offset, k)| <= k
  {
    if k > 0 {
      DomainArcsCount(m, o, rows, their, offset, k - 1);
    }
  }

  lemma {:induction false} UniversalArcsCount(m: Member, o: Member, rows: seq<FallbackRow>, offset: nat, k: nat)
    requires k <= |rows|
    ensures |UniversalArcs(m, o, rows, offset, k)| == k
  {
    if k > 0 {
      UniversalArcsCount(m, o, rows, offset, k - 1);
    }
  }

  lemma PairArcsCount(f: Fabric, zone: string, m: Member, o: Member)
    requires Declared(f) && Typed(f)
    ensures |PairArcs(f, zone, m, o)| <= 512
  {
    hide RowFor, FallbackRowFor, ClassRows, FallbackRows, MembersOk;
    var rows, fall := ZoneRows(f, m, zone), ZoneFallbacks(f, m, zone);
    RowsCount(f, m, zone);
    DomainArcsCount(m, o, rows, Segs(ZoneRows(f, o, zone)), Offset(f, m), |rows|);
    UniversalArcsCount(m, o, fall, Offset(f, m), |fall|);
  }

  lemma RowsCount(f: Fabric, m: Member, zone: string)
    requires Declared(f) && Typed(f)
    ensures |ZoneRows(f, m, zone)| <= 256 && |ZoneFallbacks(f, m, zone)| <= 256
  {
    hide RowFor, FallbackRowFor, MembersOk;
    assert NumbersApart(f.segments);
    hide Numbers, NumbersApart;
    var ns := RowSegs(f, m, f.segments, zone);
    FewNumbers(f.segments, zone, ns);
    var us := FallbackSegs(f, m, f.segments, zone);
    FewNumbers(f.segments, zone, us);
  }

  lemma {:induction false} FlattenCount<T>(parts: seq<seq<T>>, n: nat)
    requires forall i :: 0 <= i < |parts| ==> |parts[i]| <= n
    ensures |Flatten(parts)| <= |parts| * n
  {
    if parts != [] {
      FlattenCount(parts[..|parts| - 1], n);
      assert |parts| * n == (|parts| - 1) * n + n;
    }
  }

  /** Counts of single paths never reach the modulus, so wrapping is harmless in every zone. */
  lemma ZoneIsSmall(f: Fabric, zone: string)
    requires Declared(f) && Typed(f)
    ensures |GraphOf(f, zone).arcs| < EqualCostGate.COUNT_MOD
  {
    hide ArcLists, ArcsFrom, PairArcs, Flatten;
    var n := |f.members|;
    assert Distinct(NodeIds(f.members)) && forall i :: 0 <= i < n ==> f.members[i] in f.members;
    Pigeonhole(NodeIds(f.members), 256);
    forall i | 0 <= i < n
      ensures |ArcLists(f, zone)[i]| <= 131072
    {
      SenderCount(f, zone, f.members[i]);
    }
    FlattenCount(ArcLists(f, zone), 131072);
  }

  lemma SenderCount(f: Fabric, zone: string, m: Member)
    requires Declared(f) && Typed(f) && |f.members| <= 256
    ensures |Flatten(ArcsFrom(f, zone, m))| <= 131072
  {
    hide ArcsFrom, PairArcs, Flatten, Declared, Typed;
    forall j | 0 <= j < |f.members|
      ensures |ArcsFrom(f, zone, m)[j]| <= 512
    {
      PairArcsCount(f, zone, m, f.members[j]);
    }
    FlattenCount(ArcsFrom(f, zone, m), 512);
  }

  // ---- what an accepted fabric has -----------------------------------------------------------

  /**
   In an accepted fabric, every ordered pair of members of a zone with a universal segment has
   exactly one shortest path, and it passes no leaf even if leaves were to forward.
   */
  lemma AcceptedPathsAreUnique(f: Fabric, z: Zone, u: Segment, s: string, t: string) returns (p: seq<nat>)
    requires Declared(f) && Typed(f) && DerivedOk(f) && z in f.zones && UniversalOf(f, z.name, u)
    requires s in MemberNames(f) && t in MemberNames(f) && s != t
    ensures forall q :: PathGraph.Shortest(GraphOf(f, z.name), s, q, t) <==> q == p
    ensures forall q :: PathGraph.Shortest(GraphOf(f, z.name).(leaves := {}), s, q, t) <==> q == p
    ensures BroadcastGraph.AvoidsLeaves(GraphOf(f, z.name), LeafNames(f), p)
  {
    hide Declared, Typed, RanksOk, UniversalCost, LayersOf, ArcLists;
    var g, l := GraphOf(f, z.name), LayersOf(f, z.name, u);
    ZoneIsLayered(f, z.name, u);
    var k := BroadcastGraph.HopIndex(g, l, s, t);
    EqualCostGate.AcceptedIsUnique(g, s, t, [k]);
    p :| PathGraph.Shortest(g, s, p, t) && forall q :: PathGraph.Shortest(g, s, q, t) ==> q == p;
    assert UniversalCost(f, z.name) < f.leafOffset;
    forall q
      ensures PathGraph.Shortest(g.(leaves := {}), s, q, t) <==> PathGraph.Shortest(g, s, q, t)
    {
      LeafIsNeverTransited(f, z.name, u, s, q, t);
    }
    LeafIsNeverTransited(f, z.name, u, s, p, t);
  }

  lemma CheapestWhenShared(f: Fabric, z: Zone, m: Member, n: string) returns (a: Arc)
    requires Declared(f) && Typed(f) && z in f.zones && ZoneNamed(f.zones, z.name) == Some(z)
    requires RankZeroOk(f, m, Order(f, m, z))
    requires m in f.members && m.kind == Host && n in Order(f, m, z) && ReachesPeer(f, m, n)
    ensures a in GraphOf(f, z.name).arcs && a.from == m.name && a.cost == 10
  {
    hide GraphOf, RowFor, Order;
    var s := FirstSegment(f, m, z);
    RowNeverPanics(f, m, s);
    var w := WireOn(m.wires, s.scope.domain).value;
    WireNamedIs(m, w);
    assert Shared(f, m, w.domain) by {
      var order := Order(f, m, z);
      if n != order[0] {
        var i :| 0 <= i < |order| && order[i] == n;
        assert order[1..][i - 1] == n;
      }
    }
    var o :| o in f.members && o.name != m.name && WireOn(o.wires, w.domain).Some?;
    a := PathGraph.Arc(m.name, o.name, 10, s.ifname);
    assert SegmentArc(f, z.name, a, m, o, s);
    JoinedIsArc(f, z.name, a, m, o);
  }

  /** In an accepted fabric a host with any wire that reaches a peer in the zone has one at the lowest cost of all. */
  lemma CheapestReachesPeer(f: Fabric, z: Zone, m: Member, n: string) returns (a: Arc)
    requires Declared(f) && Typed(f) && DerivedOk(f) && z in f.zones && ZoneNamed(f.zones, z.name) == Some(z)
    requires m in f.members && m.kind == Host && n in Order(f, m, z) && ReachesPeer(f, m, n)
    ensures a in GraphOf(f, z.name).arcs && a.from == m.name && a.cost == 10
  {
    hide GraphOf, Order, Declared, Typed, RankZeroOk, OffsetsOk, ReachesPeer;
    assert ZoneOk(f, z.name) && RankZeroOk(f, m, Order(f, m, z));
    a := CheapestWhenShared(f, z, m, n);
  }

  lemma WireNamedIs(m: Member, w: Wire)
    requires WireNamesDistinct(m) && w in m.wires
    ensures WireNamed(m.wires, w.name) == Some(w)
  {
    var v := WireNamed(m.wires, w.name).value;
    var i :| 0 <= i < |m.wires| && m.wires[i] == w;
    var j :| 0 <= j < |m.wires| && m.wires[j] == v;
    assert i == j;
  }
}
