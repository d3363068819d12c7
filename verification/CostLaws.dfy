/**
 What the derived numbers mean on the zone graph: two hops over first wires beat one over a later wire, the
 universal cost is one step above the longest host path, a bond leg is homed on the first wire, and the
 rank gate is about hosts that reach a peer but not at the lowest cost.
 */
module CostLaws {
  import opened Wrappers
  import opened Seqs
  import opened Fabrics
  import opened Derive
  import opened Preferences
  import opened ZoneGraph
  import opened CostModel
  import PathGraph

  // ---- the cost of a hop ---------------------------------------------------------------------

  /** `a` leaves `m` on the domain segment `s`, over the wire of that rank in its order. */
  ghost predicate HopOver(f: Fabric, z: Zone, a: Arc, m: Member, s: Segment, rank: nat) {
    && m in f.members && z in f.zones && ZoneNamed(f.zones, z.name) == Some(z)
    && s in f.segments && s.zone == z.name && Carries(m, s)
    && a in GraphOf(f, z.name).arcs && a.from == m.name && a.via == s.ifname
    && rank < |Order(f, m, z)| && Order(f, m, z)[rank] == WireOn(m.wires, s.scope.domain).value.name
  }

  /** An arc on a domain segment costs its sender's row and offset. */
  lemma ArcCost(f: Fabric, zone: string, a: Arc, m: Member, s: Segment)
    requires Declared(f) && Typed(f) && m in f.members && s in f.segments && s.scope.OnDomain?
    requires a in GraphOf(f, zone).arcs && a.from == m.name && a.via == s.ifname
    ensures RowFor(f, m, s).Row? && a.cost == RowFor(f, m, s).row.cost + Offset(f, m)
  {
    hide RowFor, GraphOf, Typed, Offset, UniversalCost;
    var n, o := ArcJoins(f, zone, a);
    var t :| SegmentArc(f, zone, a, n, o, t) || FallbackArc(f, zone, a, n, o, t);
    MemberNamesApart(f, n, m);
    hide MembersOk, Carries;
    if t != s {
      SegmentNamesApart(f, t, s);
    }
  }

  lemma RankCost(f: Fabric, z: Zone, m: Member, s: Segment, rank: nat)
    requires Declared(f) && Typed(f) && m in f.members && ZoneNamed(f.zones, z.name) == Some(z) && z in f.zones
    requires s in f.segments && s.zone == z.name && Carries(m, s) && RowFor(f, m, s).Row?
    requires rank < |Order(f, m, z)| && Order(f, m, z)[rank] == WireOn(m.wires, s.scope.domain).value.name
    ensures RowFor(f, m, s).row.cost == LadderCost(rank)
  {
    hide RowFor, Order, Declared, Typed, LadderCost;
    RowNeverPanics(f, m, s);
    OrderIsComplete(f, m, z);
  }

  /** A hop costs what the ladder says of its rank, on a leaf above the leaf offset. */
  lemma HopCost(f: Fabric, z: Zone, a: Arc, m: Member, s: Segment, rank: nat)
    requires Declared(f) && Typed(f) && HopOver(f, z, a, m, s, rank)
    ensures a.cost == LadderCost(rank) + if m.kind == Leaf then f.leafOffset else 0
  {
    hide RowFor, Order, Declared, Typed, LadderCost, GraphOf;
    ArcCost(f, z.name, a, m, s);
    RankCost(f, z, m, s, rank);
  }

  /** Two hops over the first wires of hosts cost less than any one hop over a later wire. */
  lemma TwoFirstHopsBeatOne(f: Fabric, z: Zone, a: Arc, m: Member, s: Segment, b: Arc, n: Member, t: Segment,
                            c: Arc, o: Member, u: Segment, rank: nat)
    requires Declared(f) && Typed(f) && m.kind == Host && n.kind == Host && rank > 0
    requires HopOver(f, z, a, m, s, 0) && HopOver(f, z, b, n, t, 0) && HopOver(f, z, c, o, u, rank)
    ensures a.cost + b.cost < c.cost
  {
    hide HopOver, Declared, Typed, LadderCost;
    HopCost(f, z, a, m, s, 0);
    HopCost(f, z, b, n, t, 0);
    HopCost(f, z, c, o, u, rank);
    LadderLaw(rank - 1);
  }

  // ---- the universal cost --------------------------------------------------------------------

  function Total(costs: seq<nat>): nat {
    if costs == [] then 0 else costs[0] + Total(costs[1..])
  }

  /** The highest cost any member gives the segment, 0 when none carries it. */
  ghost predicate IsHighest(f: Fabric, s: Segment, cost: nat) {
    && (forall m :: m in f.members && RowFor(f, m, s).Row? ==> RowFor(f, m, s).row.cost <= cost)
    && ((exists m :: m in f.members && RowFor(f, m, s).Row? && RowFor(f, m, s).row.cost == cost)
        || (cost == 0 && forall m :: m in f.members ==> !RowFor(f, m, s).Row?))
  }

  ghost predicate IsPart(f: Fabric, zone: string, s: Segment, cost: nat) {
    if s.zone == zone && s.scope.OnDomain? then IsHighest(f, s, cost) else cost == 0
  }

  /** Each segment's part of the sum. */
  function Parts(f: Fabric, segs: seq<Segment>, zone: string): (r: seq<nat>)
    ensures |r| == |segs|
  {
    if segs == [] then []
    else [if segs[0].zone == zone && segs[0].scope.OnDomain? then HighestCost(f, f.members, segs[0].ifname) else 0]
         + Parts(f, segs[1..], zone)
  }

  lemma {:induction false} SumHighestCons(f: Fabric, s: Segment, segs: seq<Segment>)
    ensures SumHighest(f, [s] + segs) == HighestCost(f, f.members, s.ifname) + SumHighest(f, segs)
  {
    hide HighestCost;
    if segs == [] {
      assert [s] + segs == [s] && [s][..0] == [];
    } else {
      var all := [s] + segs;
      assert all[..|all| - 1] == [s] + segs[..|segs| - 1] && all[|all| - 1] == segs[|segs| - 1];
      SumHighestCons(f, s, segs[..|segs| - 1]);
    }
  }

  lemma {:induction false} PartsSum(f: Fabric, segs: seq<Segment>, zone: string)
    ensures SumHighest(f, DomainSegments(segs, zone)) == Total(Parts(f, segs, zone))
  {
    hide HighestCost;
    if segs != [] {
      var rest := DomainSegments(segs[1..], zone);
      PartsSum(f, segs[1..], zone);
      assert Parts(f, segs, zone)[1..] == Parts(f, segs[1..], zone);
      if segs[0].zone == zone && segs[0].scope.OnDomain? {
        SumHighestCons(f, segs[0], rest);
      } else {
        NoneLeft(rest);
      }
    }
  }

  lemma {:induction false} PartAt(f: Fabric, segs: seq<Segment>, zone: string, i: nat)
    requires i < |segs|
    ensures var s := segs[i];
            Parts(f, segs, zone)[i] ==
            if s.zone == zone && s.scope.OnDomain? then HighestCost(f, f.members, s.ifname) else 0
  {
    hide HighestCost;
    if i > 0 {
      PartAt(f, segs[1..], zone, i - 1);
    }
  }

  /** The highest cost is given by somebody, or nobody has the segment. */
  lemma {:induction false} HighestIsGiven(f: Fabric, ms: seq<Member>, ifname: string)
    ensures (exists m :: m in ms && RowNamed(ClassRows(f, m), ifname).Some?
               && RowNamed(ClassRows(f, m), ifname).value.cost == HighestCost(f, ms, ifname))
            || (HighestCost(f, ms, ifname) == 0 && forall m :: m in ms ==> RowNamed(ClassRows(f, m), ifname).None?)
  {
    hide RowNamed, ClassRows;
    if ms != [] {
      HighestIsGiven(f, ms[1..], ifname);
      assert forall m :: m in ms <==> m == ms[0] || m in ms[1..];
      if m :| m in ms[1..] && RowNamed(ClassRows(f, m), ifname).Some?
              && RowNamed(ClassRows(f, m), ifname).value.cost == HighestCost(f, ms[1..], ifname) {
        assert m in ms && ms[0] in ms;
      } else {
        assert ms[0] in ms;
      }
    }
  }

  /** A member has a row of that name exactly when it has one on that segment. */
  lemma NamedIsOn(f: Fabric, m: Member, s: Segment)
    requires Declared(f) && Typed(f) && m in f.members && s in f.segments
    ensures RowFor(f, m, s).Row? <==> RowNamed(ClassRows(f, m), s.ifname).Some?
    ensures RowFor(f, m, s).Row? ==> RowNamed(ClassRows(f, m), s.ifname) == Some(RowFor(f, m, s).row)
  {
    hide RowFor, RowNamed, Typed;
    if RowFor(f, m, s).Row? {
      RowIsNamed(f, m, s);
    } else if RowNamed(ClassRows(f, m), s.ifname).Some? {
      var y := RowNamed(ClassRows(f, m), s.ifname).value;
      RowsHave(f, m, f.segments, y);
      var t :| t in f.segments && RowFor(f, m, t) == Row(y);
      RowNeverPanics(f, m, t);
      SegmentNamesApart(f, s, t);
    }
  }

  lemma HighestCostIsHighest(f: Fabric, s: Segment)
    requires Declared(f) && Typed(f) && s in f.segments
    ensures IsHighest(f, s, HighestCost(f, f.members, s.ifname))
  {
    HighestIsGiven(f, f.members, s.ifname);
    hide RowFor, RowNamed, ClassRows, HighestCost;
    forall m | m in f.members
      ensures RowFor(f, m, s).Row? <==> RowNamed(ClassRows(f, m), s.ifname).Some?
      ensures RowFor(f, m, s).Row? ==> RowNamed(ClassRows(f, m), s.ifname) == Some(RowFor(f, m, s).row)
      ensures RowFor(f, m, s).Row? ==> RowFor(f, m, s).row.cost <= HighestCost(f, f.members, s.ifname)
    {
      NamedIsOn(f, m, s);
      if RowFor(f, m, s).Row? {
        AtMostHighest(f, m, s);
      }
    }
    hide Declared, Typed;
  }

  /**
   The universal cost is one ladder step above the sum, over the zone's domain segments, of the highest
   cost any member gives each.
   */
  lemma UniversalIsOneStepAbove(f: Fabric, zone: string) returns (costs: seq<nat>)
    requires Declared(f) && Typed(f)
    ensures |costs| == |f.segments|
    ensures forall i :: 0 <= i < |costs| ==> IsPart(f, zone, f.segments[i], costs[i])
    ensures UniversalCost(f, zone) == Total(costs) + LADDER_STEP
  {
    costs := Parts(f, f.segments, zone);
    PartsSum(f, f.segments, zone);
    hide HighestCost, IsHighest, Declared, Typed;
    forall i | 0 <= i < |costs|
      ensures IsPart(f, zone, f.segments[i], costs[i])
    {
      PartAt(f, f.segments, zone, i);
      if f.segments[i].zone == zone && f.segments[i].scope.OnDomain? {
        HighestCostIsHighest(f, f.segments[i]);
      }
    }
  }

  // ---- the home of a bond leg ----------------------------------------------------------------

  lemma {:induction false} NoRows(f: Fabric, m: Member, z: Zone)
    requires Declared(f) && Typed(f) && m in f.members && z in f.zones && ZoneNamed(f.zones, z.name) == Some(z)
    requires Order(f, m, z) == []
    ensures InZone(ClassRows(f, m), z.name) == []
  {
    hide Order, RowFor, Declared, Typed;
    var rows := InZone(ClassRows(f, m), z.name);
    if rows != [] {
      assert rows[0] in rows;
      RowsHave(f, m, f.segments, rows[0]);
      var s :| s in f.segments && RowFor(f, m, s) == Row(rows[0]);
      RowNeverPanics(f, m, s);
    }
  }

  /** A member's row on a universal segment is homed on the first wire of its order, or of all its wires. */
  lemma UniversalIsHomedFirst(f: Fabric, m: Member, z: Zone, s: Segment)
    requires Declared(f) && Typed(f) && m in f.members && z in f.zones && ZoneNamed(f.zones, z.name) == Some(z)
    requires s in f.segments && s.zone == z.name && s.scope == Universal
    ensures m.wires != []
    ensures FallbackRowFor(f, m, s) == Some(FallbackRow(
                s.ifname, s.zone, s.seg, s.vid, UniversalCost(f, s.zone),
                if Order(f, m, z) != [] then Order(f, m, z)[0] else m.wires[0].name))
  {
    assert MemberOk(f, m);
    hide Order, RowFor, Cheapest, InZone, ClassRows, UniversalCost, Declared, Typed;
    if Order(f, m, z) != [] {
      HomeIsFirst(f, m, z);
    } else {
      NoRows(f, m, z);
    }
  }

  // ---- the rank gate -------------------------------------------------------------------------

  ghost predicate HasDomainArc(f: Fabric, zone: string, m: Member) {
    exists a, o, s :: a in GraphOf(f, zone).arcs && o in f.members && SegmentArc(f, zone, a, m, o, s)
  }

  ghost predicate HasCheapestArc(f: Fabric, zone: string, m: Member) {
    exists a :: a in GraphOf(f, zone).arcs && a.from == m.name && a.cost == 10
  }

  /** The wire and the segment behind a name of the order. */
  lemma NameHasSegment(f: Fabric, m: Member, z: Zone, n: string) returns (w: Wire, s: Segment)
    requires Declared(f) && Typed(f) && m in f.members && z in f.zones && n in Order(f, m, z)
    ensures w in m.wires && w.name == n && WireNamed(m.wires, n) == Some(w)
    ensures s in f.segments && s.zone == z.name && s.scope == OnDomain(w.domain)
    ensures WireOn(m.wires, w.domain) == Some(w)
  {
    assert MemberOk(f, m);
    hide Order;
    OrderIsComplete(f, m, z);
    NamesHas(Candidates(f, m.wires, z.name), n);
    w :| w in Candidates(f, m.wires, z.name) && w.name == n;
    s :| s in f.segments && s.zone == z.name && s.scope == OnDomain(w.domain);
    WireOnIs(m, w);
    WireNamedIs(m, w);
  }

  /** A wire that reaches a peer gives a domain arc. */
  lemma ReachesIsArc(f: Fabric, z: Zone, m: Member, n: string)
    requires Declared(f) && Typed(f) && m in f.members && z in f.zones && n in Order(f, m, z)
    requires ReachesPeer(f, m, n)
    ensures HasDomainArc(f, z.name, m)
  {
    hide GraphOf, RowFor, Order;
    var w, s := NameHasSegment(f, m, z, n);
    RowNeverPanics(f, m, s);
    var o :| o in f.members && o.name != m.name && WireOn(o.wires, w.domain).Some?;
    var a := PathGraph.Arc(m.name, o.name, RowFor(f, m, s).row.cost + Offset(f, m), s.ifname);
    assert SegmentArc(f, z.name, a, m, o, s);
    JoinedIsArc(f, z.name, a, m, o);
  }

  /** A domain arc is over a wire that reaches a peer. */
  lemma ArcIsReach(f: Fabric, z: Zone, m: Member, a: Arc, o: Member, s: Segment) returns (rank: nat)
    requires Declared(f) && Typed(f) && m in f.members && z in f.zones && ZoneNamed(f.zones, z.name) == Some(z)
    requires o in f.members && o.name != m.name && SegmentArc(f, z.name, a, m, o, s)
    ensures rank < |Order(f, m, z)| && ReachesPeer(f, m, Order(f, m, z)[rank])
    ensures a.cost == LadderCost(rank) + Offset(f, m)
  {
    hide Order, RowFor, LadderCost;
    RowNeverPanics(f, m, s);
    var w := WireOn(m.wires, s.scope.domain).value;
    WireNamedIs(m, w);
    rank :| 0 <= rank < |Order(f, m, z)| && Order(f, m, z)[rank] == w.name
            && RowFor(f, m, s).row.cost == LadderCost(rank);
    assert Shared(f, m, w.domain);
  }

  lemma DomainArcEnds(f: Fabric, zone: string, a: Arc, m: Member, o: Member, s: Segment)
    requires Declared(f) && Typed(f) && a in GraphOf(f, zone).arcs && SegmentArc(f, zone, a, m, o, s)
    ensures m.name != o.name
  {
    hide GraphOf, RowFor;
    var n, p := ArcJoins(f, zone, a);
  }

  /** A host's arc of cost 10 is over its first wire. */
  lemma CheapestIsFirst(f: Fabric, z: Zone, m: Member)
    requires Declared(f) && Typed(f) && m in f.members && z in f.zones && ZoneNamed(f.zones, z.name) == Some(z)
    requires m.kind == Host && HasCheapestArc(f, z.name, m)
    ensures Order(f, m, z) != [] && ReachesPeer(f, m, Order(f, m, z)[0])
  {
    hide GraphOf, RowFor, Order, ReachesPeer, UniversalCost;
    var a :| a in GraphOf(f, z.name).arcs && a.from == m.name && a.cost == 10;
    var n, o := ArcJoins(f, z.name, a);
    MemberNamesApart(f, n, m);
    var s :| SegmentArc(f, z.name, a, m, o, s) || FallbackArc(f, z.name, a, m, o, s);
    UniversalCostPositive(f, z.name);
    var rank := ArcIsReach(f, z, m, a, o, s);
  }

  /** The rank gate accepts a host exactly when it reaches no peer over a domain, or one at cost 10. */
  lemma HostRankExactly(f: Fabric, z: Zone, m: Member)
    requires Declared(f) && Typed(f) && m in f.members && z in f.zones && ZoneNamed(f.zones, z.name) == Some(z)
    requires m.kind == Host
    ensures RankZeroOk(f, m, Order(f, m, z)) <==> (HasDomainArc(f, z.name, m) ==> HasCheapestArc(f, z.name, m))
  {
    hide GraphOf, RowFor, Order, ReachesPeer, SegmentArc, Declared, Typed, LadderCost;
    var order := Order(f, m, z);
    if RankZeroOk(f, m, order) && HasDomainArc(f, z.name, m) {
      var a, o, s :| a in GraphOf(f, z.name).arcs && o in f.members && SegmentArc(f, z.name, a, m, o, s);
      DomainArcEnds(f, z.name, a, m, o, s);
      var rank := ArcIsReach(f, z, m, a, o, s);
      var c := CheapestWhenShared(f, z, m, order[rank]);
    }
    if !RankZeroOk(f, m, order) {
      var n :| n in order[1..] && ReachesPeer(f, m, n);
      ReachesIsArc(f, z, m, n);
      if HasCheapestArc(f, z.name, m) {
        CheapestIsFirst(f, z, m);
      }
    }
  }

  /** The rank gate of a zone accepts exactly when every host that reaches a peer over a domain does so at cost 10. */
  lemma RanksOkExactly(f: Fabric, z: Zone)
    requires Declared(f) && Typed(f) && z in f.zones && ZoneNamed(f.zones, z.name) == Some(z)
    ensures RanksOk(f, z.name) <==>
              forall m :: m in f.members && m.kind == Host && HasDomainArc(f, z.name, m) ==>
                HasCheapestArc(f, z.name, m)
  {
    hide Order, HasDomainArc, HasCheapestArc, Declared, Typed;
    forall m | m in f.members
      ensures RankZeroOk(f, m, Order(f, m, z)) <==>
                (m.kind == Host && HasDomainArc(f, z.name, m) ==> HasCheapestArc(f, z.name, m))
    {
      if m.kind == Host {
        HostRankExactly(f, z, m);
      }
    }
  }
}
