/**
 The preference order is a permutation of the candidate wires, so no derivation panics; its
 ladder gives pairwise different costs, and the home wire is the first wire of the order.
 */
module Preferences {
  import opened Wrappers
  import opened Seqs
  import opened Fabrics
  import opened Derive

  // ---- speed order ---------------------------------------------------------------------------

  ghost predicate Sorted(xs: seq<Ranked>) {
    forall i, j :: 0 <= i < j < |xs| ==> Less(xs[i], xs[j])
  }

  ghost predicate PositionsApart(xs: seq<Ranked>) {
    forall i, j :: 0 <= i < j < |xs| ==> xs[i].pos != xs[j].pos
  }

  lemma {:induction false} InsertKeeps(x: Ranked, sorted: seq<Ranked>)
    requires Sorted(sorted) && forall i :: 0 <= i < |sorted| ==> sorted[i].pos != x.pos
    ensures Sorted(Insert(x, sorted))
  {
    if sorted != [] && !Less(x, sorted[0]) {
      var rest := Insert(x, sorted[1..]);
      InsertKeeps(x, sorted[1..]);
      forall j | 0 <= j < |rest|
        ensures Less(sorted[0], rest[j])
      {
        assert rest[j] in multiset(rest);
        assert rest[j] == x || rest[j] in sorted[1..];
      }
    }
  }

  lemma {:induction false} SortedBySpeed(xs: seq<Ranked>)
    requires PositionsApart(xs)
    ensures Sorted(SortBySpeed(xs))
  {
    if xs != [] {
      var rest := SortBySpeed(xs[1..]);
      SortedBySpeed(xs[1..]);
      forall i | 0 <= i < |rest|
        ensures rest[i].pos != xs[0].pos
      {
        assert rest[i] in multiset(rest);
        assert rest[i] in xs[1..];
      }
      InsertKeeps(xs[0], rest);
    }
  }

  ghost predicate RankedFrom(ws: seq<Wire>, domain: string, k: nat, x: Ranked) {
    k <= x.pos < k + |ws| && ws[x.pos - k] == x.wire && x.wire.domain != domain
  }

  /** The ranked wires are the wires off the domain, each at its own position. */
  lemma {:induction false} RankedOffHolds(ws: seq<Wire>, domain: string, k: nat)
    ensures PositionsApart(RankedOff(ws, domain, k))
    ensures forall x :: x in RankedOff(ws, domain, k) ==> RankedFrom(ws, domain, k, x)
  {
    if ws != [] {
      var rest := RankedOff(ws[1..], domain, k + 1);
      RankedOffHolds(ws[1..], domain, k + 1);
      forall x | x in rest
        ensures RankedFrom(ws, domain, k, x) && x.pos > k
      {
        assert RankedFrom(ws[1..], domain, k + 1, x);
      }
      assert forall i :: 0 <= i < |rest| ==> rest[i] in rest;
    }
  }

  // ---- the order is a permutation of the candidates ------------------------------------------

  ghost predicate WiresApart(ws: seq<Wire>) {
    forall i, j :: 0 <= i < j < |ws| ==> ws[i].name != ws[j].name && ws[i].domain != ws[j].domain
  }

  lemma {:induction false} CandidatesApart(f: Fabric, ws: seq<Wire>, zone: string)
    requires WiresApart(ws)
    ensures WiresApart(Candidates(f, ws, zone))
  {
    if ws != [] {
      CandidatesApart(f, ws[1..], zone);
      var rest := Candidates(f, ws[1..], zone);
      assert forall i :: 0 <= i < |rest| ==> rest[i] in rest;
    }
  }

  lemma {:induction false} RankedOffHas(ws: seq<Wire>, domain: string, k: nat)
    ensures forall i :: 0 <= i < |ws| && ws[i].domain != domain ==> Ranked(k + i, ws[i]) in RankedOff(ws, domain, k)
  {
    if ws != [] {
      RankedOffHas(ws[1..], domain, k + 1);
      forall i | 0 <= i < |ws| && ws[i].domain != domain
        ensures Ranked(k + i, ws[i]) in RankedOff(ws, domain, k)
      {
        if i > 0 {
          assert ws[1..][i - 1] == ws[i];
        }
      }
    }
  }

  /** What the sorted tail of the derived order holds: every wire off the primary domain, once. */
  ghost predicate TailOf(cs: seq<Wire>, primary: string, tail: seq<Ranked>) {
    && Sorted(tail)
    && (forall i :: 0 <= i < |tail| ==>
          tail[i].pos < |cs| && cs[tail[i].pos] == tail[i].wire && tail[i].wire.domain != primary)
    && (forall i :: 0 <= i < |cs| && cs[i].domain != primary ==> Ranked(i, cs[i]) in tail)
  }

  lemma SortedTail(cs: seq<Wire>, primary: string)
    ensures TailOf(cs, primary, SortBySpeed(RankedOff(cs, primary, 0)))
  {
    var off := RankedOff(cs, primary, 0);
    var sorted := SortBySpeed(off);
    RankedOffHolds(cs, primary, 0);
    RankedOffHas(cs, primary, 0);
    SortedBySpeed(off);
    PermutedIsTail(cs, primary, off, sorted);
  }

  lemma PermutedIsTail(cs: seq<Wire>, primary: string, off: seq<Ranked>, sorted: seq<Ranked>)
    requires forall x :: x in off ==> RankedFrom(cs, primary, 0, x)
    requires forall i :: 0 <= i < |cs| && cs[i].domain != primary ==> Ranked(i, cs[i]) in off
    requires Sorted(sorted) && multiset(sorted) == multiset(off)
    ensures TailOf(cs, primary, sorted)
  {
    assert forall x :: x in sorted <==> x in multiset(sorted);
    assert forall x :: x in off <==> x in multiset(off);
    assert forall i :: 0 <= i < |sorted| ==> sorted[i] in off && RankedFrom(cs, primary, 0, sorted[i]);
  }

  lemma PrimaryIsUnique(cs: seq<Wire>, primary: string, w: Wire)
    requires WiresApart(cs) && w in cs && w.domain == primary
    ensures WireOn(cs, primary) == Some(w)
  {
    var v := WireOn(cs, primary).value;
    var i :| 0 <= i < |cs| && cs[i] == w;
    var j :| 0 <= j < |cs| && cs[j] == v;
    assert i == j;
  }

  /** A head on the primary domain and a tail of the others list every candidate ... */
  lemma ListsAll(cs: seq<Wire>, primary: string, tail: seq<Ranked>, ws: seq<Wire>, w: Wire)
    requires WiresApart(cs) && TailOf(cs, primary, tail)
    requires ws == Head(cs, primary) + WiresOf(tail)
    ensures w in ws <==> w in cs
  {
    if w in cs {
      if w.domain == primary {
        PrimaryIsUnique(cs, primary, w);
      } else {
        var i :| 0 <= i < |cs| && cs[i] == w;
        var j :| 0 <= j < |tail| && tail[j] == Ranked(i, w);
        assert WiresOf(tail)[j] == w;
      }
    }
  }

  /** ... and no name twice. */
  lemma ListsOnce(cs: seq<Wire>, primary: string, tail: seq<Ranked>, ws: seq<Wire>)
    requires WiresApart(cs) && TailOf(cs, primary, tail)
    requires ws == Head(cs, primary) + WiresOf(tail)
    ensures Distinct(Names(ws))
  {
    var k := |Head(cs, primary)|;
    forall i, j | 0 <= i < j < |ws|
      ensures Names(ws)[i] != Names(ws)[j]
    {
      assert ws[j] == WiresOf(tail)[j - k] == tail[j - k].wire;
      if i < k {
        var p :| 0 <= p < |cs| && cs[p] == ws[i];
        WiresDiffer(cs, p, tail[j - k].pos);
      } else {
        assert ws[i] == WiresOf(tail)[i - k] == tail[i - k].wire;
        assert Less(tail[i - k], tail[j - k]);
        WiresDiffer(cs, tail[i - k].pos, tail[j - k].pos);
      }
    }
  }

  lemma WiresDiffer(ws: seq<Wire>, i: nat, j: nat)
    requires WiresApart(ws) && i < |ws| && j < |ws| && i != j
    ensures ws[i].name != ws[j].name && ws[i].domain != ws[j].domain
  {
  }

  lemma DerivedOnce(cs: seq<Wire>, primary: string)
    requires WiresApart(cs)
    ensures Distinct(Names(DerivedWires(cs, primary)))
    ensures forall w :: w in DerivedWires(cs, primary) <==> w in cs
  {
    var tail := SortBySpeed(RankedOff(cs, primary, 0));
    SortedTail(cs, primary);
    ListsOnce(cs, primary, tail, DerivedWires(cs, primary));
    forall w
      ensures w in DerivedWires(cs, primary) <==> w in cs
    {
      ListsAll(cs, primary, tail, DerivedWires(cs, primary), w);
    }
  }

  lemma NamesHas(ws: seq<Wire>, n: string)
    ensures n in Names(ws) <==> exists w :: w in ws && w.name == n
  {
    var r := Names(ws);
    if n in r {
      var i :| 0 <= i < |r| && r[i] == n;
      assert ws[i] in ws;
    }
    if w :| w in ws && w.name == n {
      var i :| 0 <= i < |ws| && ws[i] == w;
      assert r[i] == n;
    }
  }

  lemma DerivedNames(cs: seq<Wire>, primary: string, n: string)
    requires WiresApart(cs)
    ensures n in Names(DerivedWires(cs, primary)) <==> n in Names(cs)
  {
    NamesHas(cs, n);
    NamesHas(DerivedWires(cs, primary), n);
    DerivedOnce(cs, primary);
  }

  /**
   Declared or derived, the order of a member and zone names every candidate wire of the member
   exactly once and no other wire.
   */
  lemma OrderIsComplete(f: Fabric, m: Member, z: Zone)
    requires Declared(f) && Typed(f) && m in f.members && z in f.zones
    ensures Distinct(Order(f, m, z))
    ensures forall n :: n in Order(f, m, z) <==> n in Names(Candidates(f, m.wires, z.name))
  {
    var ws := Candidates(f, m.wires, z.name);
    match PrefFor(f.prefs, m.name, z.name) {
      case Some(p) =>
        assert PrefOk(f, p);
      case None =>
        assert WiresApart(m.wires);
        CandidatesApart(f, m.wires, z.name);
        DerivedOnce(ws, z.primary);
        forall n
          ensures n in Names(DerivedWires(ws, z.primary)) <==> n in Names(ws)
        {
          DerivedNames(ws, z.primary, n);
        }
    }
  }

  /** An order names wires the member has, so looking one of them up never fails. */
  lemma OrderNamesWires(f: Fabric, m: Member, z: Zone, n: string)
    requires Declared(f) && Typed(f) && m in f.members && z in f.zones
    requires n in Order(f, m, z)
    ensures WireNamed(m.wires, n).Some?
  {
    OrderIsComplete(f, m, z);
    NamesHas(Candidates(f, m.wires, z.name), n);
  }

  /** A faster wire, or an equally fast one declared earlier. */
  ghost predicate Before(ws: seq<Wire>, a: Wire, b: Wire) {
    a.speed > b.speed || (a.speed == b.speed && exists i, j :: 0 <= i < j < |ws| && ws[i] == a && ws[j] == b)
  }

  lemma DerivedWiresOrder(cs: seq<Wire>, primary: string)
    requires WiresApart(cs)
    ensures forall w :: w in cs && w.domain == primary ==>
              DerivedWires(cs, primary) != [] && DerivedWires(cs, primary)[0] == w
    ensures var ws := DerivedWires(cs, primary);
            forall i, j :: 0 <= i < j < |ws| && ws[i].domain != primary ==> Before(cs, ws[i], ws[j])
  {
    SortedTail(cs, primary);
    TailBefore(cs, primary, SortBySpeed(RankedOff(cs, primary, 0)), DerivedWires(cs, primary));
  }

  lemma TailBefore(cs: seq<Wire>, primary: string, tail: seq<Ranked>, ws: seq<Wire>)
    requires WiresApart(cs) && TailOf(cs, primary, tail)
    requires ws == Head(cs, primary) + WiresOf(tail)
    ensures forall w :: w in cs && w.domain == primary ==> ws != [] && ws[0] == w
    ensures forall i, j :: 0 <= i < j < |ws| && ws[i].domain != primary ==> Before(cs, ws[i], ws[j])
  {
    var k := |Head(cs, primary)|;
    forall w | w in cs && w.domain == primary
      ensures ws != [] && ws[0] == w
    {
      PrimaryIsUnique(cs, primary, w);
    }
    forall i, j | 0 <= i < j < |ws| && ws[i].domain != primary
      ensures Before(cs, ws[i], ws[j])
    {
      assert Less(tail[i - k], tail[j - k]);
    }
  }

  /** A prefs row for that member and zone. */
  predicate IsFor(p: WirePref, m: Member, z: Zone) {
    p.member == m.name && p.zone == z.name
  }

  lemma {:induction false} PrefForFirst(ps: seq<WirePref>, m: Member, z: Zone, k: nat)
    requires k <= |ps| && (k < |ps| ==> IsFor(ps[k], m, z))
    requires forall j :: 0 <= j < k ==> !IsFor(ps[j], m, z)
    ensures PrefFor(ps, m.name, z.name) == if k < |ps| then Some(ps[k]) else None
  {
    if k > 0 {
      PrefForFirst(ps[1..], m, z, k - 1);
    }
  }

  /** An override replaces the whole order: the first row for the member and zone is it. */
  lemma OverrideIsUsed(f: Fabric, m: Member, z: Zone, k: nat)
    requires k < |f.prefs| && IsFor(f.prefs[k], m, z)
    requires forall j :: 0 <= j < k ==> !IsFor(f.prefs[j], m, z)
    ensures Order(f, m, z) == f.prefs[k].order
  {
    PrefForFirst(f.prefs, m, z, k);
  }

  /** The wire named `a` is on the primary domain, or is faster than that named `b` or as fast and earlier. */
  ghost predicate RanksOver(ws: seq<Wire>, primary: string, a: string, b: string) {
    exists v, w :: v in ws && w in ws && v.name == a && w.name == b && (v.domain == primary || Before(ws, v, w))
  }

  lemma {:induction false} CandidatesThin(f: Fabric, ws: seq<Wire>, zone: string)
    ensures Thinned(Candidates(f, ws, zone), ws)
  {
    hide HasDomainSegment;
    if ws != [] {
      var rest := Candidates(f, ws[1..], zone);
      CandidatesThin(f, ws[1..], zone);
      if HasDomainSegment(f, zone, ws[0].domain) {
        assert ([ws[0]] + rest)[1..] == rest;
      } else {
        NoneLeft(rest);
      }
    }
  }

  lemma CandidatesBefore(f: Fabric, ws: seq<Wire>, zone: string, a: Wire, b: Wire)
    requires Before(Candidates(f, ws, zone), a, b)
    ensures Before(ws, a, b)
  {
    if a.speed == b.speed {
      var cs := Candidates(f, ws, zone);
      var i, j :| 0 <= i < j < |cs| && cs[i] == a && cs[j] == b;
      CandidatesThin(f, ws, zone);
      var k, l := ThinnedInOrder(cs, ws, i, j);
    }
  }

  /** The derived wires, as wires of the member. */
  lemma DerivedRanks(f: Fabric, m: Member, z: Zone)
    requires WiresApart(m.wires)
    ensures var cs := Candidates(f, m.wires, z.name);
            var ws := DerivedWires(cs, z.primary);
            && (forall w :: w in ws <==> w in cs)
            && (forall w :: w in cs && w.domain == z.primary ==> ws != [] && ws[0] == w)
            && (forall i, j :: 0 <= i < j < |ws| && ws[i].domain != z.primary ==> Before(m.wires, ws[i], ws[j]))
  {
    var cs := Candidates(f, m.wires, z.name);
    var ws := DerivedWires(cs, z.primary);
    CandidatesApart(f, m.wires, z.name);
    DerivedWiresOrder(cs, z.primary);
    DerivedOnce(cs, z.primary);
    hide DerivedWires, Before, WiresApart, Candidates;
    forall i, j | 0 <= i < j < |ws| && ws[i].domain != z.primary
      ensures Before(m.wires, ws[i], ws[j])
    {
      CandidatesBefore(f, m.wires, z.name, ws[i], ws[j]);
    }
  }

  lemma UnsetOrder(f: Fabric, m: Member, z: Zone)
    requires forall p :: p in f.prefs ==> !IsFor(p, m, z)
    ensures Order(f, m, z) == Names(DerivedWires(Candidates(f, m.wires, z.name), z.primary))
  {
    PrefForFirst(f.prefs, m, z, |f.prefs|);
  }

  /**
   Without an override the order has the wire on the zone's primary domain first and the others by speed,
   equally fast ones as the member declares them.
   */
  lemma DerivedOrder(f: Fabric, m: Member, z: Zone)
    requires Declared(f) && Typed(f) && m in f.members
    requires forall p :: p in f.prefs ==> !IsFor(p, m, z)
    ensures var order := Order(f, m, z);
            && (forall w :: w in m.wires && w.domain == z.primary && HasDomainSegment(f, z.name, w.domain) ==>
                  order != [] && order[0] == w.name)
            && (forall i, j :: 0 <= i < j < |order| ==> RanksOver(m.wires, z.primary, order[i], order[j]))
  {
    assert MemberOk(f, m) && WiresApart(m.wires);
    hide Declared, Typed, MemberOk, Order, WiresApart, Before, HasDomainSegment;
    UnsetOrder(f, m, z);
    DerivedRanks(f, m, z);
    var ws := DerivedWires(Candidates(f, m.wires, z.name), z.primary);
    var order := Order(f, m, z);
    hide DerivedWires;
    assert forall w :: w in ws ==> w in m.wires;
    hide Candidates;
    forall i, j | 0 <= i < j < |order|
      ensures RanksOver(m.wires, z.primary, order[i], order[j])
    {
      RanksOverIs(m.wires, z.primary, ws, i, j);
    }
  }

  lemma RanksOverIs(all: seq<Wire>, primary: string, ws: seq<Wire>, i: nat, j: nat)
    requires i < j < |ws| && (forall w :: w in ws ==> w in all)
    requires ws[i].domain != primary ==> Before(all, ws[i], ws[j])
    ensures RanksOver(all, primary, ws[i].name, ws[j].name)
  {
    assert ws[i] in ws && ws[j] in ws;
  }

  // ---- rows and their costs ------------------------------------------------------------------

  /**
   The ladder: rank 0 costs 10, rank 1 one step, each rank after that one step more; so two hops at rank 0
   stay below any one hop at another.
   */
  lemma LadderLaw(r: nat)
    ensures LadderCost(0) == 10 && LadderCost(1) == LADDER_STEP == 100
    ensures LadderCost(r + 2) == LadderCost(r + 1) + LADDER_STEP
    ensures 2 * LadderCost(0) < LadderCost(r + 1)
  {
  }

  /** The rank of a member's wire on a segment, and so its cost; no derivation panics. */
  lemma RowNeverPanics(f: Fabric, m: Member, s: Segment)
    requires Declared(f) && Typed(f) && m in f.members && s in f.segments
    ensures !RowFor(f, m, s).Panics?
    ensures RowFor(f, m, s).Row? <==> s.scope.OnDomain? && WireOn(m.wires, s.scope.domain).Some?
    ensures RowFor(f, m, s).Row? ==>
              var z, r := ZoneNamed(f.zones, s.zone).value, RowFor(f, m, s).row;
              r.ifname == s.ifname && r.zone == s.zone && r.seg == s.seg && r.vid == s.vid
              && r.wire == WireOn(m.wires, s.scope.domain).value.name
              && exists rank :: 0 <= rank < |Order(f, m, z)| && Order(f, m, z)[rank] == r.wire
                                && r.cost == LadderCost(rank)
  {
    if s.scope.OnDomain? && WireOn(m.wires, s.scope.domain).Some? {
      var z := ZoneNamed(f.zones, s.zone).value;
      var w := WireOn(m.wires, s.scope.domain).value;
      assert HasDomainSegment(f, s.zone, w.domain);
      OrderIsComplete(f, m, z);
      assert w in Candidates(f, m.wires, s.zone);
      NamesHas(Candidates(f, m.wires, s.zone), w.name);
    }
  }

  lemma {:induction false} RowsHave(f: Fabric, m: Member, segs: seq<Segment>, x: ClassRow)
    ensures x in RowsOver(f, m, segs) <==> exists s :: s in segs && RowFor(f, m, s) == Row(x)
  {
    if segs != [] {
      RowsHave(f, m, segs[1..], x);
      assert segs[0] in segs && forall s :: s in segs <==> s == segs[0] || s in segs[1..];
    }
  }

  /** Two rows of one member in one zone never cost the same. */
  lemma CostsApart(f: Fabric, m: Member, s: Segment, t: Segment)
    requires Declared(f) && Typed(f) && m in f.members && s in f.segments && t in f.segments
    requires s != t && s.zone == t.zone
    requires RowFor(f, m, s).Row? && RowFor(f, m, t).Row?
    ensures RowFor(f, m, s).row.cost != RowFor(f, m, t).row.cost
  {
    RowNeverPanics(f, m, s);
    RowNeverPanics(f, m, t);
    var z := ZoneNamed(f.zones, s.zone).value;
    var v, w := WireOn(m.wires, s.scope.domain).value, WireOn(m.wires, t.scope.domain).value;
    SegmentNamesApart(f, s, t);
    NamesApart(m, v, w);
    RanksApart(Order(f, m, z), v.name, w.name);
  }

  lemma NamesApart(m: Member, v: Wire, w: Wire)
    requires WiresApart(m.wires) && v in m.wires && w in m.wires && v.domain != w.domain
    ensures v.name != w.name
  {
    var i :| 0 <= i < |m.wires| && m.wires[i] == v;
    var j :| 0 <= j < |m.wires| && m.wires[j] == w;
    WiresDiffer(m.wires, i, j);
  }

  lemma RanksApart(order: seq<string>, a: string, b: string)
    requires a in order && b in order && a != b
    ensures forall i, j :: 0 <= i < |order| && 0 <= j < |order| && order[i] == a && order[j] == b
              ==> LadderCost(i) != LadderCost(j)
  {
  }

  lemma SegmentNamesApart(f: Fabric, s: Segment, t: Segment)
    requires SegmentsOk(f) && s in f.segments && t in f.segments && s != t
    ensures s.ifname != t.ifname && !(s.zone == t.zone && s.seg == t.seg) && !(s.zone == t.zone && s.scope == t.scope)
  {
    var i, j :| 0 <= i < |f.segments| && 0 <= j < |f.segments| && f.segments[i] == s && f.segments[j] == t;
    assert i != j;
  }

  /**
   Exactly one row of the zone costs 10, it is the row of the first wire of the order, and the
   home wire is that wire.
   */
  lemma HomeIsFirst(f: Fabric, m: Member, z: Zone)
    requires Declared(f) && Typed(f) && m in f.members && z in f.zones && ZoneNamed(f.zones, z.name) == Some(z)
    requires Order(f, m, z) != []
    ensures var rows := InZone(ClassRows(f, m), z.name);
            exists r :: r in rows && r.cost == 10 && r.wire == Order(f, m, z)[0]
                        && Cheapest(rows) == Some(r)
                        && forall x :: x in rows && x.cost == 10 ==> x == r
  {
    hide RowFor, Order, Typed, Declared;
    var rows := InZone(ClassRows(f, m), z.name);
    var s := FirstSegment(f, m, z);
    var r := RowFor(f, m, s).row;
    RowsHave(f, m, f.segments, r);
    forall x | x in rows && x != r
      ensures x.cost > 10
    {
      RowsHave(f, m, f.segments, x);
      var t :| t in f.segments && RowFor(f, m, t) == Row(x);
      RowNeverPanics(f, m, t);
      CostsApart(f, m, s, t);
    }
    var best := Cheapest(rows).value;
    assert best == r;
  }

  /** The segment that the first wire of the order carries. */
  lemma FirstSegment(f: Fabric, m: Member, z: Zone) returns (s: Segment)
    requires Declared(f) && Typed(f) && m in f.members && z in f.zones && ZoneNamed(f.zones, z.name) == Some(z)
    requires Order(f, m, z) != []
    ensures s in f.segments && s.zone == z.name && RowFor(f, m, s).Row?
    ensures RowFor(f, m, s).row.zone == z.name && RowFor(f, m, s).row.wire == Order(f, m, z)[0]
    ensures RowFor(f, m, s).row.cost == 10
  {
    hide RowFor, Order;
    var n := Order(f, m, z)[0];
    OrderIsComplete(f, m, z);
    NamesHas(Candidates(f, m.wires, z.name), n);
    var w :| w in Candidates(f, m.wires, z.name) && w.name == n;
    s :| s in f.segments && s.zone == z.name && s.scope == OnDomain(w.domain);
    WireOnIs(m, w);
    RowNeverPanics(f, m, s);
    var r := RowFor(f, m, s).row;
    var rank :| 0 <= rank < |Order(f, m, z)| && Order(f, m, z)[rank] == r.wire && r.cost == LadderCost(rank);
    assert rank == 0;
  }

  lemma WireOnIs(m: Member, w: Wire)
    requires WiresApart(m.wires) && w in m.wires
    ensures WireOn(m.wires, w.domain) == Some(w)
  {
    PrimaryIsUnique(m.wires, w.domain, w);
  }
}
