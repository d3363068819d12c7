/**
 What is derived from the declaration: each member's wire order per zone, the ladder cost of a
 wire at a rank, the segment rows, the home wire and the universal segment's cost.
 */
module Derive {
  import opened Wrappers
  import opened Fabrics

  const LADDER_STEP: nat := 100

  function LadderCost(rank: nat): nat {
    if rank == 0 then 10 else 100 * rank
  }

  // ---- the wire order of a (member, zone) ----------------------------------------------------

  /** A candidate wire with its position in declaration order. */
  datatype Ranked = Ranked(pos: nat, wire: Wire)

  /** Faster first; equally fast wires by position. */
  predicate Less(a: Ranked, b: Ranked) {
    a.wire.speed > b.wire.speed || (a.wire.speed == b.wire.speed && a.pos < b.pos)
  }

  /** The wires off `domain`, with their positions from `k` on. */
  function RankedOff(ws: seq<Wire>, domain: string, k: nat): seq<Ranked> {
    if ws == [] then []
    else (if ws[0].domain != domain then [Ranked(k, ws[0])] else []) + RankedOff(ws[1..], domain, k + 1)
  }

  function Insert(x: Ranked, sorted: seq<Ranked>): (r: seq<Ranked>)
    ensures multiset(r) == multiset(sorted) + multiset{x}
  {
    if sorted == [] || Less(x, sorted[0]) then [x] + sorted
    else
      assert sorted == [sorted[0]] + sorted[1..];
      [sorted[0]] + Insert(x, sorted[1..])
  }

  function SortBySpeed(xs: seq<Ranked>): (r: seq<Ranked>)
    ensures multiset(r) == multiset(xs)
  {
    if xs == [] then []
    else
      assert xs == [xs[0]] + xs[1..];
      Insert(xs[0], SortBySpeed(xs[1..]))
  }

  function WiresOf(xs: seq<Ranked>): (r: seq<Wire>)
    ensures |r| == |xs| && forall i :: 0 <= i < |xs| ==> r[i] == xs[i].wire
  {
    if xs == [] then [] else [xs[0].wire] + WiresOf(xs[1..])
  }

  /** The wires of the derived order: the primary-domain wire first, then by speed. */
  function DerivedWires(candidates: seq<Wire>, primary: string): seq<Wire> {
    Head(candidates, primary) + WiresOf(SortBySpeed(RankedOff(candidates, primary, 0)))
  }

  function Head(candidates: seq<Wire>, primary: string): seq<Wire> {
    match WireOn(candidates, primary) case Some(w) => [w] case None => []
  }

  function Order(f: Fabric, m: Member, z: Zone): seq<string> {
    match PrefFor(f.prefs, m.name, z.name)
    case Some(p) => p.order
    case None => Names(DerivedWires(Candidates(f, m.wires, z.name), z.primary))
  }

  // ---- segment rows --------------------------------------------------------------------------

  datatype ClassRow = ClassRow(ifname: string, wire: string, zone: string, seg: nat, vid: nat, cost: nat)

  /** A member with no wire on the segment's domain has no row; the two panics are told apart. */
  datatype Derived = Skip | Row(row: ClassRow) | Panics

  function RowFor(f: Fabric, m: Member, s: Segment): Derived {
    if s.scope.Universal? then Skip
    else match WireOn(m.wires, s.scope.domain)
      case None => Skip
      case Some(w) =>
        match ZoneNamed(f.zones, s.zone)
        case None => Panics
        case Some(z) =>
          match IndexOf(Order(f, m, z), w.name)
          case None => Panics
          case Some(rank) => Row(ClassRow(s.ifname, w.name, s.zone, s.seg, s.vid, LadderCost(rank)))
  }

  function RowsOver(f: Fabric, m: Member, segs: seq<Segment>): seq<ClassRow> {
    if segs == [] then []
    else (match RowFor(f, m, segs[0]) case Row(r) => [r] case Skip => [] case Panics => [])
         + RowsOver(f, m, segs[1..])
  }

  function ClassRows(f: Fabric, m: Member): seq<ClassRow> {
    RowsOver(f, m, f.segments)
  }

  function InZone(rows: seq<ClassRow>, zone: string): (r: seq<ClassRow>)
    ensures forall x :: x in r <==> x in rows && x.zone == zone
  {
    if rows == [] then []
    else (if rows[0].zone == zone then [rows[0]] else []) + InZone(rows[1..], zone)
  }

  function RowNamed(rows: seq<ClassRow>, ifname: string): (r: Option<ClassRow>)
    ensures r.Some? ==> r.value in rows && r.value.ifname == ifname
    ensures r.None? ==> forall x :: x in rows ==> x.ifname != ifname
  {
    if rows == [] then None
    else if rows[0].ifname == ifname then Some(rows[0])
    else RowNamed(rows[1..], ifname)
  }

  // ---- the universal segment's cost ----------------------------------------------------------

  /** The highest cost any of `ms` gives the segment, 0 when none has it. */
  function HighestCost(f: Fabric, ms: seq<Member>, ifname: string): nat {
    if ms == [] then 0
    else
      var rest := HighestCost(f, ms[1..], ifname);
      match RowNamed(ClassRows(f, ms[0]), ifname)
      case Some(r) => if r.cost > rest then r.cost else rest
      case None => rest
  }

  function DomainSegments(segs: seq<Segment>, zone: string): (r: seq<Segment>)
    ensures forall s :: s in r <==> s in segs && s.zone == zone && s.scope.OnDomain?
  {
    if segs == [] then []
    else (if segs[0].zone == zone && segs[0].scope.OnDomain? then [segs[0]] else [])
         + DomainSegments(segs[1..], zone)
  }

  function SumHighest(f: Fabric, segs: seq<Segment>): nat {
    if segs == [] then 0
    else SumHighest(f, segs[..|segs| - 1]) + HighestCost(f, f.members, segs[|segs| - 1].ifname)
  }

  function UniversalCost(f: Fabric, zone: string): nat {
    SumHighest(f, DomainSegments(f.segments, zone)) + LADDER_STEP
  }

  // ---- the home wire and the universal rows --------------------------------------------------

  /** The wire of the cheapest row: the first of the cheapest ones. */
  function Cheapest(rows: seq<ClassRow>): (r: Option<ClassRow>)
    ensures r.None? <==> rows == []
    ensures r.Some? ==> r.value in rows && forall x :: x in rows ==> r.value.cost <= x.cost
  {
    if rows == [] then None
    else match Cheapest(rows[1..])
      case None => Some(rows[0])
      case Some(b) => if rows[0].cost <= b.cost then Some(rows[0]) else Some(b)
  }

  datatype FallbackRow = FallbackRow(ifname: string, zone: string, seg: nat, vid: nat, cost: nat, home: string)

  /** A member's row on a universal segment; without a segment of the zone it homes on its first wire. */
  function FallbackRowFor(f: Fabric, m: Member, s: Segment): Option<FallbackRow> {
    if !s.scope.Universal? then None
    else match Cheapest(InZone(ClassRows(f, m), s.zone))
      case Some(r) => Some(FallbackRow(s.ifname, s.zone, s.seg, s.vid, UniversalCost(f, s.zone), r.wire))
      case None =>
        if m.wires == [] then None
        else Some(FallbackRow(s.ifname, s.zone, s.seg, s.vid, UniversalCost(f, s.zone), m.wires[0].name))
  }

  function FallbackRowsOver(f: Fabric, m: Member, segs: seq<Segment>): seq<FallbackRow> {
    if segs == [] then []
    else (match FallbackRowFor(f, m, segs[0]) case Some(r) => [r] case None => [])
         + FallbackRowsOver(f, m, segs[1..])
  }

  function FallbackRows(f: Fabric, m: Member): seq<FallbackRow> {
    FallbackRowsOver(f, m, f.segments)
  }

  function FallbackInZone(rows: seq<FallbackRow>, zone: string): (r: seq<FallbackRow>)
    ensures forall x :: x in r <==> x in rows && x.zone == zone
  {
    if rows == [] then []
    else (if rows[0].zone == zone then [rows[0]] else []) + FallbackInZone(rows[1..], zone)
  }

  /** The home wire of a bond leg: the wire of the zone's cheapest row this member has. */
  method HomeWire(f: Fabric, m: Member, zone: string) returns (wire: Option<string>)
    ensures wire == WireOf(Cheapest(InZone(ClassRows(f, m), zone)))
  {
    wire := ScanForCheapest(ClassRows(f, m), zone);
  }

  function WireOf(r: Option<ClassRow>): Option<string> {
    match r case None => None case Some(x) => Some(x.wire)
  }

  /** The cheapest row of the zone among the first `i`. */
  function CheapestOf(rows: seq<ClassRow>, i: nat, zone: string): Option<ClassRow>
    requires i <= |rows|
  {
    Cheapest(InZone(rows[..i], zone))
  }

  method ScanForCheapest(rows: seq<ClassRow>, zone: string) returns (wire: Option<string>)
    ensures wire == WireOf(Cheapest(InZone(rows, zone)))
  {
    hide Cheapest;
    var best: Option<ClassRow> := None;
    assert best == CheapestOf(rows, 0, zone) by {
      assert rows[..0] == [];
    }
    var i := 0;
    while i < |rows|
      invariant 0 <= i <= |rows|
      invariant best == CheapestOf(rows, i, zone)
    {
      ScanStep(rows, i, zone);
      if rows[i].zone == zone && (best.None? || rows[i].cost < best.value.cost) {
        best := Some(rows[i]);
      }
      i := i + 1;
    }
    assert rows[..|rows|] == rows;
    wire := WireOf(best);
  }

  lemma ScanStep(rows: seq<ClassRow>, i: nat, zone: string)
    requires i < |rows|
    ensures CheapestOf(rows, i + 1, zone) ==
            var best := CheapestOf(rows, i, zone);
            if rows[i].zone == zone && (best.None? || rows[i].cost < best.value.cost) then Some(rows[i]) else best
  {
    InZoneSnoc(rows, i, zone);
    if rows[i].zone == zone {
      CheapestSnoc(InZone(rows[..i], zone), rows[i]);
    } else {
      assert InZone(rows[..i], zone) + [] == InZone(rows[..i], zone);
    }
  }

  lemma {:induction false} InZoneSnoc(rows: seq<ClassRow>, i: nat, zone: string)
    requires i < |rows|
    ensures InZone(rows[..i + 1], zone)
         == InZone(rows[..i], zone) + if rows[i].zone == zone then [rows[i]] else []
  {
    assert rows[..i + 1] == rows[..i] + [rows[i]];
    InZoneConcat(rows[..i], [rows[i]], zone);
    assert InZone([rows[i]], zone) == if rows[i].zone == zone then [rows[i]] else [];
  }

  lemma {:induction false} InZoneConcat(a: seq<ClassRow>, b: seq<ClassRow>, zone: string)
    ensures InZone(a + b, zone) == InZone(a, zone) + InZone(b, zone)
  {
    if a == [] {
      assert a + b == b;
    } else {
      assert (a + b)[1..] == a[1..] + b;
      InZoneConcat(a[1..], b, zone);
    }
  }

  lemma {:induction false} CheapestSnoc(rows: seq<ClassRow>, r: ClassRow)
    ensures Cheapest(rows + [r]) ==
            match Cheapest(rows)
            case None => Some(r)
            case Some(b) => if r.cost < b.cost then Some(r) else Some(b)
  {
    if rows != [] {
      assert (rows + [r])[1..] == rows[1..] + [r];
      CheapestSnoc(rows[1..], r);
    }
  }
}
