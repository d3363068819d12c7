/**
 One zone's derived cost graph, edge by edge as the gate builds it, and which arcs it has between any two
 members.
 */
module ZoneGraph {
  import opened Wrappers
  import opened Seqs
  import opened Fabrics
  import opened Derive
  import opened Preferences
  import PathGraph

  type Arc = PathGraph.Arc
  type Graph = PathGraph.Graph

  // ---- the edges -----------------------------------------------------------------------------

  function Offset(f: Fabric, m: Member): nat {
    if m.kind == Leaf then f.leafOffset else 0
  }

  function Segs(rows: seq<ClassRow>): (r: set<nat>)
    ensures forall n :: n in r <==> exists x :: x in rows && x.seg == n
  {
    set x | x in rows :: x.seg
  }

  /** The arcs of the first `k` rows: one for each segment the other member shares. */
  function DomainArcs(m: Member, o: Member, rows: seq<ClassRow>, their: set<nat>, offset: nat, k: nat): seq<Arc>
    requires k <= |rows|
  {
    if k == 0 then []
    else DomainArcs(m, o, rows, their, offset, k - 1)
         + if rows[k - 1].seg in their
           then [PathGraph.Arc(m.name, o.name, rows[k - 1].cost + offset, rows[k - 1].ifname)] else []
  }

  /** The universal segment is one broadcast domain: the peer is adjacent whatever its wires. */
  function UniversalArcs(m: Member, o: Member, rows: seq<FallbackRow>, offset: nat, k: nat): seq<Arc>
    requires k <= |rows|
  {
    if k == 0 then []
    else UniversalArcs(m, o, rows, offset, k - 1)
         + [PathGraph.Arc(m.name, o.name, rows[k - 1].cost + offset, rows[k - 1].ifname)]
  }

  function ZoneRows(f: Fabric, m: Member, zone: string): seq<ClassRow> {
    InZone(ClassRows(f, m), zone)
  }

  function ZoneFallbacks(f: Fabric, m: Member, zone: string): seq<FallbackRow> {
    FallbackInZone(FallbackRows(f, m), zone)
  }

  function PairDomainArcs(f: Fabric, zone: string, m: Member, o: Member): seq<Arc> {
    var rows := ZoneRows(f, m, zone);
    DomainArcs(m, o, rows, Segs(ZoneRows(f, o, zone)), Offset(f, m), |rows|)
  }

  function PairUniversalArcs(f: Fabric, zone: string, m: Member, o: Member): seq<Arc> {
    var fall := ZoneFallbacks(f, m, zone);
    UniversalArcs(m, o, fall, Offset(f, m), |fall|)
  }

  function PairArcs(f: Fabric, zone: string, m: Member, o: Member): seq<Arc> {
    if o.name == m.name then [] else PairDomainArcs(f, zone, m, o) + PairUniversalArcs(f, zone, m, o)
  }

  /** The arcs of one sender, a list for each peer. */
  function ArcsFrom(f: Fabric, zone: string, m: Member): (r: seq<seq<Arc>>)
    ensures |r| == |f.members| && forall j :: 0 <= j < |r| ==> r[j] == PairArcs(f, zone, m, f.members[j])
  {
    seq(|f.members|, j requires 0 <= j < |f.members| => PairArcs(f, zone, m, f.members[j]))
  }

  /** A list for each sender. */
  function ArcLists(f: Fabric, zone: string): (r: seq<seq<Arc>>)
    ensures |r| == |f.members| && forall i :: 0 <= i < |r| ==> r[i] == Flatten(ArcsFrom(f, zone, f.members[i]))
  {
    seq(|f.members|, i requires 0 <= i < |f.members| => Flatten(ArcsFrom(f, zone, f.members[i])))
  }

  function MemberNames(f: Fabric): (r: seq<string>)
    ensures |r| == |f.members| && forall i :: 0 <= i < |r| ==> r[i] == f.members[i].name
  {
    seq(|f.members|, i requires 0 <= i < |f.members| => f.members[i].name)
  }

  function LeafNames(f: Fabric): (r: set<string>)
    ensures forall n :: n in r <==> exists m :: m in f.members && m.kind == Leaf && m.name == n
  {
    set m | m in f.members && m.kind == Leaf :: m.name
  }

  function GraphOf(f: Fabric, zone: string): Graph {
    PathGraph.Graph(MemberNames(f), Flatten(ArcLists(f, zone)), LeafNames(f))
  }

  /** The edge list as it is filled: over senders, over their peers, over the sender's rows. */
  method BuildEdges(f: Fabric, zone: string) returns (edges: seq<Arc>)
    ensures edges == GraphOf(f, zone).arcs
  {
    edges := [];
    ghost var lists := ArcLists(f, zone);
    for i := 0 to |f.members|
      invariant edges == Flatten(lists[..i])
    {
      edges := PushSender(f, zone, f.members[i], edges);
      FlattenSnoc(lists, i);
      assert lists[i] == Flatten(ArcsFrom(f, zone, f.members[i]));
    }
    assert lists[..|f.members|] == lists;
  }

  method PushSender(f: Fabric, zone: string, m: Member, before: seq<Arc>) returns (edges: seq<Arc>)
    ensures edges == before + Flatten(ArcsFrom(f, zone, m))
  {
    edges := before;
    var rows, fall := ZoneRows(f, m, zone), ZoneFallbacks(f, m, zone);
    ghost var lists := ArcsFrom(f, zone, m);
    assert before == before + Flatten(lists[..0]);
    for j := 0 to |f.members|
      invariant edges == before + Flatten(lists[..j])
    {
      edges := PushPeer(f, zone, m, rows, fall, f.members[j], edges);
      FlattenOneMore(before, lists, j);
    }
    assert lists[..|f.members|] == lists;
  }

  lemma FlattenOneMore(before: seq<Arc>, lists: seq<seq<Arc>>, j: nat)
    requires j < |lists|
    ensures before + Flatten(lists[..j]) + lists[j] == before + Flatten(lists[..j + 1])
  {
    FlattenSnoc(lists, j);
    assert before + Flatten(lists[..j]) + lists[j] == before + (Flatten(lists[..j]) + lists[j]);
  }

  method PushPeer(f: Fabric, zone: string, m: Member, rows: seq<ClassRow>, fall: seq<FallbackRow>,
                  o: Member, before: seq<Arc>) returns (edges: seq<Arc>)
    requires rows == ZoneRows(f, m, zone) && fall == ZoneFallbacks(f, m, zone)
    ensures edges == before + PairArcs(f, zone, m, o)
  {
    edges := before;
    if o.name != m.name {
      edges := PushPair(m, o, rows, Segs(ZoneRows(f, o, zone)), fall, Offset(f, m), before);
    }
  }

  method PushPair(m: Member, o: Member, rows: seq<ClassRow>, their: set<nat>, fall: seq<FallbackRow>,
                  offset: nat, before: seq<Arc>) returns (edges: seq<Arc>)
    ensures edges == before + (DomainArcs(m, o, rows, their, offset, |rows|) +
                      UniversalArcs(m, o, fall, offset, |fall|))
  {
    edges := before;
    for k := 0 to |rows|
      invariant edges == before + DomainArcs(m, o, rows, their, offset, k)
    {
      if rows[k].seg in their {
        edges := edges + [PathGraph.Arc(m.name, o.name, rows[k].cost + offset, rows[k].ifname)];
      }
    }
    for k := 0 to |fall|
      invariant edges == before + (DomainArcs(m, o, rows, their, offset, |rows|) + UniversalArcs(m, o, fall, offset, k))
    {
      edges := edges + [PathGraph.Arc(m.name, o.name, fall[k].cost + offset, fall[k].ifname)];
    }
  }

  // ---- what an edge is -----------------------------------------------------------------------

  /** `m` has a wire on the domain of `s`. */
  predicate Carries(m: Member, s: Segment) {
    s.scope.OnDomain? && WireOn(m.wires, s.scope.domain).Some?
  }

  ghost predicate SegmentArc(f: Fabric, zone: string, a: Arc, m: Member, o: Member, s: Segment)
  {
    && s in f.segments && s.zone == zone && Carries(m, s) && Carries(o, s) && RowFor(f, m, s).Row?
    && a == PathGraph.Arc(m.name, o.name, RowFor(f, m, s).row.cost + Offset(f, m), s.ifname)
  }

  ghost predicate FallbackArc(f: Fabric, zone: string, a: Arc, m: Member, o: Member, s: Segment)
  {
    && s in f.segments && s.zone == zone && s.scope == Universal
    && a == PathGraph.Arc(m.name, o.name, UniversalCost(f, zone) + Offset(f, m), s.ifname)
  }

  lemma {:induction false} DomainArcsHave(m: Member, o: Member, rows: seq<ClassRow>, their: set<nat>, offset: nat,
                                          k: nat, a: Arc)
    requires k <= |rows|
    ensures a in DomainArcs(m, o, rows, their, offset, k) <==>
            exists i :: 0 <= i < k && rows[i].seg in their
                        && a == PathGraph.Arc(m.name, o.name, rows[i].cost + offset, rows[i].ifname)
  {
    if k > 0 {
      DomainArcsHave(m, o, rows, their, offset, k - 1, a);
    }
  }

  lemma {:induction false} UniversalArcsHave(m: Member, o: Member, rows: seq<FallbackRow>, offset: nat, k: nat, a: Arc)
    requires k <= |rows|
    ensures a in UniversalArcs(m, o, rows, offset, k) <==>
            exists i :: 0 <= i < k && a == PathGraph.Arc(m.name, o.name, rows[i].cost + offset, rows[i].ifname)
  {
    if k > 0 {
      UniversalArcsHave(m, o, rows, offset, k - 1, a);
    }
  }

  lemma {:induction false} FallbacksHave(f: Fabric, m: Member, segs: seq<Segment>, x: FallbackRow)
    ensures x in FallbackRowsOver(f, m, segs) <==> exists s :: s in segs && FallbackRowFor(f, m, s) == Some(x)
  {
    if segs != [] {
      FallbacksHave(f, m, segs[1..], x);
      assert segs[0] in segs && forall s :: s in segs <==> s == segs[0] || s in segs[1..];
    }
  }

  /** The rows of a zone are the segments of the zone that the member carries. */
  lemma ZoneRowsHave(f: Fabric, m: Member, zone: string, x: ClassRow)
    requires Declared(f) && Typed(f) && m in f.members
    ensures x in ZoneRows(f, m, zone) <==>
            exists s :: s in f.segments && s.zone == zone && Carries(m, s) && RowFor(f, m, s) == Row(x)
  {
    RowsHave(f, m, f.segments, x);
    forall s | s in f.segments
      ensures RowFor(f, m, s).Row? ==> Carries(m, s) && RowFor(f, m, s).row.zone == s.zone
    {
      RowNeverPanics(f, m, s);
    }
  }

  /** The peer has a row with the segment's number exactly when it carries the segment. */
  lemma TheirSegs(f: Fabric, o: Member, zone: string, s: Segment)
    requires Declared(f) && Typed(f) && o in f.members && s in f.segments && s.zone == zone && s.scope.OnDomain?
    ensures s.seg in Segs(ZoneRows(f, o, zone)) <==> Carries(o, s)
  {
    RowNeverPanics(f, o, s);
    if Carries(o, s) {
      ZoneRowsHave(f, o, zone, RowFor(f, o, s).row);
    }
    if x :| x in ZoneRows(f, o, zone) && x.seg == s.seg {
      ZoneRowsHave(f, o, zone, x);
      var t :| t in f.segments && t.zone == zone && Carries(o, t) && RowFor(f, o, t) == Row(x);
      RowNeverPanics(f, o, t);
      if t != s {
        SegmentNamesApart(f, s, t);
      }
    }
  }

  /** A pair's arcs are its domain arcs, then its universal ones. */
  lemma PairArcsSplit(f: Fabric, zone: string, m: Member, o: Member, a: Arc)
    requires m.name != o.name
    ensures a in PairArcs(f, zone, m, o) <==>
              a in PairDomainArcs(f, zone, m, o) || a in PairUniversalArcs(f, zone, m, o)
  {
  }

  lemma PairArcsHave(f: Fabric, zone: string, m: Member, o: Member, a: Arc)
    requires Declared(f) && Typed(f) && m in f.members && o in f.members && m.name != o.name
    requires exists s :: SegmentArc(f, zone, a, m, o, s) || FallbackArc(f, zone, a, m, o, s)
    ensures a in PairArcs(f, zone, m, o)
  {
    var s :| SegmentArc(f, zone, a, m, o, s) || FallbackArc(f, zone, a, m, o, s);
    PairArcsSplit(f, zone, m, o, a);
    if SegmentArc(f, zone, a, m, o, s) {
      SegmentArcIsListed(f, zone, m, o, a, s);
    } else {
      FallbackArcIsListed(f, zone, m, o, a, s);
    }
  }

  lemma ListedArc(f: Fabric, zone: string, m: Member, o: Member, a: Arc) returns (s: Segment)
    requires Declared(f) && Typed(f) && m in f.members && o in f.members && m.name != o.name
    requires a in PairArcs(f, zone, m, o)
    ensures SegmentArc(f, zone, a, m, o, s) || FallbackArc(f, zone, a, m, o, s)
  {
    PairArcsSplit(f, zone, m, o, a);
    if a in PairDomainArcs(f, zone, m, o) {
      s := ListedSegmentArc(f, zone, m, o, a);
    } else {
      s := ListedFallbackArc(f, zone, m, o, a);
    }
  }

  lemma ListedFallbackArc(f: Fabric, zone: string, m: Member, o: Member, a: Arc) returns (s: Segment)
    requires a in PairUniversalArcs(f, zone, m, o)
    ensures FallbackArc(f, zone, a, m, o, s)
  {
    hide UniversalCost, FallbackRowFor, Offset;
    var fall := ZoneFallbacks(f, m, zone);
    UniversalArcsHave(m, o, fall, Offset(f, m), |fall|, a);
    var i :| 0 <= i < |fall| && a == PathGraph.Arc(m.name, o.name, fall[i].cost + Offset(f, m), fall[i].ifname);
    FallbacksHave(f, m, f.segments, fall[i]);
    s :| s in f.segments && FallbackRowFor(f, m, s) == Some(fall[i]);
    FallbackRowIs(f, m, s);
  }

  /** A member's universal row carries the segment's name and zone, and the zone's universal cost. */
  lemma FallbackRowIs(f: Fabric, m: Member, s: Segment)
    ensures FallbackRowFor(f, m, s).Some? ==>
              var x := FallbackRowFor(f, m, s).value;
              s.scope == Universal && x.ifname == s.ifname && x.zone == s.zone && x.cost == UniversalCost(f, s.zone)
  {
  }

  lemma ListedSegmentArc(f: Fabric, zone: string, m: Member, o: Member, a: Arc) returns (s: Segment)
    requires Declared(f) && Typed(f) && m in f.members && o in f.members
    requires a in PairDomainArcs(f, zone, m, o)
    ensures SegmentArc(f, zone, a, m, o, s)
  {
    hide RowFor, Offset, Declared, Typed, Carries;
    var rows := ZoneRows(f, m, zone);
    var their := Segs(ZoneRows(f, o, zone));
    DomainArcsHave(m, o, rows, their, Offset(f, m), |rows|, a);
    var i :| 0 <= i < |rows| && rows[i].seg in their
             && a == PathGraph.Arc(m.name, o.name, rows[i].cost + Offset(f, m), rows[i].ifname);
    ZoneRowsHave(f, m, zone, rows[i]);
    s :| s in f.segments && s.zone == zone && Carries(m, s) && RowFor(f, m, s) == Row(rows[i]);
    RowNeverPanics(f, m, s);
    TheirSegs(f, o, zone, s);
  }

  lemma SegmentArcIsListed(f: Fabric, zone: string, m: Member, o: Member, a: Arc, s: Segment)
    requires Declared(f) && Typed(f) && m in f.members && o in f.members
    requires SegmentArc(f, zone, a, m, o, s)
    ensures a in PairDomainArcs(f, zone, m, o)
  {
    hide RowFor, Offset, Declared, Typed;
    var rows := ZoneRows(f, m, zone);
    RowNeverPanics(f, m, s);
    TheirSegs(f, o, zone, s);
    var x := RowFor(f, m, s).row;
    ZoneRowsHave(f, m, zone, x);
    var i :| 0 <= i < |rows| && rows[i] == x;
    DomainArcsHave(m, o, rows, Segs(ZoneRows(f, o, zone)), Offset(f, m), |rows|, a);
  }

  lemma FallbackArcIsListed(f: Fabric, zone: string, m: Member, o: Member, a: Arc, s: Segment)
    requires MemberOk(f, m) && FallbackArc(f, zone, a, m, o, s)
    ensures a in PairUniversalArcs(f, zone, m, o)
  {
    var fall := ZoneFallbacks(f, m, zone);
    hide UniversalCost, FallbackRowFor, Offset;
    FallbackRowExists(f, m, s);
    var x := FallbackRowFor(f, m, s).value;
    FallbacksHave(f, m, f.segments, x);
    var i :| 0 <= i < |fall| && fall[i] == x;
    UniversalArcsHave(m, o, fall, Offset(f, m), |fall|, a);
  }

  /** A member always has a wire, so it has a row on every universal segment. */
  lemma FallbackRowExists(f: Fabric, m: Member, s: Segment)
    requires MemberOk(f, m) && s.scope == Universal
    ensures FallbackRowFor(f, m, s).Some?
    ensures var x := FallbackRowFor(f, m, s).value;
            x.ifname == s.ifname && x.zone == s.zone && x.cost == UniversalCost(f, s.zone)
  {
  }

  /** The members an arc joins. */
  ghost predicate Joins(f: Fabric, zone: string, a: Arc, m: Member, o: Member) {
    && m in f.members && o in f.members && m.name != o.name
    && exists s :: SegmentArc(f, zone, a, m, o, s) || FallbackArc(f, zone, a, m, o, s)
  }

  lemma ArcsListed(f: Fabric, zone: string, a: Arc)
    ensures a in GraphOf(f, zone).arcs <==>
            exists i, j :: 0 <= i < |f.members| && 0 <= j < |f.members| && a in ArcsFrom(f, zone, f.members[i])[j]
  {
    hide PairArcs;
    var lists := ArcLists(f, zone);
    FlattenHas(lists, a);
    forall i | 0 <= i < |f.members|
      ensures a in lists[i] <==> exists j :: 0 <= j < |f.members| && a in ArcsFrom(f, zone, f.members[i])[j]
    {
      assert lists[i] == Flatten(ArcsFrom(f, zone, f.members[i]));
      FlattenHas(ArcsFrom(f, zone, f.members[i]), a);
    }
    hide ArcLists, ArcsFrom, Flatten;
  }

  /** The arcs of a pair leave the one member and arrive at the other. */
  lemma PairArcEnds(f: Fabric, zone: string, m: Member, o: Member, a: Arc)
    requires a in PairArcs(f, zone, m, o)
    ensures a.from == m.name && a.to == o.name && m.name != o.name
  {
    var rows, fall := ZoneRows(f, m, zone), ZoneFallbacks(f, m, zone);
    DomainArcsHave(m, o, rows, Segs(ZoneRows(f, o, zone)), Offset(f, m), |rows|, a);
    UniversalArcsHave(m, o, fall, Offset(f, m), |fall|, a);
  }

  /** Every arc of the graph joins two members on a segment ... */
  lemma ArcJoins(f: Fabric, zone: string, a: Arc) returns (m: Member, o: Member)
    requires Declared(f) && Typed(f) && a in GraphOf(f, zone).arcs
    ensures Joins(f, zone, a, m, o)
  {
    hide PairArcs, GraphOf, Joins, Declared, Typed;
    var i, j := ArcIsListed(f, zone, a);
    m, o := f.members[i], f.members[j];
    PairJoins(f, zone, m, o, a);
  }

  lemma PairJoins(f: Fabric, zone: string, m: Member, o: Member, a: Arc)
    requires Declared(f) && Typed(f) && m in f.members && o in f.members && a in PairArcs(f, zone, m, o)
    ensures Joins(f, zone, a, m, o)
  {
    hide PairArcs;
    PairArcEnds(f, zone, m, o, a);
    var s := ListedArc(f, zone, m, o, a);
  }

  lemma ArcIsListed(f: Fabric, zone: string, a: Arc) returns (i: nat, j: nat)
    requires a in GraphOf(f, zone).arcs
    ensures i < |f.members| && j < |f.members| && a in PairArcs(f, zone, f.members[i], f.members[j])
  {
    ArcsListed(f, zone, a);
    i, j :| 0 <= i < |f.members| && 0 <= j < |f.members| && a in ArcsFrom(f, zone, f.members[i])[j];
    var r := ArcsFrom(f, zone, f.members[i]);
    assert a in r[j];
  }

  /** ... and every such arc is there. */
  lemma JoinedIsArc(f: Fabric, zone: string, a: Arc, m: Member, o: Member)
    requires Declared(f) && Typed(f) && Joins(f, zone, a, m, o)
    ensures a in GraphOf(f, zone).arcs
  {
    PairArcsHave(f, zone, m, o, a);
    PairIsListed(f, zone, a, m, o);
  }

  lemma PairIsListed(f: Fabric, zone: string, a: Arc, m: Member, o: Member)
    requires m in f.members && o in f.members && a in PairArcs(f, zone, m, o)
    ensures a in GraphOf(f, zone).arcs
  {
    var i :| 0 <= i < |f.members| && f.members[i] == m;
    var j :| 0 <= j < |f.members| && f.members[j] == o;
    assert ArcsFrom(f, zone, f.members[i])[j] == PairArcs(f, zone, m, o);
    hide ArcsFrom, PairArcs, GraphOf;
    ArcsListed(f, zone, a);
  }

  // ---- no edge twice -------------------------------------------------------------------------

  lemma MemberNamesApart(f: Fabric, m: Member, o: Member)
    requires MembersOk(f) && m in f.members && o in f.members && m.name == o.name
    ensures m == o
  {
    var i :| 0 <= i < |f.members| && f.members[i] == m;
    var j :| 0 <= j < |f.members| && f.members[j] == o;
    assert i == j;
  }

  /** The names of the segments in a row list, in order. */
  ghost predicate RowIfnamesApart(rows: seq<ClassRow>) {
    forall i, j :: 0 <= i < j < |rows| ==> rows[i].ifname != rows[j].ifname
  }

  ghost predicate FallbackIfnamesApart(rows: seq<FallbackRow>) {
    forall i, j :: 0 <= i < j < |rows| ==> rows[i].ifname != rows[j].ifname
  }

  ghost predicate SegIfnamesApart(segs: seq<Segment>) {
    forall i, j :: 0 <= i < j < |segs| ==> segs[i].ifname != segs[j].ifname
  }

  lemma {:induction false} ClassRowsApart(f: Fabric, m: Member, segs: seq<Segment>, zone: string)
    requires SegIfnamesApart(segs)
    ensures RowIfnamesApart(InZone(RowsOver(f, m, segs), zone))
  {
    if segs != [] {
      ClassRowsApart(f, m, segs[1..], zone);
      var first := match RowFor(f, m, segs[0]) case Row(r) => [r] case Skip => [] case Panics => [];
      var rest := InZone(RowsOver(f, m, segs[1..]), zone);
      InZoneConcat(first, RowsOver(f, m, segs[1..]), zone);
      forall i | 0 <= i < |rest|
        ensures rest[i].ifname != segs[0].ifname
      {
        assert rest[i] in rest;
        RowsHave(f, m, segs[1..], rest[i]);
        var s :| s in segs[1..] && RowFor(f, m, s) == Row(rest[i]);
        RowIfname(f, m, s);
      }
      RowIfname(f, m, segs[0]);
      hide RowFor, InZone, RowsOver;
    }
  }

  lemma RowIfname(f: Fabric, m: Member, s: Segment)
    ensures RowFor(f, m, s).Row? ==> RowFor(f, m, s).row.ifname == s.ifname
  {
    hide Order, LadderCost;
  }

  lemma {:induction false} FallbacksApart(f: Fabric, m: Member, segs: seq<Segment>, zone: string)
    requires SegIfnamesApart(segs)
    ensures FallbackIfnamesApart(FallbackInZone(FallbackRowsOver(f, m, segs), zone))
  {
    if segs != [] {
      FallbacksApart(f, m, segs[1..], zone);
      var after := FallbackRowsOver(f, m, segs[1..]);
      var rest := FallbackInZone(after, zone);
      forall i | 0 <= i < |rest|
        ensures rest[i].ifname != segs[0].ifname
      {
        assert rest[i] in rest;
        FallbacksHave(f, m, segs[1..], rest[i]);
        var s :| s in segs[1..] && FallbackRowFor(f, m, s) == Some(rest[i]);
        FallbackIfname(f, m, s);
      }
      FallbackIfname(f, m, segs[0]);
      match FallbackRowFor(f, m, segs[0]) {
        case Some(x) =>
          FallbackCons(x, after, zone, rest);
          assert FallbackRowsOver(f, m, segs) == [x] + after;
        case None =>
          assert FallbackRowsOver(f, m, segs) == [] + after == after;
      }
    }
  }

  lemma FallbackIfname(f: Fabric, m: Member, s: Segment)
    ensures FallbackRowFor(f, m, s).Some? ==> FallbackRowFor(f, m, s).value.ifname == s.ifname
  {
  }

  lemma FallbackCons(x: FallbackRow, after: seq<FallbackRow>, zone: string, rest: seq<FallbackRow>)
    requires rest == FallbackInZone(after, zone) && FallbackIfnamesApart(rest)
    requires forall i :: 0 <= i < |rest| ==> rest[i].ifname != x.ifname
    ensures FallbackIfnamesApart(FallbackInZone([x] + after, zone))
  {
    assert ([x] + after)[1..] == after;
  }

  lemma {:induction false} DomainArcsDistinct(m: Member, o: Member, rows: seq<ClassRow>, their: set<nat>,
                                              offset: nat, k: nat)
    requires k <= |rows| && RowIfnamesApart(rows)
    ensures Distinct(DomainArcs(m, o, rows, their, offset, k))
  {
    if k > 0 {
      DomainArcsDistinct(m, o, rows, their, offset, k - 1);
      var before := DomainArcs(m, o, rows, their, offset, k - 1);
      forall i | 0 <= i < |before|
        ensures before[i].via != rows[k - 1].ifname
      {
        DomainArcsHave(m, o, rows, their, offset, k - 1, before[i]);
      }
    }
  }

  lemma {:induction false} UniversalArcsDistinct(m: Member, o: Member, rows: seq<FallbackRow>, offset: nat, k: nat)
    requires k <= |rows| && FallbackIfnamesApart(rows)
    ensures Distinct(UniversalArcs(m, o, rows, offset, k))
  {
    if k > 0 {
      UniversalArcsDistinct(m, o, rows, offset, k - 1);
      var before := UniversalArcs(m, o, rows, offset, k - 1);
      forall i | 0 <= i < |before|
        ensures before[i].via != rows[k - 1].ifname
      {
        UniversalArcsHave(m, o, rows, offset, k - 1, before[i]);
      }
    }
  }

  lemma PairArcsDistinct(f: Fabric, zone: string, m: Member, o: Member)
    requires Declared(f) && Typed(f) && m in f.members && o in f.members
    ensures Distinct(PairArcs(f, zone, m, o))
  {
    if m.name != o.name {
      var rows, fall := ZoneRows(f, m, zone), ZoneFallbacks(f, m, zone);
      var their := Segs(ZoneRows(f, o, zone));
      var da, ua := PairDomainArcs(f, zone, m, o), PairUniversalArcs(f, zone, m, o);
      ClassRowsApart(f, m, f.segments, zone);
      FallbacksApart(f, m, f.segments, zone);
      DomainArcsDistinct(m, o, rows, their, Offset(f, m), |rows|);
      UniversalArcsDistinct(m, o, fall, Offset(f, m), |fall|);
      forall i, j | 0 <= i < |da| && 0 <= j < |ua|
        ensures da[i] != ua[j]
      {
        var s := ListedSegmentArc(f, zone, m, o, da[i]);
        var t := ListedFallbackArc(f, zone, m, o, ua[j]);
        SegmentNamesApart(f, s, t);
      }
      DistinctConcat(da, ua);
    }
  }

  /** No arc is listed twice. */
  lemma ArcsDistinct(f: Fabric, zone: string)
    requires Declared(f) && Typed(f)
    ensures Distinct(GraphOf(f, zone).arcs)
  {
    hide PairArcs, Typed;
    var lists := ArcLists(f, zone);
    forall i | 0 <= i < |lists|
      ensures Distinct(lists[i])
    {
      SenderDistinct(f, zone, f.members[i]);
    }
    forall i, k, a | 0 <= i < k < |lists| && a in lists[i]
      ensures a !in lists[k]
    {
      SendersApart(f, zone, f.members[i], f.members[k], a);
    }
    FlattenDistinct(lists);
  }

  lemma SendersApart(f: Fabric, zone: string, m: Member, n: Member, a: Arc)
    requires m.name != n.name && a in Flatten(ArcsFrom(f, zone, m))
    ensures a !in Flatten(ArcsFrom(f, zone, n))
  {
    SenderOf(f, zone, m, a);
    if a in Flatten(ArcsFrom(f, zone, n)) {
      SenderOf(f, zone, n, a);
    }
  }

  lemma SenderDistinct(f: Fabric, zone: string, m: Member)
    requires Declared(f) && Typed(f) && m in f.members
    ensures Distinct(Flatten(ArcsFrom(f, zone, m)))
  {
    var lists := ArcsFrom(f, zone, m);
    forall j | 0 <= j < |lists|
      ensures Distinct(lists[j])
    {
      PairArcsDistinct(f, zone, m, f.members[j]);
    }
    forall j, k, a | 0 <= j < k < |lists| && a in lists[j]
      ensures a !in lists[k]
    {
      PairArcEnds(f, zone, m, f.members[j], a);
      if a in lists[k] {
        PairArcEnds(f, zone, m, f.members[k], a);
      }
    }
    FlattenDistinct(lists);
  }

  lemma SenderOf(f: Fabric, zone: string, m: Member, a: Arc)
    requires a in Flatten(ArcsFrom(f, zone, m))
    ensures a.from == m.name
  {
    FlattenHas(ArcsFrom(f, zone, m), a);
    var j :| 0 <= j < |f.members| && a in ArcsFrom(f, zone, m)[j];
    PairArcEnds(f, zone, m, f.members[j], a);
  }
}
