/**
 The typed fabric: members and their wires, zones, segments and preference overrides, and the
 declaration checks that the derivation relies on.
 */
module Fabrics {
  import opened Wrappers
  import opened Seqs

  datatype Wire = Wire(name: string, domain: string, speed: nat)

  datatype Kind = Host | Leaf

  datatype Member = Member(name: string, node: nat, kind: Kind, wires: seq<Wire>)

  /** A segment lives on one switch domain, or on every wire a member has. */
  datatype Scope = OnDomain(domain: string) | Universal

  datatype Segment = Segment(ifname: string, scope: Scope, zone: string, seg: nat, vid: nat)

  /** A zone's ingress: the scope and VLAN id of the leg, and the router's host octet in its /24. */
  datatype Gateway = Gateway(scope: Scope, vid: nat, octet: nat)

  datatype Zone = Zone(name: string, id: nat, primary: string, gw: Option<Gateway>)

  /** A member's own wire order for one zone. */
  datatype WirePref = WirePref(member: string, zone: string, order: seq<string>)

  datatype Fabric = Fabric(
    domains: seq<string>,
    members: seq<Member>,
    zones: seq<Zone>,
    segments: seq<Segment>,
    prefs: seq<WirePref>,
    forwardAllow: seq<(string, string)>,
    leafOffset: nat)

  // ---- sequences -----------------------------------------------------------------------------

  function IndexOf<T(==)>(s: seq<T>, x: T): (r: Option<nat>)
    ensures r.Some? ==> r.value < |s| && s[r.value] == x && forall i :: 0 <= i < r.value ==> s[i] != x
    ensures r.None? ==> x !in s
  {
    if s == [] then None
    else if s[0] == x then Some(0)
    else match IndexOf(s[1..], x) case None => None case Some(i) => Some(i + 1)
  }

  /** The concatenation of `parts`. */
  function Flatten<T>(parts: seq<seq<T>>): seq<T> {
    if parts == [] then [] else Flatten(parts[..|parts| - 1]) + parts[|parts| - 1]
  }

  lemma {:induction false} FlattenHas<T>(parts: seq<seq<T>>, x: T)
    ensures x in Flatten(parts) <==> exists k :: 0 <= k < |parts| && x in parts[k]
  {
    if parts != [] {
      FlattenHas(parts[..|parts| - 1], x);
    }
  }

  lemma {:induction false} FlattenDistinct<T(!new)>(parts: seq<seq<T>>)
    requires forall k :: 0 <= k < |parts| ==> Distinct(parts[k])
    requires forall j, k, x :: 0 <= j < k < |parts| && x in parts[j] ==> x !in parts[k]
    ensures Distinct(Flatten(parts))
  {
    if parts != [] {
      var init, last := parts[..|parts| - 1], parts[|parts| - 1];
      FlattenDistinct(init);
      var before := Flatten(init);
      forall i, j | 0 <= i < |before| && 0 <= j < |last|
        ensures before[i] != last[j]
      {
        FlattenHas(init, before[i]);
        assert before[i] in before && last[j] in last;
      }
      DistinctConcat(before, last);
    }
  }

  lemma FlattenSnoc<T>(parts: seq<seq<T>>, j: nat)
    requires j < |parts|
    ensures Flatten(parts[..j + 1]) == Flatten(parts[..j]) + parts[j]
  {
    assert parts[..j + 1][..j] == parts[..j];
  }

  function Names(ws: seq<Wire>): (r: seq<string>)
    ensures |r| == |ws| && forall i :: 0 <= i < |ws| ==> r[i] == ws[i].name
  {
    if ws == [] then [] else [ws[0].name] + Names(ws[1..])
  }

  // ---- lookups -------------------------------------------------------------------------------

  function WireOn(ws: seq<Wire>, domain: string): (r: Option<Wire>)
    ensures r.Some? ==> r.value in ws && r.value.domain == domain
    ensures r.None? ==> forall w :: w in ws ==> w.domain != domain
  {
    if ws == [] then None else if ws[0].domain == domain then Some(ws[0]) else WireOn(ws[1..], domain)
  }

  function WireNamed(ws: seq<Wire>, name: string): (r: Option<Wire>)
    ensures r.Some? ==> r.value in ws && r.value.name == name
    ensures r.None? ==> forall w :: w in ws ==> w.name != name
  {
    if ws == [] then None else if ws[0].name == name then Some(ws[0]) else WireNamed(ws[1..], name)
  }

  function ZoneNamed(zs: seq<Zone>, name: string): (r: Option<Zone>)
    ensures r.Some? ==> r.value in zs && r.value.name == name
    ensures r.None? ==> forall z :: z in zs ==> z.name != name
  {
    if zs == [] then None else if zs[0].name == name then Some(zs[0]) else ZoneNamed(zs[1..], name)
  }

  function PrefFor(ps: seq<WirePref>, member: string, zone: string): (r: Option<WirePref>)
    ensures r.Some? ==> r.value in ps && r.value.member == member && r.value.zone == zone
  {
    if ps == [] then None
    else if ps[0].member == member && ps[0].zone == zone then Some(ps[0])
    else PrefFor(ps[1..], member, zone)
  }

  predicate HasDomainSegment(f: Fabric, zone: string, domain: string) {
    exists s :: s in f.segments && s.zone == zone && s.scope == OnDomain(domain)
  }

  predicate HasUniversal(f: Fabric, zone: string) {
    exists s :: s in f.segments && s.zone == zone && s.scope == Universal
  }

  /** The wires that can carry `zone`, in declaration order. */
  function Candidates(f: Fabric, ws: seq<Wire>, zone: string): (r: seq<Wire>)
    ensures forall w :: w in r <==> w in ws && HasDomainSegment(f, zone, w.domain)
  {
    if ws == [] then []
    else (if HasDomainSegment(f, zone, ws[0].domain) then [ws[0]] else []) + Candidates(f, ws[1..], zone)
  }

  // ---- what validation enforces --------------------------------------------------------------

  ghost predicate MemberOk(f: Fabric, m: Member) {
    && m.wires != []
    && (forall w :: w in m.wires ==> w.domain in f.domains)
    && (forall i, j :: 0 <= i < j < |m.wires| ==> m.wires[i].domain != m.wires[j].domain)
  }

  ghost predicate SegmentsOk(f: Fabric) {
    && (forall s :: s in f.segments && s.scope.OnDomain? ==> s.scope.domain in f.domains)
    && (forall s :: s in f.segments ==> ZoneNamed(f.zones, s.zone).Some?)
    && (forall i, j :: 0 <= i < j < |f.segments| ==>
          var s, t := f.segments[i], f.segments[j];
          && s.vid != t.vid && s.ifname != t.ifname
          && !(s.zone == t.zone && s.seg == t.seg)
          && !(s.zone == t.zone && s.scope == t.scope))
  }

  ghost predicate ZonesOk(f: Fabric) {
    && (forall i, j :: 0 <= i < j < |f.zones| ==> f.zones[i].id != f.zones[j].id)
    && (forall z :: z in f.zones ==> z.id >= 1 && z.primary in f.domains && HasDomainSegment(f, z.name, z.primary))
  }

  ghost predicate MembersOk(f: Fabric) {
    && (forall m :: m in f.members ==> MemberOk(f, m))
    && (forall i, j :: 0 <= i < j < |f.members| ==>
          f.members[i].name != f.members[j].name && f.members[i].node != f.members[j].node)
  }

  /** An override is the complete order: every candidate wire of that member and zone, once. */
  ghost predicate PrefOk(f: Fabric, p: WirePref)
  {
    && ZoneNamed(f.zones, p.zone).Some?
    && Distinct(p.order)
    && forall m :: m in f.members && m.name == p.member ==>
         forall n :: n in p.order <==> n in Names(Candidates(f, m.wires, p.zone))
  }

  ghost predicate DomainsOk(f: Fabric) {
    f.domains != [] && forall d :: d in f.domains ==> exists m :: m in f.members && WireOn(m.wires, d).Some?
  }

  /** A bond name this long leaves room for `-<domain>` in the kernel's fifteen characters. */
  const MAX_BOND_IFNAME: nat := 13

  ghost predicate NamesFit(f: Fabric) {
    forall s :: s in f.segments && s.scope == Universal ==> |s.ifname| <= MAX_BOND_IFNAME
  }

  /** An ingress is on a declared domain, on a VLAN id of its own, and its router is no member's octet. */
  ghost predicate GatewayOk(f: Fabric, g: Gateway) {
    && (g.scope.OnDomain? ==> g.scope.domain in f.domains)
    && (forall s :: s in f.segments ==> s.vid != g.vid)
    && (forall m :: m in f.members ==> m.node != g.octet)
  }

  ghost predicate GatewaysOk(f: Fabric) {
    forall z :: z in f.zones && z.gw.Some? ==> GatewayOk(f, z.gw.value)
  }

  ghost predicate ForwardOk(f: Fabric) {
    forall p :: p in f.forwardAllow ==> ZoneNamed(f.zones, p.0).Some? && ZoneNamed(f.zones, p.1).Some?
  }

  /** The declaration checks that the derivation relies on. */
  ghost predicate Declared(f: Fabric) {
    MembersOk(f) && SegmentsOk(f) && forall p :: p in f.prefs ==> PrefOk(f, p)
  }

  /** The field widths of the typed model, and the one fact about wires that nothing checks. */
  ghost predicate Typed(f: Fabric) {
    && (forall m :: m in f.members ==> m.node < 256 && WireNamesDistinct(m))
    && (forall s :: s in f.segments ==> s.seg < 256)
    && (forall z :: z in f.zones ==> z.id < 256)
  }

  ghost predicate WireNamesDistinct(m: Member) {
    forall i, j :: 0 <= i < j < |m.wires| ==> m.wires[i].name != m.wires[j].name
  }
}
