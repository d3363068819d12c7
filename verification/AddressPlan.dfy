/**
 The addresses of a fabric: the derived identity and segment addresses, and the hand-written workload
 addresses that validation keeps apart from them.
 */
module AddressPlan {
  import opened Wrappers
  import opened Fabrics
  import opened Prefixes
  import Bytes

  const MIN_WORKLOAD_PREFIX_LEN: nat := 22
  const IFNAME_MAX: nat := 15
  const LEG_PREFIX: string := "cfab-work-"
  const GATEWAY_PREFIX: string := "cfab-gw"
  const IDENTITY_PREFIX: string := "cfab-id"

  datatype ZoneId = ZoneId(name: string, id: bv8)

  /** A workload VLAN: the bridge and tag it is on, its prefix and gateway, its relay and its zones. */
  datatype Workload = Workload(
    name: string,
    uplink: string,
    vid: nat,
    prefix: Net,
    gw: Addr,
    server: Option<Addr>,
    allow: seq<string>)

  /** What a member writes for one workload. */
  datatype Row = Row(workload: string, address: Addr, len: nat)

  datatype Carrier = Carrier(name: string, leaf: bool, rows: seq<Row>)

  /** What names the other interfaces: wires, segments, domains, and the zones whose gateway leg is a bond. */
  datatype Interfaces = Interfaces(
    wires: seq<string>,
    segments: seq<Segment>,
    domains: seq<string>,
    bonded: seq<bv8>)

  datatype Plan = Plan(
    zones: seq<ZoneId>,
    forward: bool,
    others: Interfaces,
    members: seq<Carrier>,
    workloads: seq<Workload>)

  // ---- derived addresses ---------------------------------------------------------------------

  /** 10.id.seg.node. */
  function SegmentAddr(id: bv8, seg: bv8, node: bv8): Addr {
    0x0A00_0000 | ((id as bv32) << 16) | ((seg as bv32) << 8) | (node as bv32)
  }

  /** 10.id.0.node. */
  function IdentityAddr(id: bv8, node: bv8): Addr {
    0x0A00_0000 | ((id as bv32) << 16) | (node as bv32)
  }

  /** A derived address tells its zone, segment and node. */
  lemma SegmentAddrTells(id: bv8, seg: bv8, node: bv8, id': bv8, seg': bv8, node': bv8)
    ensures SegmentAddr(id, seg, node) == SegmentAddr(id', seg', node') <==> id == id' && seg == seg' && node == node'
  {
  }

  /** The four bytes of a derived address. */
  lemma SegmentAddrBytes(id: bv8, seg: bv8, node: bv8)
    ensures var a := SegmentAddr(id, seg, node);
            && a >> 24 == 10 && (a >> 16) & 0xFF == id as bv32
            && (a >> 8) & 0xFF == seg as bv32 && a & 0xFF == node as bv32
  {
  }

  /** A segment address is an identity address exactly when its segment is numbered 0. */
  lemma IdentityIsSegmentZero(id: bv8, node: bv8, id': bv8, seg': bv8, node': bv8)
    ensures IdentityAddr(id, node) == SegmentAddr(id', seg', node') <==> id == id' && seg' == 0 && node == node'
  {
    assert IdentityAddr(id, node) == SegmentAddr(id, 0, node);
    SegmentAddrTells(id, 0, node, id', seg', node');
    hide SegmentAddr, IdentityAddr;
  }

  /** Every derived address of a zone is in its block. */
  lemma DerivedInBlock(id: bv8, seg: bv8, node: bv8)
    ensures Contains(Block(id), SegmentAddr(id, seg, node))
  {
    assert Mask(16) == 0xFFFF_0000;
    SegmentUnderMask(id, seg, node);
    hide Mask, And, SegmentAddr;
  }

  lemma SegmentUnderMask(id: bv8, seg: bv8, node: bv8)
    ensures And(SegmentAddr(id, seg, node), 0xFFFF_0000) == BlockNet(id)
  {
  }

  // ---- what validation enforces --------------------------------------------------------------

  function WorkloadNamed(ws: seq<Workload>, name: string): (r: Option<Workload>)
    ensures r.Some? ==> r.value in ws && r.value.name == name
    ensures r.None? ==> forall w :: w in ws ==> w.name != name
  {
    if ws == [] then None else if ws[0].name == name then Some(ws[0]) else WorkloadNamed(ws[1..], name)
  }

  /** A member's first row of that workload. */
  function RowOf(rows: seq<Row>, workload: string): (r: Option<Row>)
    ensures r.Some? ==> r.value in rows && r.value.workload == workload
    ensures r.None? ==> forall x :: x in rows ==> x.workload != workload
  {
    if rows == [] then None else if rows[0].workload == workload then Some(rows[0]) else RowOf(rows[1..], workload)
  }

  /** The interface made for a workload: its name cut so that the whole fits. */
  function Leg(name: string): (leg: string)
    ensures |leg| <= IFNAME_MAX
  {
    LEG_PREFIX + if |name| <= IFNAME_MAX - |LEG_PREFIX| then name else name[..IFNAME_MAX - |LEG_PREFIX|]
  }

  /** Two names have one leg exactly when they are equal or share their first five characters. */
  lemma LegsMeet(a: string, b: string)
    ensures Leg(a) == Leg(b) <==> a == b || (|a| >= 5 && |b| >= 5 && a[..5] == b[..5])
  {
    LegTail(a);
    LegTail(b);
    if Leg(a) == Leg(b) && |a| < 5 {
      assert a == Leg(a)[10..] == Leg(b)[10..];
    }
    if Leg(a) == Leg(b) && |b| < 5 {
      assert b == Leg(b)[10..] == Leg(a)[10..];
    }
  }

  lemma LegTail(a: string)
    ensures |Leg(a)| >= 10 && Leg(a)[10..] == if |a| < 5 then a else a[..5]
    ensures Leg(a) == LEG_PREFIX + Leg(a)[10..]
  {
  }

  predicate IsEdge(p: Net, a: Addr) {
    a == p.net || a == Broadcast(p)
  }

  /** An address a member may write for that workload. */
  predicate Usable(w: Workload, a: Addr) {
    Contains(w.prefix, a) && a != w.gw && !IsEdge(w.prefix, a)
  }

  /** Neither names nor legs nor bridge and tag are shared. */
  ghost predicate NothingShared(w: Workload, x: Workload) {
    w.name != x.name && Leg(w.name) != Leg(x.name) && (w.uplink, w.vid) != (x.uplink, x.vid)
  }

  ghost predicate WorkloadsApart(ws: seq<Workload>) {
    forall i, j :: 0 <= i < j < |ws| ==> NothingShared(ws[i], ws[j])
  }

  predicate IsZone(zones: seq<ZoneId>, name: string) {
    exists z :: z in zones && z.name == name
  }

  function Decimal(n: nat): (s: string)
    ensures s != []
  {
    (if n < 10 then [] else Decimal(n / 10)) + [['0', '1', '2', '3', '4', '5', '6', '7', '8', '9'][n % 10]]
  }

  /** Numbers with the same digits are the same. */
  lemma {:induction false} DecimalTells(a: nat, b: nat)
    requires Decimal(a) == Decimal(b)
    ensures a == b
  {
    var s, t := Decimal(a), Decimal(b);
    assert s[|s| - 1] == t[|t| - 1];
    assert a % 10 == b % 10;
    assert s[..|s| - 1] == if a < 10 then [] else Decimal(a / 10);
    assert t[..|t| - 1] == if b < 10 then [] else Decimal(b / 10);
    if a >= 10 && b >= 10 {
      DecimalTells(a / 10, b / 10);
    }
  }

  function GatewayLeg(id: bv8): string {
    GATEWAY_PREFIX + Decimal(id as nat)
  }

  function IdentityLeg(id: bv8): string {
    IDENTITY_PREFIX + Decimal(id as nat)
  }

  predicate IsWireOrSegment(x: Interfaces, leg: string) {
    leg in x.wires || exists s :: s in x.segments && s.ifname == leg
  }

  /** A port of a bond, named after the bond and a domain. */
  predicate IsPort(x: Interfaces, bond: string, leg: string) {
    exists d :: d in x.domains && leg == bond + "-" + d
  }

  predicate IsSegmentPort(x: Interfaces, leg: string) {
    exists s :: s in x.segments && s.scope == Universal && IsPort(x, s.ifname, leg)
  }

  predicate IsGatewayPort(x: Interfaces, leg: string) {
    exists id :: id in x.bonded && IsPort(x, GatewayLeg(id), leg)
  }

  predicate IsZoneLeg(zones: seq<ZoneId>, leg: string) {
    exists z :: z in zones
      && (leg == GatewayLeg(z.id) || leg == IdentityLeg(z.id) || leg == IdentityLeg(z.id) + "-peer")
  }

  /** An interface the fabric declares or creates beside the workload legs has that name. */
  predicate Collides(plan: Plan, leg: string) {
    || IsWireOrSegment(plan.others, leg) || IsSegmentPort(plan.others, leg) || IsGatewayPort(plan.others, leg)
    || IsZoneLeg(plan.zones, leg)
  }

  predicate NamesOk(plan: Plan, w: Workload) {
    !IsZone(plan.zones, w.name) && !Collides(plan, Leg(w.name))
  }

  /** The legs generated for zones tell the zone. */
  lemma ZoneLegsTell(i: bv8, j: bv8)
    ensures GatewayLeg(i) == GatewayLeg(j) <==> i == j
    ensures IdentityLeg(i) == IdentityLeg(j) <==> i == j
    ensures GatewayLeg(i) != IdentityLeg(j)
  {
    assert GatewayLeg(i)[5] == 'g' && IdentityLeg(j)[5] == 'i';
    assert GatewayLeg(i)[7..] == Decimal(i as nat) && GatewayLeg(j)[7..] == Decimal(j as nat);
    assert IdentityLeg(i)[7..] == Decimal(i as nat) && IdentityLeg(j)[7..] == Decimal(j as nat);
    if GatewayLeg(i) == GatewayLeg(j) || IdentityLeg(i) == IdentityLeg(j) {
      DecimalTells(i as nat, j as nat);
    }
  }

  /** A leg collides exactly with a declared wire or segment or a segment's port: no generated name is one. */
  lemma OnlyDeclaredCollide(plan: Plan, name: string)
    ensures var leg, x := Leg(name), plan.others;
            Collides(plan, leg) <==>
              || leg in x.wires
              || (exists s :: s in x.segments && s.ifname == leg)
              || exists s, d :: s in x.segments && s.scope == Universal && d in x.domains && leg == s.ifname + "-" + d
  {
    var leg := Leg(name);
    assert leg[5] == 'w';
    forall id
      ensures GatewayLeg(id)[5] == 'g' && IdentityLeg(id)[5] == 'i'
    {
    }
    forall id: bv8, d: string
      ensures leg != GatewayLeg(id) + "-" + d
    {
      assert (GatewayLeg(id) + "-" + d)[5] == GatewayLeg(id)[5];
    }
    forall z | z in plan.zones
      ensures leg != GatewayLeg(z.id) && leg != IdentityLeg(z.id) && leg != IdentityLeg(z.id) + "-peer"
    {
      assert (IdentityLeg(z.id) + "-peer")[5] == IdentityLeg(z.id)[5];
    }
    hide Leg, GatewayLeg, IdentityLeg;
  }

  predicate GatewayFits(w: Workload) {
    w.prefix.len >= MIN_WORKLOAD_PREFIX_LEN && Contains(w.prefix, w.gw) && !IsEdge(w.prefix, w.gw)
  }

  predicate WritesServer(m: Carrier, w: Workload, server: Addr) {
    exists r :: r in m.rows && r.workload == w.name && r.address == server
  }

  /** A relay's server is off the VLAN and is an address a relay can send to. */
  predicate ServerOk(plan: Plan, w: Workload) {
    w.server.Some? ==>
      && w.server.value != w.gw
      && !(exists m :: m in plan.members && WritesServer(m, w, w.server.value))
      && !Contains(w.prefix, w.server.value)
      && w.server.value != 0 && w.server.value != 0xFFFF_FFFF
  }

  ghost predicate OffBlocks(zones: seq<ZoneId>, w: Workload) {
    forall z :: z in zones ==> !Overlaps(w.prefix, Block(z.id))
  }

  ghost predicate AllowOk(plan: Plan, w: Workload) {
    w.allow != [] && plan.forward && forall n :: n in w.allow ==> IsZone(plan.zones, n)
  }

  predicate HasRow(m: Carrier, workload: string) {
    exists r :: r in m.rows && r.workload == workload
  }

  predicate IsCarried(members: seq<Carrier>, workload: string) {
    exists m :: m in members && HasRow(m, workload)
  }

  ghost predicate WorkloadOk(plan: Plan, w: Workload) {
    && NamesOk(plan, w) && GatewayFits(w) && ServerOk(plan, w) && OffBlocks(plan.zones, w) && AllowOk(plan, w)
    && IsCarried(plan.members, w.name)
  }

  predicate RowOk(ws: seq<Workload>, row: Row) {
    match WorkloadNamed(ws, row.workload)
    case None => false
    case Some(w) => row.len == w.prefix.len && Usable(w, row.address)
  }

  ghost predicate OneRowEach(rows: seq<Row>) {
    forall i, j :: 0 <= i < j < |rows| ==> rows[i].workload != rows[j].workload
  }

  ghost predicate MemberRowsOk(plan: Plan, m: Carrier) {
    (m.leaf ==> m.rows == []) && OneRowEach(m.rows) && forall r :: r in m.rows ==> RowOk(plan.workloads, r)
  }

  /** The address a member writes for a workload. */
  function AddressOf(m: Carrier, workload: string): Option<Addr> {
    match RowOf(m.rows, workload)
    case None => None
    case Some(row) => Some(row.address)
  }

  ghost predicate Written(members: seq<Carrier>, workload: string, a: Addr) {
    exists k :: 0 <= k < |members| && AddressOf(members[k], workload) == Some(a)
  }

  /** No two members write one address for the same workload. */
  ghost predicate RowApart(members: seq<Carrier>, workload: string) {
    forall i, j :: 0 <= i < j < |members| && AddressOf(members[i], workload).Some? ==>
      AddressOf(members[i], workload) != AddressOf(members[j], workload)
  }

  ghost predicate PlanOk(plan: Plan) {
    && WorkloadsApart(plan.workloads)
    && (forall w :: w in plan.workloads ==> WorkloadOk(plan, w))
    && (forall m :: m in plan.members ==> MemberRowsOk(plan, m))
    && (forall w :: w in plan.workloads ==> RowApart(plan.members, w.name))
  }

  /** Off every zone block. */
  method CheckBlocks(zones: seq<ZoneId>, w: Workload) returns (ok: bool)
    ensures ok <==> OffBlocks(zones, w)
  {
    hide Overlaps, Block;
    for i := 0 to |zones|
      invariant forall k :: 0 <= k < i ==> !Overlaps(w.prefix, Block(zones[k].id))
    {
      if Overlaps(w.prefix, Block(zones[i].id)) {
        assert zones[i] in zones;
        return false;
      }
    }
    return true;
  }

  /** At least one zone, forwarding on, and every zone declared. */
  method CheckAllow(plan: Plan, w: Workload) returns (ok: bool)
    ensures ok <==> AllowOk(plan, w)
  {
    hide IsZone;
    if w.allow == [] || !plan.forward {
      return false;
    }
    for i := 0 to |w.allow|
      invariant forall k :: 0 <= k < i ==> IsZone(plan.zones, w.allow[k])
    {
      if !IsZone(plan.zones, w.allow[i]) {
        assert w.allow[i] in w.allow;
        return false;
      }
    }
    return true;
  }

  method CheckWorkload(plan: Plan, w: Workload) returns (ok: bool)
    ensures ok <==> WorkloadOk(plan, w)
  {
    hide NamesOk, GatewayFits, ServerOk, OffBlocks, AllowOk, IsCarried;
    if !NamesOk(plan, w) || !GatewayFits(w) || !ServerOk(plan, w) {
      return false;
    }
    ok := CheckBlocks(plan.zones, w);
    if ok {
      ok := CheckAllow(plan, w);
    }
    ok := ok && IsCarried(plan.members, w.name);
  }

  /** The names, the legs, and the bridges and tags of the given workloads. */
  datatype Seen = Seen(names: set<string>, legs: set<string>, vlans: set<(string, nat)>)

  ghost predicate SeenIn(seen: Seen, ws: seq<Workload>) {
    && (forall n :: n in seen.names <==> exists w :: w in ws && w.name == n)
    && (forall l :: l in seen.legs <==> exists w :: w in ws && Leg(w.name) == l)
    && (forall v :: v in seen.vlans <==> exists w :: w in ws && (w.uplink, w.vid) == v)
  }

  predicate IsNew(seen: Seen, w: Workload) {
    w.name !in seen.names && Leg(w.name) !in seen.legs && (w.uplink, w.vid) !in seen.vlans
  }

  function With(seen: Seen, w: Workload): Seen {
    Seen(seen.names + {w.name}, seen.legs + {Leg(w.name)}, seen.vlans + {(w.uplink, w.vid)})
  }

  lemma NewIsApart(seen: Seen, ws: seq<Workload>, w: Workload)
    requires SeenIn(seen, ws)
    ensures IsNew(seen, w) <==> forall x :: x in ws ==> NothingShared(x, w)
  {
    hide Leg;
  }

  lemma NoneSeen()
    ensures SeenIn(Seen({}, {}, {}), [])
  {
  }

  lemma SeenGrows(seen: Seen, ws: seq<Workload>, w: Workload)
    requires SeenIn(seen, ws)
    ensures SeenIn(With(seen, w), ws + [w])
  {
    hide Leg;
    assert forall x :: x in ws + [w] <==> x in ws || x == w;
  }

  /** Every workload on its own, and its name, leg, and bridge and tag against those seen before. */
  method CheckWorkloads(plan: Plan) returns (ok: bool)
    ensures ok <==> WorkloadsApart(plan.workloads) && forall w :: w in plan.workloads ==> WorkloadOk(plan, w)
  {
    hide WorkloadOk, SeenIn, IsNew, With, NothingShared;
    var ws := plan.workloads;
    var seen := Seen({}, {}, {});
    NoneSeen();
    for i := 0 to |ws|
      invariant SeenIn(seen, ws[..i])
      invariant forall j, k :: 0 <= j < k < i ==> NothingShared(ws[j], ws[k])
      invariant forall k :: 0 <= k < i ==> WorkloadOk(plan, ws[k])
    {
      NewIsApart(seen, ws[..i], ws[i]);
      SeenGrows(seen, ws[..i], ws[i]);
      assert forall k :: 0 <= k < i ==> ws[..i][k] == ws[k];
      if !IsNew(seen, ws[i]) {
        ghost var x :| x in ws[..i] && !NothingShared(x, ws[i]);
        return false;
      }
      assert ws[..i + 1] == ws[..i] + [ws[i]];
      seen := With(seen, ws[i]);
      ok := CheckWorkload(plan, ws[i]);
      if !ok {
        assert ws[i] in plan.workloads;
        return;
      }
    }
    return true;
  }

  method CheckMemberRows(plan: Plan, m: Carrier) returns (ok: bool)
    ensures ok <==> MemberRowsOk(plan, m)
  {
    hide RowOk;
    var seen: set<string> := {};
    for i := 0 to |m.rows|
      invariant forall n :: n in seen <==> exists k :: 0 <= k < i && m.rows[k].workload == n
      invariant forall j, k :: 0 <= j < k < i ==> m.rows[j].workload != m.rows[k].workload
      invariant forall k :: 0 <= k < i ==> RowOk(plan.workloads, m.rows[k])
      invariant i > 0 ==> !m.leaf
    {
      if m.rows[i].workload in seen {
        return false;
      }
      seen := seen + {m.rows[i].workload};
      if m.leaf || !RowOk(plan.workloads, m.rows[i]) {
        assert m.rows[i] in m.rows;
        return false;
      }
    }
    return true;
  }

  /** The addresses seen so far on one workload, member by member. */
  method CheckRowApart(members: seq<Carrier>, workload: string) returns (ok: bool)
    ensures ok <==> RowApart(members, workload)
  {
    hide AddressOf;
    var seen: set<Addr> := {};
    for i := 0 to |members|
      invariant forall k :: 0 <= k < i && AddressOf(members[k], workload).Some? ==>
                  AddressOf(members[k], workload).value in seen
      invariant forall a :: a in seen ==> Written(members[..i], workload, a)
      invariant forall j, k :: 0 <= j < k < i && AddressOf(members[j], workload).Some? ==>
                  AddressOf(members[j], workload) != AddressOf(members[k], workload)
    {
      var address := AddressOf(members[i], workload);
      if address.Some? {
        if address.value in seen {
          assert Written(members[..i], workload, address.value);
          return false;
        }
        seen := seen + {address.value};
      }
      assert members[..i + 1] == members[..i] + [members[i]];
    }
    return true;
  }

  /** The workload part of validation. */
  method CheckPlan(plan: Plan) returns (ok: bool)
    ensures ok <==> PlanOk(plan)
  {
    hide WorkloadsApart, WorkloadOk, MemberRowsOk, RowApart;
    ok := CheckWorkloads(plan);
    if !ok {
      return;
    }
    for i := 0 to |plan.members|
      invariant forall k :: 0 <= k < i ==> MemberRowsOk(plan, plan.members[k])
    {
      ok := CheckMemberRows(plan, plan.members[i]);
      if !ok {
        assert plan.members[i] in plan.members;
        return;
      }
    }
    for i := 0 to |plan.workloads|
      invariant forall k :: 0 <= k < i ==> RowApart(plan.members, plan.workloads[k].name)
    {
      ok := CheckRowApart(plan.members, plan.workloads[i].name);
      if !ok {
        assert plan.workloads[i] in plan.workloads;
        return;
      }
    }
    return true;
  }

  // ---- what that keeps apart -----------------------------------------------------------------

  /** An address in a workload prefix is in no zone block. */
  lemma WorkloadOutsideBlocks(zones: seq<ZoneId>, w: Workload, z: ZoneId, a: Addr)
    requires OffBlocks(zones, w) && z in zones && Contains(w.prefix, a)
    ensures !Contains(Block(z.id), a)
  {
    hide Contains, Overlaps, Block;
    OverlapsIsCommonAddress(w.prefix, Block(z.id));
  }

  /**
   In an accepted fabric a gateway lies strictly between the edges of a prefix of at least 22 bits, a relay
   sends off that prefix, and every allowed zone is declared and is not a workload.
   */
  lemma AcceptedWorkload(plan: Plan, w: Workload)
    requires PlanOk(plan) && w in plan.workloads
    ensures w.prefix.len >= 22 && w.prefix.net <= w.gw && w.gw <= Broadcast(w.prefix)
    ensures w.gw != w.prefix.net && w.gw != Broadcast(w.prefix)
    ensures w.server.Some? ==> !Contains(w.prefix, w.server.value) && w.server.value != 0
    ensures w.server.Some? ==> w.server.value != 0xFFFF_FFFF
    ensures w.allow != [] && forall n :: n in w.allow ==>
              (exists z :: z in plan.zones && z.name == n) && forall v :: v in plan.workloads ==> v.name != n
    ensures exists m, r :: m in plan.members && r in m.rows && r.workload == w.name
  {
    assert WorkloadOk(plan, w);
    hide WorkloadsApart, MemberRowsOk, RowApart, WorkloadOk, ServerOk, GatewayFits, NamesOk, Contains, Broadcast, Mask;
    PartsOfOk(plan, w);
    GatewayInside(w);
    ServerIsOff(plan, w);
    forall n, v | n in w.allow && v in plan.workloads
      ensures v.name != n
    {
      PartsOfOk(plan, v);
      ZoneIsNoWorkload(plan, v, n);
    }
  }

  lemma PartsOfOk(plan: Plan, w: Workload)
    requires WorkloadOk(plan, w)
    ensures GatewayFits(w) && ServerOk(plan, w) && NamesOk(plan, w)
    ensures exists m, r :: m in plan.members && r in m.rows && r.workload == w.name
    ensures w.allow != [] && forall n :: n in w.allow ==> IsZone(plan.zones, n)
  {
  }

  lemma GatewayInside(w: Workload)
    requires GatewayFits(w)
    ensures w.prefix.len >= 22 && w.prefix.net <= w.gw && w.gw <= Broadcast(w.prefix)
    ensures w.gw != w.prefix.net && w.gw != Broadcast(w.prefix)
  {
    hide Contains, Broadcast, Mask, And;
    ContainedIsBetween(w.prefix, w.gw);
  }

  lemma ServerIsOff(plan: Plan, w: Workload)
    requires ServerOk(plan, w)
    ensures w.server.Some? ==> !Contains(w.prefix, w.server.value) && w.server.value != 0
    ensures w.server.Some? ==> w.server.value != 0xFFFF_FFFF
  {
    hide Contains;
  }

  lemma ZoneIsNoWorkload(plan: Plan, v: Workload, n: string)
    requires NamesOk(plan, v) && IsZone(plan.zones, n)
    ensures v.name != n
  {
    hide Collides;
  }

  /**
   In an accepted fabric a workload address a member writes is on its prefix, is no derived address of
   any zone, and is neither its gateway nor another member's address on that workload.
   */
  lemma WorkloadAddressIsFree(plan: Plan, m: Carrier, row: Row, z: ZoneId, seg: bv8, node: bv8)
    requires PlanOk(plan) && m in plan.members && row in m.rows
    ensures WorkloadNamed(plan.workloads, row.workload).Some?
    ensures var w := WorkloadNamed(plan.workloads, row.workload).value;
            && Contains(w.prefix, row.address) && row.len == w.prefix.len && row.address != w.gw
            && row.address != w.prefix.net && row.address != Broadcast(w.prefix)
    ensures !m.leaf
    ensures z in plan.zones ==> row.address != SegmentAddr(z.id, seg, node) && row.address != IdentityAddr(z.id, node)
    ensures forall o, x :: o in plan.members && o != m && x in o.rows && x.workload == row.workload ==>
              x.address != row.address
  {
    hide Contains, Block, SegmentAddr, IdentityAddr, Broadcast, OffBlocks, WorkloadsApart, RowApart, OneRowEach;
    hide NamesOk, GatewayFits, ServerOk, AllowOk, IsCarried;
    assert MemberRowsOk(plan, m) && RowOk(plan.workloads, row);
    var w := WorkloadNamed(plan.workloads, row.workload).value;
    assert WorkloadOk(plan, w);
    if z in plan.zones {
      WorkloadOutsideBlocks(plan.zones, w, z, row.address);
      DerivedInBlock(z.id, seg, node);
      DerivedInBlock(z.id, 0, node);
      IdentityIsSegmentZero(z.id, node, z.id, 0, node);
    }
    forall o, x | o in plan.members && o != m && x in o.rows && x.workload == row.workload
      ensures x.address != row.address
    {
      RowsOfTwoMembers(plan, w, m, row, o, x);
    }
  }

  lemma RowsOfTwoMembers(plan: Plan, w: Workload, m: Carrier, row: Row, o: Carrier, x: Row)
    requires RowApart(plan.members, w.name) && m in plan.members && o in plan.members && o != m
    requires MemberRowsOk(plan, m) && MemberRowsOk(plan, o)
    requires row in m.rows && x in o.rows && row.workload == x.workload == w.name
    ensures x.address != row.address
  {
    hide RowOk;
    var i :| 0 <= i < |plan.members| && plan.members[i] == m;
    var j :| 0 <= j < |plan.members| && plan.members[j] == o;
    OnlyRow(m, row);
    OnlyRow(o, x);
    if i < j {
      assert AddressOf(plan.members[i], w.name) != AddressOf(plan.members[j], w.name);
    } else {
      assert AddressOf(plan.members[j], w.name) != AddressOf(plan.members[i], w.name);
    }
  }

  lemma OnlyRow(m: Carrier, row: Row)
    requires row in m.rows && OneRowEach(m.rows)
    ensures RowOf(m.rows, row.workload) == Some(row)
  {
    var r := RowOf(m.rows, row.workload).value;
    var i :| 0 <= i < |m.rows| && m.rows[i] == row;
    var j :| 0 <= j < |m.rows| && m.rows[j] == r;
  }

  /**
   In an accepted fabric whose segments are numbered from 1, all identity and segment addresses of all
   members are apart: equal addresses are the same zone, the same member and the same segment.
   */
  lemma DerivedAddressesAreApart(f: Fabric, z: Zone, s: Segment, m: Member, z': Zone, s': Segment, m': Member)
    requires Typed(f) && ZonesOk(f) && MembersOk(f) && SegmentsOk(f)
    requires z in f.zones && z' in f.zones && m in f.members && m' in f.members
    requires s in f.segments && s' in f.segments && s.zone == z.name && s'.zone == z'.name
    ensures AddrOn(z, s.seg, m) == AddrOn(z', s'.seg, m') ==> z == z' && m == m' && s == s'
    ensures AddrOn(z, 0, m) == AddrOn(z', 0, m') ==> z == z' && m == m'
    ensures s'.seg >= 1 ==> AddrOn(z, 0, m) != AddrOn(z', s'.seg, m')
  {
    AddrOnTells(z, s.seg, m, z', s'.seg, m');
    AddrOnTells(z, 0, m, z', 0, m');
    AddrOnTells(z, 0, m, z', s'.seg, m');
    if z.id == z'.id {
      SameZone(f, z, z');
    }
    if m.node == m'.node {
      SameMember(f, m, m');
    }
    if z == z' && s.seg == s'.seg {
      SameSegment(f, s, s');
    }
  }

  /** A member's address on segment `seg` of a zone; its identity address when `seg` is 0. */
  function AddrOn(z: Zone, seg: nat, m: Member): Addr
    requires z.id < 256 && seg < 256 && m.node < 256
  {
    SegmentAddr(z.id as bv8, seg as bv8, m.node as bv8)
  }

  lemma AddrOnTells(z: Zone, seg: nat, m: Member, z': Zone, seg': nat, m': Member)
    requires z.id < 256 && seg < 256 && m.node < 256 && z'.id < 256 && seg' < 256 && m'.node < 256
    ensures AddrOn(z, seg, m) == AddrOn(z', seg', m') ==> z.id == z'.id && seg == seg' && m.node == m'.node
  {
    SegmentAddrTells(z.id as bv8, seg as bv8, m.node as bv8, z'.id as bv8, seg' as bv8, m'.node as bv8);
    ByteTells(z.id, z'.id);
    ByteTells(seg, seg');
    ByteTells(m.node, m'.node);
    hide SegmentAddr;
  }

  lemma ByteTells(a: nat, b: nat)
    requires a < 256 && b < 256
    ensures a as bv8 == b as bv8 ==> a == b
  {
    Bytes.ByteBack(a);
    Bytes.ByteBack(b);
  }

  lemma SameZone(f: Fabric, z: Zone, z': Zone)
    requires ZonesOk(f) && z in f.zones && z' in f.zones && z.id == z'.id
    ensures z == z'
  {
    hide HasDomainSegment;
    var i :| 0 <= i < |f.zones| && f.zones[i] == z;
    var j :| 0 <= j < |f.zones| && f.zones[j] == z';
  }

  lemma SameMember(f: Fabric, m: Member, m': Member)
    requires MembersOk(f) && m in f.members && m' in f.members && m.node == m'.node
    ensures m == m'
  {
    hide MemberOk;
    var i :| 0 <= i < |f.members| && f.members[i] == m;
    var j :| 0 <= j < |f.members| && f.members[j] == m';
  }

  lemma SameSegment(f: Fabric, s: Segment, s': Segment)
    requires SegmentsOk(f) && s in f.segments && s' in f.segments && s.zone == s'.zone && s.seg == s'.seg
    ensures s == s'
  {
    hide ZoneNamed;
    var i :| 0 <= i < |f.segments| && f.segments[i] == s;
    var j :| 0 <= j < |f.segments| && f.segments[j] == s';
  }
}
