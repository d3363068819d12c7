/**
 When two rows of workload addresses may be equal: validation keeps addresses apart within one workload,
 so what is left is the addresses two workloads have in common.
 */
module AddressSharing {
  import opened Wrappers
  import opened Prefixes
  import opened AddressPlan

  /** Some address is open to the members of both workloads. */
  ghost predicate OpenToBoth(v: Workload, w: Workload) {
    exists a :: Usable(v, a) && Usable(w, a)
  }

  /** Two members write one address. */
  ghost predicate Share(m: Carrier, o: Carrier) {
    exists r, x :: r in m.rows && x in o.rows && r.address == x.address
  }

  ghost predicate Clash(plan: Plan) {
    exists i, j :: 0 <= i < j < |plan.members| && Share(plan.members[i], plan.members[j])
  }

  ghost predicate TwoOverlap(plan: Plan) {
    exists v, w :: v in plan.workloads && w in plan.workloads && v != w && Overlaps(v.prefix, w.prefix)
  }

  // ---- equal addresses belong to different workloads -----------------------------------------

  /** Equal addresses of two rows are of two workloads, both of which leave the address to members. */
  lemma EqualAddressesAreTwoWorkloads(plan: Plan, i: nat, r: Row, j: nat, x: Row)
    requires PlanOk(plan) && i < |plan.members| && j < |plan.members|
    requires r in plan.members[i].rows && x in plan.members[j].rows && (i != j || r != x)
    requires r.address == x.address
    ensures var w, v := WorkloadNamed(plan.workloads, r.workload), WorkloadNamed(plan.workloads, x.workload);
            && w.Some? && v.Some? && w != v && OpenToBoth(w.value, v.value)
            && Overlaps(w.value.prefix, v.value.prefix)
  {
    hide WorkloadsApart, WorkloadOk, RowApart, Overlaps, Contains, Usable;
    var m, o := plan.members[i], plan.members[j];
    assert m in plan.members && o in plan.members;
    assert MemberRowsOk(plan, m) && MemberRowsOk(plan, o);
    assert RowOk(plan.workloads, r) && RowOk(plan.workloads, x);
    var w, v := WorkloadNamed(plan.workloads, r.workload).value, WorkloadNamed(plan.workloads, x.workload).value;
    OpenMeansOverlap(w, v, r.address);
    if w == v {
      assert RowApart(plan.members, w.name);
      SameWorkload(plan, w.name, i, r, j, x);
    }
  }

  lemma OpenMeansOverlap(w: Workload, v: Workload, a: Addr)
    requires Usable(w, a) && Usable(v, a)
    ensures OpenToBoth(w, v) && Overlaps(w.prefix, v.prefix)
  {
    hide Overlaps, Contains, IsEdge;
    OverlapsIsCommonAddress(w.prefix, v.prefix);
  }

  lemma SameWorkload(plan: Plan, workload: string, i: nat, r: Row, j: nat, x: Row)
    requires RowApart(plan.members, workload) && i < |plan.members| && j < |plan.members|
    requires MemberRowsOk(plan, plan.members[i]) && MemberRowsOk(plan, plan.members[j])
    requires r in plan.members[i].rows && x in plan.members[j].rows && (i != j || r != x)
    requires r.workload == x.workload == workload
    ensures r.address != x.address
  {
    hide RowOk, OneRowEach;
    OnlyRow(plan.members[i], r);
    OnlyRow(plan.members[j], x);
    assert AddressOf(plan.members[i], workload) == Some(r.address);
    assert AddressOf(plan.members[j], workload) == Some(x.address);
  }

  /** Workloads on disjoint prefixes keep all the addresses members write apart. */
  lemma DisjointPrefixesKeepApart(plan: Plan)
    requires PlanOk(plan) && !TwoOverlap(plan)
    ensures !Clash(plan)
  {
    hide PlanOk, Overlaps, OpenToBoth;
    if Clash(plan) {
      var i, j :| 0 <= i < j < |plan.members| && Share(plan.members[i], plan.members[j]);
      var r, x :| r in plan.members[i].rows && x in plan.members[j].rows && r.address == x.address;
      EqualAddressesAreTwoWorkloads(plan, i, r, j, x);
    }
  }

  // ---- and any address open to two workloads can be written twice ------------------------------

  /** The same members but for what they write. */
  ghost predicate SameMembers(members: seq<Carrier>, others: seq<Carrier>) {
    && |others| == |members|
    && forall i :: 0 <= i < |members| ==> others[i].name == members[i].name && others[i].leaf == members[i].leaf
  }

  /** The same fabric but for what members write. */
  ghost predicate SameFabric(plan: Plan, other: Plan) {
    && other.zones == plan.zones && other.forward == plan.forward && other.others == plan.others
    && other.workloads == plan.workloads && SameMembers(plan.members, other.members)
  }

  ghost predicate BothHosts(members: seq<Carrier>, h: nat, k: nat) {
    h < k < |members| && !members[h].leaf && !members[k].leaf
  }

  ghost predicate TwoHosts(plan: Plan) {
    exists h, k :: BothHosts(plan.members, h, k)
  }

  ghost predicate HasOpen(w: Workload) {
    exists a :: Usable(w, a)
  }

  ghost function SomeOpen(w: Workload): Addr
    requires HasOpen(w)
  {
    var a :| Usable(w, a); a
  }

  /** A row for `x`, at `a` when it is `w`. */
  ghost function RowAt(x: Workload, w: Workload, a: Addr): Row
    requires HasOpen(x)
  {
    Row(x.name, if x == w then a else SomeOpen(x), x.prefix.len)
  }

  /** A row for every workload but `v`. */
  ghost function RowsBut(ws: seq<Workload>, v: Workload, w: Workload, a: Addr): seq<Row>
    requires forall x :: x in ws ==> HasOpen(x)
  {
    if ws == [] then []
    else (if ws[0] == v then [] else [RowAt(ws[0], w, a)]) + RowsBut(ws[1..], v, w, a)
  }

  lemma {:induction false} RowsButHave(ws: seq<Workload>, v: Workload, w: Workload, a: Addr)
    requires forall x :: x in ws ==> HasOpen(x)
    ensures forall r :: r in RowsBut(ws, v, w, a) ==> exists x :: x in ws && x != v && r == RowAt(x, w, a)
    ensures forall x :: x in ws && x != v ==> RowAt(x, w, a) in RowsBut(ws, v, w, a)
  {
    hide HasOpen, RowAt;
    if ws != [] {
      RowsButHave(ws[1..], v, w, a);
      assert forall x :: x in ws <==> x == ws[0] || x in ws[1..];
    }
  }

  lemma {:induction false} RowsButApart(ws: seq<Workload>, v: Workload, w: Workload, a: Addr)
    requires WorkloadsApart(ws) && forall x :: x in ws ==> HasOpen(x)
    ensures OneRowEach(RowsBut(ws, v, w, a))
  {
    hide HasOpen, Leg;
    if ws != [] {
      var rest := RowsBut(ws[1..], v, w, a);
      RowsButApart(ws[1..], v, w, a);
      RowsButHave(ws[1..], v, w, a);
      forall r | r in rest
        ensures r.workload != ws[0].name
      {
        var x :| x in ws[1..] && x != v && r == RowAt(x, w, a);
        assert NothingShared(ws[0], x);
      }
    }
  }

  /** In an accepted plan a name finds its own workload. */
  lemma NameFinds(ws: seq<Workload>, w: Workload)
    requires WorkloadsApart(ws) && w in ws
    ensures WorkloadNamed(ws, w.name) == Some(w)
  {
    hide Leg;
    var x := WorkloadNamed(ws, w.name).value;
    var i :| 0 <= i < |ws| && ws[i] == w;
    var j :| 0 <= j < |ws| && ws[j] == x;
  }

  /** Every workload of an accepted plan is carried, so it has an address for members. */
  lemma EachHasOpen(plan: Plan, w: Workload)
    requires PlanOk(plan) && w in plan.workloads
    ensures HasOpen(w)
  {
    hide Usable, WorkloadsApart, RowApart, OneRowEach, NamesOk, GatewayFits, ServerOk, OffBlocks, AllowOk;
    assert WorkloadOk(plan, w);
    var m :| m in plan.members && HasRow(m, w.name);
    var r :| r in m.rows && r.workload == w.name;
    assert MemberRowsOk(plan, m) && RowOk(plan.workloads, r);
    NameFinds(plan.workloads, w);
    assert Usable(w, r.address);
  }

  /** What member `i` then writes: host `h` every workload but `v`, host `k` only that, the others nothing. */
  ghost function RowsHere(ws: seq<Workload>, h: nat, k: nat, v: Workload, w: Workload, a: Addr, i: nat): seq<Row>
    requires forall x :: x in ws ==> HasOpen(x)
  {
    if i == h then RowsBut(ws, v, w, a) else if i == k then [Row(v.name, a, v.prefix.len)] else []
  }

  /** Host `h` carries every workload but `v`, with `w` at `a`; host `k` carries `v` at `a` too. */
  ghost function Doubled(plan: Plan, h: nat, k: nat, v: Workload, w: Workload, a: Addr): (other: Plan)
    requires forall x :: x in plan.workloads ==> HasOpen(x)
    ensures SameFabric(plan, other)
    ensures forall i :: 0 <= i < |plan.members| ==>
              other.members[i].rows == RowsHere(plan.workloads, h, k, v, w, a, i)
  {
    plan.(members := seq(|plan.members|, i requires 0 <= i < |plan.members| =>
                           plan.members[i].(rows := RowsHere(plan.workloads, h, k, v, w, a, i))))
  }

  lemma RowsHereOk(ws: seq<Workload>, h: nat, k: nat, v: Workload, w: Workload, a: Addr, i: nat)
    requires WorkloadsApart(ws) && forall x :: x in ws ==> HasOpen(x)
    requires v in ws && w in ws && Usable(v, a) && Usable(w, a)
    ensures OneRowEach(RowsHere(ws, h, k, v, w, a, i))
    ensures forall r :: r in RowsHere(ws, h, k, v, w, a, i) ==> RowOk(ws, r)
  {
    hide Usable, WorkloadsApart;
    if i == h {
      RowsButHave(ws, v, w, a);
      RowsButApart(ws, v, w, a);
      forall r | r in RowsBut(ws, v, w, a)
        ensures RowOk(ws, r)
      {
        var x :| x in ws && x != v && r == RowAt(x, w, a);
        NameFinds(ws, x);
      }
    } else if i == k {
      NameFinds(ws, v);
      assert RowOk(ws, Row(v.name, a, v.prefix.len));
    }
  }

  lemma DoubledRowsOk(plan: Plan, h: nat, k: nat, v: Workload, w: Workload, a: Addr)
    requires WorkloadsApart(plan.workloads) && forall x :: x in plan.workloads ==> HasOpen(x)
    requires BothHosts(plan.members, h, k)
    requires v in plan.workloads && w in plan.workloads && Usable(v, a) && Usable(w, a)
    ensures var other := Doubled(plan, h, k, v, w, a); forall m :: m in other.members ==> MemberRowsOk(other, m)
  {
    hide Usable, WorkloadsApart, HasOpen, OneRowEach, RowOk, RowsBut;
    var other := Doubled(plan, h, k, v, w, a);
    forall m | m in other.members
      ensures MemberRowsOk(other, m)
    {
      var i :| 0 <= i < |other.members| && other.members[i] == m;
      RowsHereOk(plan.workloads, h, k, v, w, a, i);
    }
  }

  lemma RowButIsFor(ws: seq<Workload>, v: Workload, w: Workload, a: Addr, r: Row) returns (x: Workload)
    requires (forall y :: y in ws ==> HasOpen(y)) && r in RowsBut(ws, v, w, a)
    ensures x in ws && x != v && x.name == r.workload
  {
    RowsButHave(ws, v, w, a);
    x :| x in ws && x != v && r == RowAt(x, w, a);
  }

  /** Host `h` and host `k` never write for the same workload. */
  lemma HostsApart(ws: seq<Workload>, v: Workload, w: Workload, a: Addr, workload: string)
    requires WorkloadsApart(ws) && (forall x :: x in ws ==> HasOpen(x)) && v in ws
    ensures RowOf(RowsBut(ws, v, w, a), workload).None? || RowOf([Row(v.name, a, v.prefix.len)], workload).None?
  {
    hide HasOpen, WorkloadsApart, RowsBut;
    if RowOf(RowsBut(ws, v, w, a), workload).Some? {
      var x := RowButIsFor(ws, v, w, a, RowOf(RowsBut(ws, v, w, a), workload).value);
      NameFinds(ws, x);
      NameFinds(ws, v);
    }
  }

  lemma DoubledIsApart(plan: Plan, h: nat, k: nat, v: Workload, w: Workload, a: Addr, workload: string)
    requires WorkloadsApart(plan.workloads) && forall x :: x in plan.workloads ==> HasOpen(x)
    requires v in plan.workloads && h < k
    ensures RowApart(Doubled(plan, h, k, v, w, a).members, workload)
  {
    HostsApart(plan.workloads, v, w, a, workload);
    hide HasOpen, RowsBut, WorkloadsApart;
    var members := Doubled(plan, h, k, v, w, a).members;
    forall i, j | 0 <= i < j < |members| && AddressOf(members[i], workload).Some?
      ensures AddressOf(members[i], workload) != AddressOf(members[j], workload)
    {
      assert members[i].rows == RowsHere(plan.workloads, h, k, v, w, a, i);
      assert members[j].rows == RowsHere(plan.workloads, h, k, v, w, a, j);
    }
  }

  lemma DoubledIsCarried(plan: Plan, h: nat, k: nat, v: Workload, w: Workload, a: Addr, x: Workload)
    requires (forall y :: y in plan.workloads ==> HasOpen(y)) && x in plan.workloads
    requires BothHosts(plan.members, h, k)
    ensures IsCarried(Doubled(plan, h, k, v, w, a).members, x.name)
  {
    hide HasOpen;
    var members := Doubled(plan, h, k, v, w, a).members;
    RowsButHave(plan.workloads, v, w, a);
    assert members[h] in members && members[k] in members;
    if x == v {
      assert members[k].rows[0] in members[k].rows;
      assert HasRow(members[k], x.name);
    } else {
      assert RowAt(x, w, a) in members[h].rows;
      assert HasRow(members[h], x.name);
    }
  }

  /** Rows on their prefix never write a server that is off it. */
  lemma ServerStaysOff(plan: Plan, other: Plan, w: Workload)
    requires SameFabric(plan, other) && WorkloadsApart(plan.workloads) && w in plan.workloads
    requires ServerOk(plan, w) && forall m :: m in other.members ==> MemberRowsOk(other, m)
    ensures ServerOk(other, w)
  {
    hide Contains, IsEdge, WorkloadsApart;
    NameFinds(plan.workloads, w);
    if w.server.Some? {
      forall m | m in other.members
        ensures !WritesServer(m, w, w.server.value)
      {
        assert MemberRowsOk(other, m);
        forall r | r in m.rows && r.workload == w.name
          ensures r.address != w.server.value
        {
          assert RowOk(other.workloads, r);
        }
      }
    }
  }

  lemma DoubledIsAccepted(plan: Plan, h: nat, k: nat, v: Workload, w: Workload, a: Addr)
    requires PlanOk(plan) && (forall x :: x in plan.workloads ==> HasOpen(x)) && BothHosts(plan.members, h, k)
    requires v in plan.workloads && w in plan.workloads && v != w && Usable(v, a) && Usable(w, a)
    ensures PlanOk(Doubled(plan, h, k, v, w, a)) && Clash(Doubled(plan, h, k, v, w, a))
  {
    hide Usable, WorkloadsApart, ServerOk, GatewayFits, OffBlocks, MemberRowsOk, RowApart, HasOpen, IsCarried, RowsBut;
    var other := Doubled(plan, h, k, v, w, a);
    DoubledRowsOk(plan, h, k, v, w, a);
    forall x | x in other.workloads
      ensures WorkloadOk(other, x) && RowApart(other.members, x.name)
    {
      assert WorkloadOk(plan, x);
      DoubledIsApart(plan, h, k, v, w, a, x.name);
      DoubledIsCarried(plan, h, k, v, w, a, x);
      ServerStaysOff(plan, other, x);
    }
    RowsButHave(plan.workloads, v, w, a);
    assert RowAt(w, w, a) in other.members[h].rows && other.members[k].rows[0] in other.members[k].rows;
    assert Share(other.members[h], other.members[k]);
  }

  /** Two members write one address in some accepted plan that differs only in what members write. */
  ghost predicate MayClash(plan: Plan) {
    exists other :: SameFabric(plan, other) && PlanOk(other) && Clash(other)
  }

  ghost predicate TwoAreOpen(plan: Plan) {
    exists v, w :: v in plan.workloads && w in plan.workloads && v != w && OpenToBoth(v, w)
  }

  /** Whoever writes an address is a host. */
  lemma ClashMeansTwoOpen(plan: Plan)
    requires PlanOk(plan) && Clash(plan)
    ensures TwoAreOpen(plan) && TwoHosts(plan)
  {
    var i, j :| 0 <= i < j < |plan.members| && Share(plan.members[i], plan.members[j]);
    assert plan.members[i] in plan.members && plan.members[j] in plan.members;
    assert MemberRowsOk(plan, plan.members[i]) && MemberRowsOk(plan, plan.members[j]);
    hide PlanOk, OpenToBoth, Overlaps;
    var r, x :| r in plan.members[i].rows && x in plan.members[j].rows && r.address == x.address;
    assert BothHosts(plan.members, i, j);
    hide MemberRowsOk;
    EqualAddressesAreTwoWorkloads(plan, i, r, j, x);
  }

  lemma SameHosts(plan: Plan, other: Plan)
    requires SameFabric(plan, other) && TwoHosts(other)
    ensures TwoHosts(plan)
  {
    var h, k :| BothHosts(other.members, h, k);
    assert BothHosts(plan.members, h, k);
  }

  /**
   What the members of an accepted plan write can be changed, with the plan still accepted, so that two of
   them write one address, exactly when two workloads leave one address to members and two members are hosts.
   */
  lemma ClashPossibleExactly(plan: Plan)
    requires PlanOk(plan)
    ensures MayClash(plan) <==> TwoAreOpen(plan) && TwoHosts(plan)
  {
    hide PlanOk, Usable, HasOpen, Clash, BothHosts;
    if TwoAreOpen(plan) && TwoHosts(plan) {
      var v, w :| v in plan.workloads && w in plan.workloads && v != w && OpenToBoth(v, w);
      var a :| Usable(v, a) && Usable(w, a);
      var h, k :| BothHosts(plan.members, h, k);
      forall x | x in plan.workloads
        ensures HasOpen(x)
      {
        EachHasOpen(plan, x);
      }
      DoubledIsAccepted(plan, h, k, v, w, a);
      assert SameFabric(plan, Doubled(plan, h, k, v, w, a));
    }
    hide OpenToBoth, TwoHosts;
    if MayClash(plan) {
      var other :| SameFabric(plan, other) && PlanOk(other) && Clash(other);
      ClashMeansTwoOpen(other);
      SameHosts(plan, other);
    }
  }

  // ---- up to 29 bits, that is overlap ----------------------------------------------------------

  /** A prefix inside another. */
  lemma InsideShorter(q: Net, p: Net, a: Addr)
    requires q.len <= p.len && Overlaps(q, p) && Contains(p, a)
    ensures Contains(q, a)
  {
    hide Mask, And;
    OverlapsUnderShorter(q, p);
    MasksNest(q.len, p.len);
    AndThrough(a, Mask(q.len), Mask(p.len));
  }

  /** The three first host addresses of a prefix are on no edge of a prefix of at most 29 bits. */
  lemma SlotIsNoEdge(q: Net, p: Net, k: Addr)
    requires q.len <= 29 && p.len <= 29 && 1 <= k <= 3
    ensures !IsEdge(q, Slot(p, k))
  {
    SlotIsInside(p, k);
    EdgeBits(q);
    hide Broadcast, Slot;
    hide And;
  }

  lemma SlotIsOpen(w: Workload, p: Net, k: Addr)
    requires w.prefix.len <= p.len <= 29 && Overlaps(w.prefix, p) && 1 <= k <= 3 && Slot(p, k) != w.gw
    ensures Usable(w, Slot(p, k))
  {
    SlotIsInside(p, k);
    SlotIsNoEdge(w.prefix, p, k);
    hide Overlaps, Contains, Slot, IsEdge;
    InsideShorter(w.prefix, p, Slot(p, k));
  }

  lemma SlotsApart(p: Net)
    requires p.len <= 29
    ensures Slot(p, 1) != Slot(p, 2) && Slot(p, 1) != Slot(p, 3) && Slot(p, 2) != Slot(p, 3)
  {
    SlotIsInside(p, 1);
    SlotIsInside(p, 2);
    SlotIsInside(p, 3);
    hide Contains, Slot, And;
  }

  lemma OverlapIsOpenUnder(v: Workload, w: Workload)
    requires v.prefix.len <= w.prefix.len <= 29 && Overlaps(v.prefix, w.prefix)
    ensures OpenToBoth(v, w)
  {
    var p := w.prefix;
    SlotsApart(p);
    SelfOverlap(p);
    var k: Addr :| 1 <= k <= 3 && Slot(p, k) != v.gw && Slot(p, k) != w.gw;
    hide Slot, Overlaps;
    SlotIsOpen(v, p, k);
    SlotIsOpen(w, p, k);
    hide Usable;
  }

  lemma SelfOverlap(p: Net)
    ensures Overlaps(p, p)
  {
    hide And, Mask;
  }

  /** Two workloads on prefixes of at most 29 bits leave one address to members exactly when they overlap. */
  lemma OpenIsOverlap(v: Workload, w: Workload)
    requires v.prefix.len <= 29 && w.prefix.len <= 29
    ensures OpenToBoth(v, w) <==> Overlaps(v.prefix, w.prefix)
  {
    if OpenToBoth(v, w) {
      var a :| Usable(v, a) && Usable(w, a);
      OpenMeansOverlap(v, w, a);
    } else if Overlaps(v.prefix, w.prefix) {
      if v.prefix.len <= w.prefix.len {
        OverlapIsOpenUnder(v, w);
      } else {
        OverlapIsOpenUnder(w, v);
      }
    }
  }

  /** On prefixes of at most 29 bits, that is when two prefixes overlap and two members are hosts. */
  lemma ClashPossibleIsOverlap(plan: Plan)
    requires PlanOk(plan) && forall w :: w in plan.workloads ==> w.prefix.len <= 29
    ensures MayClash(plan) <==> TwoOverlap(plan) && TwoHosts(plan)
  {
    ClashPossibleExactly(plan);
    hide PlanOk, Overlaps, OpenToBoth, MayClash, TwoHosts;
    if TwoAreOpen(plan) {
      var v, w :| v in plan.workloads && w in plan.workloads && v != w && OpenToBoth(v, w);
      OpenIsOverlap(v, w);
    }
    if TwoOverlap(plan) {
      var v, w :| v in plan.workloads && w in plan.workloads && v != w && Overlaps(v.prefix, w.prefix);
      OpenIsOverlap(v, w);
    }
  }

  // ---- one such plan ---------------------------------------------------------------------------

  const LAN: Net := (LanIsAligned(); Prefix(0xC0A8_1400, 24))

  lemma LanIsAligned()
    ensures Aligned(Prefix(0xC0A8_1400, 24)) && Mask(24) == 0xFFFF_FF00
  {
  }

  const CORE: ZoneId := ZoneId("core", 1)
  const WEB: Workload := Workload("web", "vmbr0", 20, LAN, 0xC0A8_14FE, None, ["core"])
  const DBS: Workload := Workload("dbs", "vmbr1", 20, LAN, 0xC0A8_14FE, None, ["core"])
  const WEB_CARRIER: Carrier := Carrier("a", false, [Row("web", 0xC0A8_1405, 24)])
  const DBS_CARRIER: Carrier := Carrier("b", false, [Row("dbs", 0xC0A8_1405, 24)])
  const SHARED: Plan := Plan([CORE], true, Interfaces([], [], [], []), [WEB_CARRIER, DBS_CARRIER], [WEB, DBS])

  lemma LanHolds()
    ensures Contains(LAN, 0xC0A8_14FE) && !IsEdge(LAN, 0xC0A8_14FE)
    ensures Contains(LAN, 0xC0A8_1405) && !IsEdge(LAN, 0xC0A8_1405)
  {
    LanIsAligned();
  }

  lemma LanMissesCore()
    ensures !Overlaps(LAN, Block(1))
  {
    assert Mask(16) == 0xFFFF_0000;
  }

  lemma NamesDiffer()
    ensures "web" != "dbs" && "web" != "core" && "dbs" != "core" && "vmbr0" != "vmbr1" && Leg("web") != Leg("dbs")
  {
    assert "web"[0] == 'w' && "dbs"[0] == 'd' && "vmbr0"[4] == '0' && "vmbr1"[4] == '1';
    assert "core"[0] == 'c';
    assert Leg("web")[10] == 'w' && Leg("dbs")[10] == 'd';
  }

  lemma SharedRows()
    ensures WorkloadNamed(SHARED.workloads, "web") == Some(WEB) && WorkloadNamed(SHARED.workloads, "dbs") == Some(DBS)
    ensures AddressOf(WEB_CARRIER, "dbs") == None && AddressOf(DBS_CARRIER, "web") == None
  {
    hide Contains, IsEdge, Leg;
    NamesDiffer();
    assert SHARED.workloads[1..] == [DBS];
    assert WorkloadNamed([DBS], "dbs") == Some(DBS);
    assert WEB_CARRIER.rows[1..] == [] && DBS_CARRIER.rows[1..] == [];
    assert RowOf(WEB_CARRIER.rows, "dbs") == None && RowOf(DBS_CARRIER.rows, "web") == None;
  }

  lemma SharedWorkloadOk(w: Workload, m: Carrier)
    requires (w == WEB && m == WEB_CARRIER) || (w == DBS && m == DBS_CARRIER)
    ensures WorkloadOk(SHARED, w)
  {
    LanHolds();
    LanMissesCore();
    NamesDiffer();
    OnlyDeclaredCollide(SHARED, w.name);
    hide Contains, Overlaps, Block, IsEdge, Leg, Collides;
    assert IsZone(SHARED.zones, "core") by { assert CORE in SHARED.zones; }
    assert m.rows[0] in m.rows && HasRow(m, w.name) && m in SHARED.members;
  }

  lemma SharedRowsOk()
    ensures MemberRowsOk(SHARED, WEB_CARRIER) && MemberRowsOk(SHARED, DBS_CARRIER)
    ensures RowApart(SHARED.members, "web") && RowApart(SHARED.members, "dbs")
  {
    LanHolds();
    SharedRows();
    hide Contains, IsEdge, WorkloadNamed, RowOf, AddressOf;
  }

  lemma SharedClash()
    ensures Clash(SHARED)
  {
    assert WEB_CARRIER.rows[0] in WEB_CARRIER.rows && DBS_CARRIER.rows[0] in DBS_CARRIER.rows;
    assert Share(SHARED.members[0], SHARED.members[1]);
  }

  lemma SharedApart()
    ensures WorkloadsApart(SHARED.workloads)
  {
    NamesDiffer();
    hide Leg;
  }

  /** Two members of an accepted plan write one address, each for its own workload. */
  lemma WorkloadsMayShareAddresses()
    ensures PlanOk(SHARED) && Clash(SHARED)
  {
    SharedClash();
    SharedApart();
    SharedRowsOk();
    SharedWorkloadOk(WEB, WEB_CARRIER);
    SharedWorkloadOk(DBS, DBS_CARRIER);
    hide MemberRowsOk, WorkloadOk, WorkloadsApart, RowApart, Clash, PlanOk;
    TwoOfEach(SHARED, WEB, DBS, WEB_CARRIER, DBS_CARRIER);
  }

  lemma TwoOfEach(plan: Plan, v: Workload, w: Workload, m: Carrier, o: Carrier)
    requires plan.workloads == [v, w] && plan.members == [m, o] && WorkloadsApart(plan.workloads)
    requires WorkloadOk(plan, v) && WorkloadOk(plan, w) && MemberRowsOk(plan, m) && MemberRowsOk(plan, o)
    requires RowApart(plan.members, v.name) && RowApart(plan.members, w.name)
    ensures PlanOk(plan)
  {
    hide MemberRowsOk, WorkloadOk, WorkloadsApart, RowApart;
  }
}
