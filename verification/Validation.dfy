/**
 The declaration gate in its own form: the seen-sets and loops of validation, in their order, proved
 to accept exactly the fabrics the derivation relies on.
 */
module Validation {
  import opened Wrappers
  import opened Seqs
  import opened Fabrics
  import CostModel

  datatype Refusal =
    | NoDomains
    | BadMember(name: string)
    | BadDomain(where: string)
    | UnusedDomain(domain: string)
    | SegmentClash
    | NoSuchZone(zone: string)
    | BadZone(zone: string)
    | MemberClash
    | BadPref(member: string, zone: string)
    | LongName(ifname: string)
    | BadGateway(zone: string)
    | BadForward(from: string, to: string)
    | Derivation(why: CostModel.Refusal)

  /** Every prefs row belongs to a declared member: it is declared inside it. */
  predicate PrefsNested(f: Fabric) {
    forall p :: p in f.prefs ==> exists m :: m in f.members && m.name == p.member
  }

  ghost predicate Valid(f: Fabric) {
    && DomainsOk(f) && ZonesOk(f) && Declared(f) && NamesFit(f) && GatewaysOk(f) && ForwardOk(f)
    && CostModel.DerivedOk(f)
  }

  // ---- seen sets -----------------------------------------------------------------------------

  /** The first item that was there before, if any. */
  method Dup<T(!new, ==)>(items: seq<T>) returns (d: Option<T>)
    ensures d.None? <==> Distinct(items)
    ensures d.Some? ==> exists i, j :: 0 <= i < j < |items| && items[i] == items[j] == d.value
  {
    var seen: set<T> := {};
    for i := 0 to |items|
      invariant forall x :: x in seen <==> x in items[..i]
      invariant Distinct(items[..i])
    {
      if items[i] in seen {
        var j :| 0 <= j < i && items[j] == items[i];
        return Some(items[i]);
      }
      seen := seen + {items[i]};
      assert items[..i + 1] == items[..i] + [items[i]];
    }
    assert items[..|items|] == items;
    return None;
  }

  function Mapped<S, T>(xs: seq<S>, g: S -> T): (r: seq<T>)
    ensures |r| == |xs| && forall i :: 0 <= i < |xs| ==> r[i] == g(xs[i])
  {
    seq(|xs|, i requires 0 <= i < |xs| => g(xs[i]))
  }

  // ---- members -------------------------------------------------------------------------------

  method CheckWires(f: Fabric, m: Member) returns (ok: bool)
    ensures ok <==> MemberOk(f, m)
  {
    if m.wires == [] {
      return false;
    }
    for i := 0 to |m.wires|
      invariant forall k :: 0 <= k < i ==> m.wires[k].domain in f.domains
    {
      if m.wires[i].domain !in f.domains {
        return false;
      }
    }
    var d := Dup(Mapped(m.wires, (w: Wire) => w.domain));
    ok := d.None?;
  }

  method CheckMembers(f: Fabric) returns (r: Option<Refusal>)
    ensures r.None? <==> forall m :: m in f.members ==> MemberOk(f, m)
  {
    hide MemberOk;
    for i := 0 to |f.members|
      invariant forall k :: 0 <= k < i ==> MemberOk(f, f.members[k])
    {
      var ok := CheckWires(f, f.members[i]);
      if !ok {
        assert f.members[i] in f.members;
        return Some(BadMember(f.members[i].name));
      }
    }
    return None;
  }

  method CheckMemberNames(f: Fabric) returns (r: Option<Refusal>)
    ensures r.None? <==> forall i, j :: 0 <= i < j < |f.members| ==>
                           f.members[i].name != f.members[j].name && f.members[i].node != f.members[j].node
  {
    var names := Mapped(f.members, (m: Member) => m.name);
    var d := Dup(names);
    if d.Some? {
      var i, j :| 0 <= i < j < |names| && names[i] == names[j];
      assert f.members[i].name == f.members[j].name;
      return Some(MemberClash);
    }
    var nodes := Mapped(f.members, (m: Member) => m.node);
    var n := Dup(nodes);
    if n.Some? {
      var i, j :| 0 <= i < j < |nodes| && nodes[i] == nodes[j];
      assert f.members[i].node == f.members[j].node;
      return Some(MemberClash);
    }
    return None;
  }

  // ---- domains, segments, zones --------------------------------------------------------------

  ghost predicate SegmentDomainsOk(f: Fabric) {
    forall s :: s in f.segments && s.scope.OnDomain? ==> s.scope.domain in f.domains
  }

  ghost predicate PrimariesOk(f: Fabric) {
    forall z :: z in f.zones ==> z.primary in f.domains
  }

  method CheckSegmentDomains(f: Fabric) returns (r: Option<Refusal>)
    ensures r.None? <==> SegmentDomainsOk(f)
  {
    for i := 0 to |f.segments|
      invariant forall k :: 0 <= k < i && f.segments[k].scope.OnDomain? ==> f.segments[k].scope.domain in f.domains
    {
      var s := f.segments[i];
      if s.scope.OnDomain? && s.scope.domain !in f.domains {
        assert s in f.segments;
        return Some(BadDomain(s.ifname));
      }
    }
    return None;
  }

  method CheckPrimaries(f: Fabric) returns (r: Option<Refusal>)
    ensures r.None? <==> PrimariesOk(f)
  {
    for i := 0 to |f.zones|
      invariant forall k :: 0 <= k < i ==> f.zones[k].primary in f.domains
    {
      if f.zones[i].primary !in f.domains {
        assert f.zones[i] in f.zones;
        return Some(BadDomain(f.zones[i].name));
      }
    }
    return None;
  }

  predicate Wired(f: Fabric, d: string) {
    exists m :: m in f.members && WireOn(m.wires, d).Some?
  }

  method CheckUsed(f: Fabric) returns (r: Option<Refusal>)
    ensures r.None? <==> forall d :: d in f.domains ==> Wired(f, d)
  {
    hide Wired;
    for i := 0 to |f.domains|
      invariant forall k :: 0 <= k < i ==> Wired(f, f.domains[k])
    {
      if !Wired(f, f.domains[i]) {
        assert f.domains[i] in f.domains;
        return Some(UnusedDomain(f.domains[i]));
      }
    }
    return None;
  }

  ghost predicate SegmentsApart(segs: seq<Segment>) {
    forall i, j :: 0 <= i < j < |segs| ==>
      && segs[i].vid != segs[j].vid && segs[i].ifname != segs[j].ifname
      && !(segs[i].zone == segs[j].zone && segs[i].seg == segs[j].seg)
      && !(segs[i].zone == segs[j].zone && segs[i].scope == segs[j].scope)
  }

  /** No two segments share a VLAN id, an ifname, or a number or a scope within one zone. */
  method CheckSegmentsApart(segs: seq<Segment>) returns (r: Option<Refusal>)
    ensures r.None? <==> SegmentsApart(segs)
  {
    var vids := Mapped(segs, (s: Segment) => s.vid);
    var numbers := Mapped(segs, (s: Segment) => (s.zone, s.seg));
    var scopes := Mapped(segs, (s: Segment) => (s.zone, s.scope));
    var names := Mapped(segs, (s: Segment) => s.ifname);
    ApartIsDistinct(segs, vids, numbers, scopes, names);
    hide Distinct, SegmentsApart;
    var d := Dup(vids);
    if d.Some? {
      return Some(SegmentClash);
    }
    var n := Dup(numbers);
    if n.Some? {
      return Some(SegmentClash);
    }
    var c := Dup(scopes);
    if c.Some? {
      return Some(SegmentClash);
    }
    var i := Dup(names);
    if i.Some? {
      return Some(SegmentClash);
    }
    return None;
  }

  lemma ApartIsDistinct(segs: seq<Segment>, vids: seq<nat>, numbers: seq<(string, nat)>,
                        scopes: seq<(string, Scope)>, names: seq<string>)
    requires |vids| == |numbers| == |scopes| == |names| == |segs|
    requires forall i :: 0 <= i < |segs| ==>
               && vids[i] == segs[i].vid && numbers[i] == (segs[i].zone, segs[i].seg)
               && scopes[i] == (segs[i].zone, segs[i].scope) && names[i] == segs[i].ifname
    ensures SegmentsApart(segs) <==> Distinct(vids) && Distinct(numbers) && Distinct(scopes) && Distinct(names)
  {
    if Distinct(vids) && Distinct(numbers) && Distinct(scopes) && Distinct(names) {
      forall i, j | 0 <= i < j < |segs|
        ensures && segs[i].vid != segs[j].vid && segs[i].ifname != segs[j].ifname
                && !(segs[i].zone == segs[j].zone && segs[i].seg == segs[j].seg)
                && !(segs[i].zone == segs[j].zone && segs[i].scope == segs[j].scope)
      {
        assert vids[i] != vids[j] && numbers[i] != numbers[j] && scopes[i] != scopes[j] && names[i] != names[j];
      }
    }
  }

  method CheckSegmentZones(f: Fabric) returns (r: Option<Refusal>)
    ensures r.None? <==> forall s :: s in f.segments ==> ZoneNamed(f.zones, s.zone).Some?
  {
    for i := 0 to |f.segments|
      invariant forall k :: 0 <= k < i ==> ZoneNamed(f.zones, f.segments[k].zone).Some?
    {
      if ZoneNamed(f.zones, f.segments[i].zone).None? {
        assert f.segments[i] in f.segments;
        return Some(NoSuchZone(f.segments[i].zone));
      }
    }
    return None;
  }

  ghost predicate ZoneRowsOk(f: Fabric) {
    && (forall i, j :: 0 <= i < j < |f.zones| ==> f.zones[i].id != f.zones[j].id)
    && forall z :: z in f.zones ==> z.id >= 1 && HasDomainSegment(f, z.name, z.primary)
  }

  /** Zone ids are apart and at least 1, and every primary domain has a segment of its zone. */
  method CheckZones(f: Fabric) returns (r: Option<Refusal>)
    ensures r.None? <==> ZoneRowsOk(f)
  {
    var ids := Mapped(f.zones, (z: Zone) => z.id);
    var d := Dup(ids);
    if d.Some? {
      var i, j :| 0 <= i < j < |ids| && ids[i] == ids[j];
      assert f.zones[i].id == f.zones[j].id;
      return Some(BadZone(f.zones[j].name));
    }
    hide HasDomainSegment;
    for i := 0 to |f.zones|
      invariant forall k :: 0 <= k < i ==>
                  f.zones[k].id >= 1 && HasDomainSegment(f, f.zones[k].name, f.zones[k].primary)
    {
      var z := f.zones[i];
      if z.id < 1 || !HasDomainSegment(f, z.name, z.primary) {
        assert z in f.zones;
        return Some(BadZone(z.name));
      }
    }
    return None;
  }

  // ---- names, gateways and forward pairs -----------------------------------------------------

  method CheckNamesFit(f: Fabric) returns (r: Option<Refusal>)
    ensures r.None? <==> NamesFit(f)
  {
    for i := 0 to |f.segments|
      invariant forall k :: 0 <= k < i && f.segments[k].scope == Universal ==> |f.segments[k].ifname| <= MAX_BOND_IFNAME
    {
      var s := f.segments[i];
      if s.scope == Universal && |s.ifname| > MAX_BOND_IFNAME {
        assert s in f.segments;
        return Some(LongName(s.ifname));
      }
    }
    return None;
  }

  method CheckGateway(f: Fabric, g: Gateway) returns (ok: bool)
    ensures ok <==> GatewayOk(f, g)
  {
    if g.scope.OnDomain? && g.scope.domain !in f.domains {
      return false;
    }
    for i := 0 to |f.segments|
      invariant forall k :: 0 <= k < i ==> f.segments[k].vid != g.vid
    {
      if f.segments[i].vid == g.vid {
        assert f.segments[i] in f.segments;
        return false;
      }
    }
    for i := 0 to |f.members|
      invariant forall k :: 0 <= k < i ==> f.members[k].node != g.octet
    {
      if f.members[i].node == g.octet {
        assert f.members[i] in f.members;
        return false;
      }
    }
    return true;
  }

  method CheckGateways(f: Fabric) returns (r: Option<Refusal>)
    ensures r.None? <==> GatewaysOk(f)
  {
    hide GatewayOk;
    for i := 0 to |f.zones|
      invariant forall k :: 0 <= k < i && f.zones[k].gw.Some? ==> GatewayOk(f, f.zones[k].gw.value)
    {
      var z := f.zones[i];
      if z.gw.Some? {
        var ok := CheckGateway(f, z.gw.value);
        if !ok {
          assert z in f.zones;
          return Some(BadGateway(z.name));
        }
      }
    }
    return None;
  }

  method CheckForward(f: Fabric) returns (r: Option<Refusal>)
    ensures r.None? <==> ForwardOk(f)
  {
    hide ZoneNamed;
    for i := 0 to |f.forwardAllow|
      invariant forall k :: 0 <= k < i ==>
                  ZoneNamed(f.zones, f.forwardAllow[k].0).Some? && ZoneNamed(f.zones, f.forwardAllow[k].1).Some?
    {
      var p := f.forwardAllow[i];
      if ZoneNamed(f.zones, p.0).None? || ZoneNamed(f.zones, p.1).None? {
        assert p in f.forwardAllow;
        return Some(BadForward(p.0, p.1));
      }
    }
    return None;
  }

  // ---- preference overrides ------------------------------------------------------------------

  method AreWires(m: Member, order: seq<string>) returns (ok: bool)
    ensures ok <==> forall n :: n in order ==> WireNamed(m.wires, n).Some?
  {
    for i := 0 to |order|
      invariant forall k :: 0 <= k < i ==> WireNamed(m.wires, order[k]).Some?
    {
      if WireNamed(m.wires, order[i]).None? {
        assert order[i] in order;
        return false;
      }
    }
    return true;
  }

  /** The same names, each once. */
  method IsWhole(order: seq<string>, names: seq<string>) returns (ok: bool)
    ensures ok <==> Distinct(order) && forall n :: n in order <==> n in names
  {
    var twice := Dup(order);
    if twice.Some? {
      return false;
    }
    var want := set n | n in names;
    var got := set n | n in order;
    if got == want {
      forall n
        ensures n in order <==> n in names
      {
        assert n in got <==> n in want;
      }
    }
    return got == want;
  }

  /** One override is the complete order of its member and zone, each wire once. */
  method CheckPref(f: Fabric, p: WirePref, m: Member) returns (ok: bool)
    requires m in f.members && m.name == p.member
    requires forall o :: o in f.members && o.name == p.member ==> o == m
    ensures ok <==> PrefOk(f, p)
  {
    var names := Names(Candidates(f, m.wires, p.zone));
    CandidatesAreWires(f, m, p.zone);
    PrefOkOf(f, p, m, names);
    hide PrefOk, Distinct;
    if ZoneNamed(f.zones, p.zone).None? {
      return false;
    }
    ok := AreWires(m, p.order);
    if ok {
      ok := IsWhole(p.order, names);
    }
  }

  lemma PrefOkOf(f: Fabric, p: WirePref, m: Member, names: seq<string>)
    requires m in f.members && m.name == p.member
    requires forall o :: o in f.members && o.name == p.member ==> o == m
    requires names == Names(Candidates(f, m.wires, p.zone))
    ensures PrefOk(f, p) <==>
              ZoneNamed(f.zones, p.zone).Some? && Distinct(p.order) && forall n :: n in p.order <==> n in names
  {
    hide Distinct, Candidates, ZoneNamed, Names;
  }

  lemma CandidatesAreWires(f: Fabric, m: Member, zone: string)
    ensures forall n :: n in Names(Candidates(f, m.wires, zone)) ==> WireNamed(m.wires, n).Some?
  {
    var cs := Candidates(f, m.wires, zone);
    forall n | n in Names(cs)
      ensures WireNamed(m.wires, n).Some?
    {
      var i :| 0 <= i < |cs| && Names(cs)[i] == n;
      assert cs[i] in cs;
    }
  }

  method CheckWirePrefs(f: Fabric) returns (r: Option<Refusal>)
    requires PrefsNested(f)
    requires forall i, j :: 0 <= i < j < |f.members| ==> f.members[i].name != f.members[j].name
    ensures r.None? <==> forall p :: p in f.prefs ==> PrefOk(f, p)
  {
    hide PrefOk;
    for i := 0 to |f.prefs|
      invariant forall k :: 0 <= k < i ==> PrefOk(f, f.prefs[k])
    {
      var p := f.prefs[i];
      assert p in f.prefs;
      var m :| m in f.members && m.name == p.member;
      var ok := CheckPref(f, p, m);
      if !ok {
        return Some(BadPref(p.member, p.zone));
      }
    }
    return None;
  }

  // ---- the gate ------------------------------------------------------------------------------

  ghost predicate MembersApart(f: Fabric) {
    forall i, j :: 0 <= i < j < |f.members| ==>
      f.members[i].name != f.members[j].name && f.members[i].node != f.members[j].node
  }

  /** What the checks before the last gate find, one by one. */
  ghost predicate RowsOk(f: Fabric) {
    && f.domains != [] && (forall m :: m in f.members ==> MemberOk(f, m))
    && SegmentDomainsOk(f) && PrimariesOk(f) && (forall d :: d in f.domains ==> Wired(f, d))
    && SegmentsApart(f.segments) && (forall s :: s in f.segments ==> ZoneNamed(f.zones, s.zone).Some?)
    && ZoneRowsOk(f) && MembersApart(f) && (forall p :: p in f.prefs ==> PrefOk(f, p))
  }

  lemma RowsAreDeclared(f: Fabric)
    ensures RowsOk(f) <==> DomainsOk(f) && ZonesOk(f) && Declared(f)
  {
    hide MemberOk, PrefOk, HasDomainSegment, ZoneNamed, WireOn;
  }

  method CheckRows(f: Fabric) returns (r: Option<Refusal>)
    requires PrefsNested(f)
    ensures r.None? <==> RowsOk(f)
  {
    hide MemberOk, SegmentDomainsOk, PrimariesOk, Wired, SegmentsApart, ZoneNamed, ZoneRowsOk, PrefOk, PrefsNested;
    if f.domains == [] {
      return Some(NoDomains);
    }
    r := CheckMembers(f);
    if r.Some? {
      return;
    }
    r := CheckSegmentDomains(f);
    if r.Some? {
      return;
    }
    r := CheckPrimaries(f);
    if r.Some? {
      return;
    }
    r := CheckUsed(f);
    if r.Some? {
      return;
    }
    r := CheckSegmentsApart(f.segments);
    if r.Some? {
      return;
    }
    r := CheckSegmentZones(f);
    if r.Some? {
      return;
    }
    r := CheckZones(f);
    if r.Some? {
      return;
    }
    r := CheckMemberNames(f);
    if r.Some? {
      return;
    }
    r := CheckWirePrefs(f);
  }

  /** The rows, then what hangs off them: bond names, forward pairs, gateways. */
  method CheckDeclared(f: Fabric) returns (r: Option<Refusal>)
    requires PrefsNested(f)
    ensures r.None? <==> RowsOk(f) && NamesFit(f) && GatewaysOk(f) && ForwardOk(f)
  {
    hide RowsOk, NamesFit, GatewaysOk, ForwardOk, PrefsNested;
    r := CheckRows(f);
    if r.Some? {
      return;
    }
    r := CheckNamesFit(f);
    if r.Some? {
      return;
    }
    r := CheckForward(f);
    if r.Some? {
      return;
    }
    r := CheckGateways(f);
  }

  /** Accepts exactly the valid fabrics. */
  method Validate(f: Fabric) returns (r: Option<Refusal>)
    requires Typed(f) && PrefsNested(f)
    ensures r.None? <==> Valid(f)
  {
    RowsAreDeclared(f);
    hide RowsOk, DomainsOk, ZonesOk, Declared, NamesFit, GatewaysOk, ForwardOk, CostModel.DerivedOk, Typed, PrefsNested;
    r := CheckDeclared(f);
    if r.Some? {
      return;
    }
    var d := CostModel.ValidateDerived(f);
    if d.Some? {
      r := Some(Derivation(d.value));
    }
  }
}
