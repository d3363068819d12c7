/**
 A migrating leg: an active-backup bond over one tagged sub-interface of every wire. Building it
 refuses what is not its own, converges, and is quiet when there is nothing to do.
 */
module BondLeg {
  import opened Wrappers

  // ---- the netdevs of a host -----------------------------------------------------------------

  /** The parameters a bond is created with and checked for, in sysfs spelling. */
  datatype BondParams = BondParams(
    mode: string,
    miimon: string,
    updelay: string,
    numGratArp: string,
    failOverMac: string)

  const DECLARED: BondParams := BondParams("active-backup", "100", "500", "3", "none")

  datatype Kind =
    | Bond(params: BondParams, primary: Option<string>, reselect: Option<string>)
    | Vlan(lower: string, vid: nat)
    | Stranger

  /** The per-interface settings the build writes; a new netdev starts with the host's defaults. */
  datatype Sysctls = Sysctls(arpIgnore: string, rpFilter: string, sendRedirects: string, forwarding: string)

  datatype Link = Link(kind: Kind, master: Option<string>, up: bool, addrs: set<string>, sysctls: Sysctls)

  datatype Command = AddLink(name: string) | DeleteLink(name: string) | Enslave(name: string) | Adjust(name: string)

  datatype Port = Port(ifname: string, wire: string)

  datatype Leg = Leg(ifname: string, vid: nat, home: string, ports: seq<Port>, cidr: string)

  // ---- which ports a member has --------------------------------------------------------------

  function Kept(ports: seq<Port>, absent: set<string>): seq<Port> {
    if ports == [] then []
    else (if ports[0].wire in absent then [] else [ports[0]]) + Kept(ports[1..], absent)
  }

  /** The ports on wires that are there, and the home wire or the first survivor in its place. */
  function PresentPorts(ports: seq<Port>, home: string, absent: set<string>): Option<(seq<Port>, string)> {
    var kept := Kept(ports, absent);
    if kept == [] then None
    else Some((kept, if home in absent then kept[0].wire else home))
  }

  function LegWasBuilt(migrates: bool, ports: seq<Port>, home: string, absent: set<string>): bool {
    if migrates then PresentPorts(ports, home, absent).Some? else home !in absent
  }

  lemma {:induction false} KeptHas(ports: seq<Port>, absent: set<string>, s: Port)
    ensures s in Kept(ports, absent) <==> s in ports && s.wire !in absent
  {
    if ports != [] {
      KeptHas(ports[1..], absent, s);
      assert s in ports <==> s == ports[0] || s in ports[1..];
    }
  }

  predicate HasHome(ports: seq<Port>, home: string) {
    exists s :: s in ports && s.wire == home
  }

  /**
   A migrating leg is built exactly when some wire under it is there, on exactly those wires, and
   the home it is given always carries a port of it.
   */
  lemma PresentPortsAreBuildable(ports: seq<Port>, home: string, absent: set<string>)
    requires HasHome(ports, home)
    ensures PresentPorts(ports, home, absent).Some? <==> exists s :: s in ports && s.wire !in absent
    ensures var r := PresentPorts(ports, home, absent);
            r.Some? ==> && HasHome(r.value.0, r.value.1)
                        && (home !in absent ==> r.value.1 == home)
                        && (forall s :: s in r.value.0 <==> s in ports && s.wire !in absent)
  {
    forall s
      ensures s in Kept(ports, absent) <==> s in ports && s.wire !in absent
    {
      KeptHas(ports, absent, s);
    }
    var kept := Kept(ports, absent);
    if kept != [] {
      assert kept[0] in kept;
      if home !in absent {
        var s :| s in ports && s.wire == home;
        assert s in kept;
      }
    } else {
      forall s | s in ports
        ensures s.wire in absent
      {
        assert s !in kept;
      }
    }
  }

  /** The first port on the home wire. */
  function HomePort(ports: seq<Port>, home: string): (r: Option<Port>)
    ensures r.Some? <==> HasHome(ports, home)
    ensures r.Some? ==> r.value in ports && r.value.wire == home
  {
    if ports == [] then None
    else if ports[0].wire == home then
      assert ports[0] in ports;
      Some(ports[0])
    else
      assert forall s :: s in ports <==> s == ports[0] || s in ports[1..];
      HomePort(ports[1..], home)
  }

  // ---- what a built leg is -------------------------------------------------------------------

  /** Bond and ports have names of their own, and no port is stacked on another netdev of the leg. */
  predicate WellNamed(leg: Leg) {
    && (forall i, j :: 0 <= i < j < |leg.ports| ==> leg.ports[i].ifname != leg.ports[j].ifname)
    && (forall s :: s in leg.ports ==> s.ifname != leg.ifname)
    && (forall s, t :: s in leg.ports && t in leg.ports ==> s.ifname != t.wire)
  }

  predicate IsOurVlan(l: Link, s: Port, vid: nat) {
    l.kind == Vlan(s.wire, vid)
  }

  predicate PortBuilt(links: map<string, Link>, bond: string, s: Port, vid: nat) {
    && s.ifname in links && IsOurVlan(links[s.ifname], s, vid) && links[s.ifname].master == Some(bond)
    && links[s.ifname].up && links[s.ifname].sysctls.forwarding == "0"
  }

  predicate ClassSysctls(l: Link) {
    l.sysctls == Sysctls("1", "2", "0", "0")
  }

  predicate BondBuilt(links: map<string, Link>, leg: Leg) {
    && leg.ifname in links && HomePort(leg.ports, leg.home).Some?
    && links[leg.ifname].kind == Bond(DECLARED, Some(HomePort(leg.ports, leg.home).value.ifname), Some("always"))
    && Addressed(links[leg.ifname], leg.cidr)
  }

  predicate Addressed(l: Link, cidr: string) {
    cidr in l.addrs && l.up && ClassSysctls(l)
  }

  predicate Built(links: map<string, Link>, leg: Leg) {
    BondBuilt(links, leg) && forall s :: s in leg.ports ==> PortBuilt(links, leg.ifname, s, leg.vid)
  }

  /** The netdevs left after `name` goes: what was stacked on it goes too, its ports are released. */
  function WithoutLink(links: map<string, Link>, name: string): map<string, Link> {
    map n | n in links && n != name && !(links[n].kind.Vlan? && links[n].kind.lower == name) ::
      if links[n].master == Some(name) then links[n].(master := None) else links[n]
  }

  /** Neither part of the leg nor stacked on, or a port of, one of its ports. */
  predicate Apart(links: map<string, Link>, leg: Leg, n: string) {
    n in links && n != leg.ifname
    && forall s :: s in leg.ports ==>
         s.ifname != n && links[n].kind != Vlan(s.ifname, VidOf(links[n])) && links[n].master != Some(s.ifname)
  }

  function VidOf(l: Link): nat {
    if l.kind.Vlan? then l.kind.vid else 0
  }

  /** Everything but `name` and what was on top of it is there; a released port only lost its master. */
  ghost predicate KeepsOthers(before: map<string, Link>, after: map<string, Link>, name: string) {
    && (forall n :: n in before && n != name && NotOn(before, n, name) ==> n in after)
    && (forall n :: n in after && n != name ==>
          && n in before
          && (after[n] == before[n] || (before[n].master == Some(name) && after[n] == before[n].(master := None))))
  }

  /** The netdevs apart from the leg are as they were. */
  ghost predicate ApartKept(before: map<string, Link>, after: map<string, Link>, leg: Leg) {
    forall n :: Apart(before, leg, n) ==> n in after && after[n] == before[n]
  }

  lemma ApartStays(before: map<string, Link>, mid: map<string, Link>, after: map<string, Link>, leg: Leg, name: string)
    requires ApartKept(before, mid, leg) && KeepsOthers(mid, after, name)
    requires exists s :: s in leg.ports && s.ifname == name
    ensures ApartKept(before, after, leg)
  {
    var s :| s in leg.ports && s.ifname == name;
    forall n | Apart(before, leg, n)
      ensures n in after && after[n] == before[n]
    {
      assert n in mid && mid[n] == before[n] && n != s.ifname;
    }
  }

  lemma FinishKeepsApart(before: map<string, Link>, mid: map<string, Link>, after: map<string, Link>, leg: Leg)
    requires ApartKept(before, mid, leg)
    requires forall n :: n in mid && n != leg.ifname ==> n in after && after[n] == mid[n]
    ensures ApartKept(before, after, leg)
  {
  }

  /** No netdev of that name is on top of the other. */
  predicate NotOn(links: map<string, Link>, upper: string, lower: string) {
    upper in links ==> !(links[upper].kind.Vlan? && links[upper].kind.lower == lower)
  }

  /** The port can be made: it is ours and no other bond's, or its wire is there and does not go with it. */
  predicate PortCan(links: map<string, Link>, bond: string, s: Port, vid: nat) {
    if s.ifname in links && IsOurVlan(links[s.ifname], s, vid)
    then links[s.ifname].master.None? || links[s.ifname].master == Some(bond)
    else s.wire in links && (s.ifname in links ==> NotOn(links, s.wire, s.ifname))
  }

  /** Every wire is there, on none of the ports, and no port of ours is another bond's. */
  ghost predicate PortsCan(links: map<string, Link>, leg: Leg, from: nat) {
    forall j :: from <= j < |leg.ports| ==>
      && leg.ports[j].wire in links && (forall t :: t in leg.ports ==> NotOn(links, leg.ports[j].wire, t.ifname))
      && PortCan(links, leg.ifname, leg.ports[j], leg.vid)
  }

  /** A bond of that name is ours, or there is none, and the home is one of the wires. */
  predicate BondCan(links: map<string, Link>, leg: Leg, readable: bool) {
    && HasHome(leg.ports, leg.home)
    && (leg.ifname in links ==>
          readable && links[leg.ifname].kind.Bond? && links[leg.ifname].kind.params == DECLARED)
  }

  lemma PortsStillCan(before: map<string, Link>, after: map<string, Link>, leg: Leg, i: nat)
    requires WellNamed(leg) && i < |leg.ports| && KeepsOthers(before, after, leg.ports[i].ifname)
    requires PortsCan(before, leg, i)
    ensures PortsCan(after, leg, i + 1)
  {
    var s := leg.ports[i];
    assert s in leg.ports;
    forall j | i + 1 <= j < |leg.ports|
      ensures leg.ports[j].wire in after && (forall t :: t in leg.ports ==> NotOn(after, leg.ports[j].wire, t.ifname))
      ensures PortCan(after, leg.ifname, leg.ports[j], leg.vid)
    {
      var t := leg.ports[j];
      assert t in leg.ports && t.ifname != s.ifname && t.wire != s.ifname;
      assert NotOn(before, t.wire, s.ifname) && NotOn(before, t.wire, t.ifname);
      assert t.wire in after && after[t.wire].kind == before[t.wire].kind;
    }
  }

  predicate Quiet(cmds: seq<Command>) {
    forall c :: c in cmds ==> c.Adjust?
  }

  class Host {
    /** Whether the n-th command takes effect. */
    const works: nat -> bool
    const defaults: Sysctls
    var links: map<string, Link>
    var log: seq<Command>

    ghost predicate AllWork(from: nat) {
      forall n: nat :: n >= from ==> works(n)
    }

    constructor (works: nat -> bool, defaults: Sysctls, links: map<string, Link>)
      ensures this.works == works && this.defaults == defaults && this.links == links && log == []
    {
      this.works, this.defaults, this.links, this.log := works, defaults, links, [];
    }

    // -- the commands --

    method AddBond(name: string) returns (ok: bool)
      modifies this
      ensures log == old(log) + [AddLink(name)] && ok == (works(|old(log)|) && name !in old(links))
      ensures links ==
              if ok then old(links)[name := Link(Bond(DECLARED, None, None), None, false, {}, defaults)]
              else old(links)
    {
      ok := works(|log|) && name !in links;
      if ok {
        links := links[name := Link(Bond(DECLARED, None, None), None, false, {}, defaults)];
      }
      log := log + [AddLink(name)];
    }

    method AddVlan(name: string, lower: string, vid: nat) returns (ok: bool)
      modifies this
      ensures log == old(log) + [AddLink(name)]
      ensures ok == (works(|old(log)|) && name !in old(links) && lower in old(links))
      ensures links == if ok then old(links)[name := Link(Vlan(lower, vid), None, false, {}, defaults)] else old(links)
    {
      ok := works(|log|) && name !in links && lower in links;
      if ok {
        links := links[name := Link(Vlan(lower, vid), None, false, {}, defaults)];
      }
      log := log + [AddLink(name)];
    }

    method Delete(name: string) returns (ok: bool)
      modifies this
      ensures log == old(log) + [DeleteLink(name)] && ok == (works(|old(log)|) && name in old(links))
      ensures links == if ok then WithoutLink(old(links), name) else old(links)
    {
      ok := works(|log|) && name in links;
      if ok {
        links := WithoutLink(links, name);
      }
      log := log + [DeleteLink(name)];
    }

    method SetMaster(name: string, bond: string) returns (ok: bool)
      modifies this
      ensures log == old(log) + [Enslave(name)]
      ensures ok == (works(|old(log)|) && name in old(links) && bond in old(links) && old(links)[name].master.None?)
      ensures links == if ok then old(links)[name := old(links)[name].(master := Some(bond))] else old(links)
    {
      ok := works(|log|) && name in links && bond in links && links[name].master.None?;
      if ok {
        links := links[name := links[name].(master := Some(bond))];
      }
      log := log + [Enslave(name)];
    }

    /** A command or a sysctl write that sets attributes of a netdev that is there. */
    method Set(name: string, l: Link) returns (ok: bool)
      modifies this
      ensures log == old(log) + [Adjust(name)] && ok == (works(|old(log)|) && name in old(links))
      ensures links == if ok then old(links)[name := l] else old(links)
      ensures name in old(links) && l == old(links)[name] ==> links == old(links)
    {
      ok := works(|log|) && name in links;
      if ok {
        assert l == links[name] ==> links[name := l] == links;
        links := links[name := l];
      }
      log := log + [Adjust(name)];
    }

    // -- one port --

    /** A tagged sub-interface of `lower`; a netdev of that name that is not one is replaced. */
    method MkVlan(s: Port, vid: nat) returns (ok: bool)
      requires s.ifname != s.wire
      modifies this
      ensures old(log) <= log
      ensures ok ==> s.ifname in links && IsOurVlan(links[s.ifname], s, vid)
      ensures KeepsOthers(old(links), links, s.ifname)
      ensures AllWork(|old(log)|) ==>
                (ok <==> (s.ifname in old(links) && IsOurVlan(old(links)[s.ifname], s, vid))
                         || (s.wire in old(links) && (s.ifname in old(links) ==> NotOn(old(links), s.wire, s.ifname))))
      ensures ok && !(s.ifname in old(links) && IsOurVlan(old(links)[s.ifname], s, vid)) ==>
                links[s.ifname].master.None?
      ensures s.ifname in old(links) && IsOurVlan(old(links)[s.ifname], s, vid) ==>
                ok && links == old(links) && log == old(log)
    {
      if s.ifname in links && !IsOurVlan(links[s.ifname], s, vid) {
        ok := Delete(s.ifname);
        if !ok {
          return;
        }
      }
      if s.ifname !in links {
        ok := AddVlan(s.ifname, s.wire, vid);
        return;
      }
      return true;
    }

    /** The sub-interface made a port of `bond`, up, and not forwarding; a port of another is refused. */
    method AddBondPort(bond: string, s: Port, vid: nat) returns (ok: bool)
      requires s.ifname != s.wire && s.ifname != bond
      modifies this
      ensures old(log) <= log
      ensures ok ==> PortBuilt(links, bond, s, vid)
      ensures KeepsOthers(old(links), links, s.ifname)
      ensures PortBuilt(old(links), bond, s, vid) ==> links == old(links) && Quiet(log[|old(log)|..])
      ensures PortBuilt(old(links), bond, s, vid) && AllWork(|old(log)|) ==> ok
      ensures AllWork(|old(log)|) && bond in old(links) && old(links)[bond].kind.Bond? ==>
                (ok <==> PortCan(old(links), bond, s, vid))
    {
      ok := MkVlan(s, vid);
      if !ok {
        return;
      }
      var l := links[s.ifname];
      if l.master.Some? && l.master != Some(bond) {
        return false;
      }
      if l.master.None? {
        ok := SetMaster(s.ifname, bond);
        if !ok {
          return;
        }
      }
      ok := Set(s.ifname, links[s.ifname].(up := true));
      if !ok {
        return;
      }
      l := links[s.ifname];
      ok := Set(s.ifname, l.(sysctls := l.sysctls.(forwarding := "0")));
    }

    // -- the leg --

    /** The bond of that name: made when there is none, refused unless it is one with our parameters. */
    method MkBond(name: string, readable: bool) returns (ok: bool)
      modifies this
      ensures old(log) <= log
      ensures ok ==> name in links && links[name].kind.Bond? && links[name].kind.params == DECLARED
      ensures forall n :: n in old(links) ==> n in links && links[n] == old(links)[n]
      ensures name in old(links) ==>
                && links == old(links) && log == old(log)
                && ok == (readable && old(links)[name].kind.Bond? && old(links)[name].kind.params == DECLARED)
      ensures name !in old(links) ==> ok == works(|old(log)|)
      ensures forall n :: n in links && n != name ==> n in old(links)
    {
      if name in links {
        return links[name].kind.Bond? && readable && links[name].kind.params == DECLARED;
      }
      ok := AddBond(name);
    }

    /** `primary` names a port, so it is set once the ports are there. */
    method SetBondPrimary(bond: string, home: string) returns (ok: bool)
      requires bond in links && links[bond].kind.Bond?
      modifies this
      ensures log == old(log) + [Adjust(bond)] && ok == works(|old(log)|)
      ensures var l := old(links)[bond];
              links ==
              if ok then old(links)[bond := l.(kind := Bond(l.kind.params, Some(home), Some("always")))]
              else old(links)
      ensures old(links)[bond].kind == Bond(old(links)[bond].kind.params, Some(home), Some("always")) ==>
                links == old(links)
    {
      var l := links[bond];
      ok := Set(bond, l.(kind := l.kind.(primary := Some(home), reselect := Some("always"))));
    }

    /** Primary, address, segment sysctls, up. */
    method FinishBond(leg: Leg) returns (ok: bool)
      requires leg.ifname in links && links[leg.ifname].kind.Bond? && links[leg.ifname].kind.params == DECLARED
      modifies this
      ensures old(log) <= log && Quiet(log[|old(log)|..])
      ensures ok ==> BondBuilt(links, leg)
      ensures forall n :: n in old(links) && n != leg.ifname ==> n in links && links[n] == old(links)[n]
      ensures BondBuilt(old(links), leg) ==> links == old(links)
      ensures HasHome(leg.ports, leg.home) && AllWork(|old(log)|) ==> ok
    {
      hide HomePort;
      var home := HomePort(leg.ports, leg.home);
      if home.None? {
        return false;
      }
      ok := SetBondPrimary(leg.ifname, home.value.ifname);
      if !ok {
        return;
      }
      ok := AddressBond(leg);
    }

    /** The bond is the segment: its address, the segment sysctls, up. */
    method AddressBond(leg: Leg) returns (ok: bool)
      requires leg.ifname in links
      modifies this
      ensures old(log) <= log && Quiet(log[|old(log)|..])
      ensures ok ==> leg.ifname in links && links[leg.ifname].kind == old(links)[leg.ifname].kind
                     && Addressed(links[leg.ifname], leg.cidr)
      ensures forall n :: n in old(links) && n != leg.ifname ==> n in links && links[n] == old(links)[n]
      ensures Addressed(old(links)[leg.ifname], leg.cidr) ==> links == old(links)
      ensures AllWork(|old(log)|) ==> ok
    {
      var l := links[leg.ifname];
      assert leg.cidr in l.addrs ==> l.addrs + {leg.cidr} == l.addrs;
      ok := Set(leg.ifname, l.(addrs := l.addrs + {leg.cidr}));
      if !ok {
        return;
      }
      ok := SetClassSysctls(leg.ifname);
      if !ok {
        return;
      }
      ok := Set(leg.ifname, links[leg.ifname].(up := true));
    }

    method SetClassSysctls(name: string) returns (ok: bool)
      requires name in links
      modifies this
      ensures old(log) <= log && Quiet(log[|old(log)|..])
      ensures ok ==> name in links && ClassSysctls(links[name])
                     && links[name].(sysctls := old(links)[name].sysctls) == old(links)[name]
      ensures forall n :: n in old(links) && n != name ==> n in links && links[n] == old(links)[n]
      ensures ClassSysctls(old(links)[name]) ==> links == old(links)
      ensures AllWork(|old(log)|) ==> ok
    {
      var l := links[name];
      ok := Set(name, l.(sysctls := l.sysctls.(arpIgnore := "1")));
      if !ok {
        return;
      }
      l := links[name];
      ok := Set(name, l.(sysctls := l.sysctls.(rpFilter := "2")));
      if !ok {
        return;
      }
      l := links[name];
      ok := Set(name, l.(sysctls := l.sysctls.(sendRedirects := "0")));
      if !ok {
        return;
      }
      l := links[name];
      ok := Set(name, l.(sysctls := l.sysctls.(forwarding := "0")));
    }

    /**
     Build the leg. On success it is exactly as declared; on a refusal of the bond nothing is touched;
     over a leg already built nothing is added, deleted or enslaved and nothing changes.
     */
    method MkBondLeg(leg: Leg, readable: bool) returns (ok: bool)
      requires WellNamed(leg)
      modifies this
      ensures ok ==> Built(links, leg)
      ensures ApartKept(old(links), links, leg)
      ensures leg.ifname in old(links) && !(old(links)[leg.ifname].kind.Bond? && readable
                                            && old(links)[leg.ifname].kind.params == DECLARED) ==>
                !ok && links == old(links) && log == old(log)
      ensures old(log) <= log
      ensures Built(old(links), leg) ==> links == old(links) && Quiet(log[|old(log)|..])
      ensures Built(old(links), leg) && readable && AllWork(|old(log)|) ==> ok
      ensures AllWork(|old(log)|) && BondCan(old(links), leg, readable) && PortsCan(old(links), leg, 0) ==> ok
    {
      ok := MkBond(leg.ifname, readable);
      if !ok {
        return;
      }
      BondAside(old(links), links, leg);
      BuiltIsPorts(old(links), leg);
      hide ApartKept, ClassSysctls, HomePort, IsOurVlan, PortsCan, PortCan, BondBuilt, PortBuilt;
      ghost var bonded, begun := links, log;
      ok := AddPorts(leg);
      QuietConcat(log, |old(log)|, |begun|);
      ApartOn(old(links), bonded, links, leg);
      if !ok {
        return;
      }
      ghost var mid, logged := links, log;
      ok := FinishBond(leg);
      QuietConcat(log, |old(log)|, |logged|);
      FinishKeepsApart(old(links), mid, links, leg);
      if ok {
        PortsStay(mid, links, leg);
      }
    }

    /** The ports, one by one. */
    method AddPorts(leg: Leg) returns (ok: bool)
      requires WellNamed(leg)
      requires leg.ifname in links && links[leg.ifname].kind.Bond? && links[leg.ifname].kind.params == DECLARED
      modifies this
      ensures leg.ifname in links && links[leg.ifname].kind.Bond? && links[leg.ifname].kind.params == DECLARED
      ensures ok ==> PortsBuilt(links, leg, |leg.ports|)
      ensures ApartKept(old(links), links, leg) && old(log) <= log
      ensures PortsBuilt(old(links), leg, |leg.ports|) ==> links == old(links) && Quiet(log[|old(log)|..])
      ensures AllWork(|old(log)|) && PortsBuilt(old(links), leg, |leg.ports|) ==> ok
      ensures AllWork(|old(log)|) && PortsCan(old(links), leg, 0) ==> ok
    {
      ghost var start, begun := links, |log|;
      ghost var built, can := PortsBuilt(start, leg, |leg.ports|), PortsCan(start, leg, 0);
      hide ApartKept, PortBuilt, PortsBuilt, PortsCan, PortCan, KeepsOthers, WellNamed;
      NothingDone(start, leg);
      for i := 0 to |leg.ports|
        invariant leg.ifname in links && links[leg.ifname].kind.Bond? && links[leg.ifname].kind.params == DECLARED
        invariant ApartKept(start, links, leg) && begun <= |log| && log[..begun] == old(log)
        invariant PortsBuilt(links, leg, i)
        invariant built ==> links == start && Quiet(log[begun..])
        invariant can ==> PortsCan(links, leg, i)
      {
        var s := leg.ports[i];
        PortIsApart(leg, i);
        ghost var mid, logged := links, log;
        if built {
          PortBuiltAt(start, leg, i);
        }
        if PortsCan(mid, leg, i) {
          PortCanAt(mid, leg, i);
        }
        ok := AddBondPort(leg.ifname, s, leg.vid);
        PortStep(start, mid, links, leg, i);
        QuietConcat(log, begun, |logged|);
        assert log[..begun] == logged[..begun];
        if !ok {
          return;
        }
        OneMoreBuilt(links, leg, i);
      }
      return true;
    }
  }

  lemma NothingDone(links: map<string, Link>, leg: Leg)
    ensures ApartKept(links, links, leg) && PortsBuilt(links, leg, 0)
  {
  }

  lemma PortBuiltAt(links: map<string, Link>, leg: Leg, i: nat)
    requires PortsBuilt(links, leg, |leg.ports|) && i < |leg.ports|
    ensures PortBuilt(links, leg.ifname, leg.ports[i], leg.vid)
  {
  }

  lemma OneMoreBuilt(links: map<string, Link>, leg: Leg, i: nat)
    requires i < |leg.ports| && PortsBuilt(links, leg, i) && PortBuilt(links, leg.ifname, leg.ports[i], leg.vid)
    ensures PortsBuilt(links, leg, i + 1)
  {
  }

  /** What one port leaves for the next. */
  lemma PortStep(start: map<string, Link>, before: map<string, Link>, after: map<string, Link>, leg: Leg, i: nat)
    requires WellNamed(leg) && i < |leg.ports| && KeepsOthers(before, after, leg.ports[i].ifname)
    requires ApartKept(start, before, leg) && PortsBuilt(before, leg, i)
    requires leg.ifname in before && before[leg.ifname].kind.Bond?
    ensures ApartKept(start, after, leg) && PortsBuilt(after, leg, i)
    ensures leg.ifname in after && after[leg.ifname].kind == before[leg.ifname].kind
    ensures PortsCan(before, leg, i) ==> PortsCan(after, leg, i + 1)
  {
    assert leg.ports[i] in leg.ports;
    PortIsApart(leg, i);
    hide ApartKept, PortsBuilt, PortsCan, KeepsOthers, WellNamed;
    ApartStays(start, before, after, leg, leg.ports[i].ifname);
    BondStays(before, after, leg.ifname, leg.ports[i].ifname);
    EarlierPortsStay(before, after, leg, i);
    if PortsCan(before, leg, i) {
      PortsStillCan(before, after, leg, i);
    }
  }

  /** What follows the bond leaves apart what was apart before it. */
  lemma ApartOn(before: map<string, Link>, mid: map<string, Link>, after: map<string, Link>, leg: Leg)
    requires forall n :: n in before ==> n in mid && mid[n] == before[n]
    requires ApartKept(mid, after, leg)
    ensures ApartKept(before, after, leg)
  {
    forall n | Apart(before, leg, n)
      ensures n in after && after[n] == before[n]
    {
      assert Apart(mid, leg, n);
    }
  }

  ghost predicate PortsBuilt(links: map<string, Link>, leg: Leg, n: nat)
    requires n <= |leg.ports|
  {
    forall j :: 0 <= j < n ==> PortBuilt(links, leg.ifname, leg.ports[j], leg.vid)
  }

  lemma BuiltIsPorts(links: map<string, Link>, leg: Leg)
    ensures Built(links, leg) ==> PortsBuilt(links, leg, |leg.ports|) && BondBuilt(links, leg) && leg.ifname in links
  {
  }

  lemma PortIsApart(leg: Leg, i: nat)
    requires WellNamed(leg) && i < |leg.ports|
    ensures leg.ports[i].ifname != leg.ports[i].wire && leg.ports[i].ifname != leg.ifname
  {
    assert leg.ports[i] in leg.ports;
  }

  /** A bond is on top of nothing, so it stays when a port is replaced. */
  lemma BondStays(before: map<string, Link>, after: map<string, Link>, bond: string, name: string)
    requires KeepsOthers(before, after, name) && bond != name && bond in before && before[bond].kind.Bond?
    ensures bond in after && after[bond].kind == before[bond].kind
  {
  }

  lemma PortsStay(before: map<string, Link>, after: map<string, Link>, leg: Leg)
    requires WellNamed(leg) && forall n :: n in before && n != leg.ifname ==> n in after && after[n] == before[n]
    requires PortsBuilt(before, leg, |leg.ports|)
    ensures forall s :: s in leg.ports ==> PortBuilt(after, leg.ifname, s, leg.vid)
  {
    forall s | s in leg.ports
      ensures PortBuilt(after, leg.ifname, s, leg.vid)
    {
      var j :| 0 <= j < |leg.ports| && leg.ports[j] == s;
      assert PortBuilt(before, leg.ifname, s, leg.vid) && s.ifname != leg.ifname;
    }
  }

  lemma PortCanAt(links: map<string, Link>, leg: Leg, i: nat)
    requires PortsCan(links, leg, i) && i < |leg.ports|
    ensures PortCan(links, leg.ifname, leg.ports[i], leg.vid)
  {
  }

  /** Making the bond is aside from its ports. */
  lemma BondAside(before: map<string, Link>, after: map<string, Link>, leg: Leg)
    requires WellNamed(leg)
    requires forall n :: n in before ==> n in after && after[n] == before[n]
    requires forall n :: n in after && n != leg.ifname ==> n in before
    ensures PortsCan(before, leg, 0) ==> PortsCan(after, leg, 0)
  {
    if PortsCan(before, leg, 0) {
      forall j | 0 <= j < |leg.ports|
        ensures leg.ports[j].wire in after
        ensures forall t :: t in leg.ports ==> NotOn(after, leg.ports[j].wire, t.ifname)
        ensures PortCan(after, leg.ifname, leg.ports[j], leg.vid)
      {
        var s := leg.ports[j];
        assert s in leg.ports && s.wire in before && NotOn(before, s.wire, s.ifname);
      }
    }
  }

  lemma QuietConcat(log: seq<Command>, a: nat, b: nat)
    requires a <= b <= |log|
    ensures Quiet(log[a..]) <==> Quiet(log[a..b]) && Quiet(log[b..])
  {
    assert log[a..] == log[a..b] + log[b..];
  }

  /** Building one port leaves the ports built before it. */
  lemma EarlierPortsStay(before: map<string, Link>, after: map<string, Link>, leg: Leg, i: nat)
    requires WellNamed(leg) && i < |leg.ports| && KeepsOthers(before, after, leg.ports[i].ifname)
    requires PortsBuilt(before, leg, i)
    ensures PortsBuilt(after, leg, i)
  {
    forall j | 0 <= j < i
      ensures PortBuilt(after, leg.ifname, leg.ports[j], leg.vid)
    {
      var s, t := leg.ports[i], leg.ports[j];
      assert s in leg.ports && t in leg.ports;
      assert s.ifname != t.ifname && s.ifname != t.wire && s.ifname != leg.ifname;
    }
  }
}
