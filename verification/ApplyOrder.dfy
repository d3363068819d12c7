/**
 The order of apply. On a host forwarding goes off, netdevs are built, the policy is loaded and read
 back, forwarding goes on, the bridge guard is loaded, and only then do gateway addresses appear. On a
 leaf, whose default flag stays as it is, netdevs are built and turned off one by one and nothing goes on.
 Every state a run passes through keeps that, wherever it stops.
 */
module ApplyOrder {
  import opened Wrappers
  import opened BondLeg

  // ---- what a run changes --------------------------------------------------------------------

  datatype Effect =
    | DefaultOff
    | Forward(ifname: string, on: bool)
    | Build(ifname: string)
    | LoadPolicy
    | ReadBack(isDrop: bool)
    | UnloadPolicy
    | ForgetPolicy
    | LoadGuard
    | AddGateway(leg: string)
    | RoutingStep

  /**
   `fwd` is the forwarding flag of every netdev of cfab's that is there, `proven` whether this run
   read its policy back as drop, `switched` the netdevs it wrote forwarding=1 on.
   */
  datatype Host = Host(
    defaultOn: bool,
    fwd: map<string, bool>,
    loaded: bool,
    proven: bool,
    guarded: bool,
    built: set<string>,
    switched: set<string>,
    gateways: set<string>)

  /** The effect on the host; a new netdev starts with the default flag. */
  function After(h: Host, e: Effect): Host {
    match e
    case DefaultOff => h.(defaultOn := false)
    case Forward(i, on) => h.(fwd := h.fwd[i := on], switched := if on then h.switched + {i} else h.switched)
    case Build(i) => h.(fwd := if i in h.fwd then h.fwd else h.fwd[i := h.defaultOn], built := h.built + {i})
    case LoadPolicy => h.(loaded := true)
    case ReadBack(isDrop) => h.(proven := h.loaded && isDrop)
    case UnloadPolicy => h.(loaded := false, proven := false)
    case ForgetPolicy => h
    case RoutingStep => h
    case LoadGuard => h.(guarded := true)
    case AddGateway(leg) => h.(gateways := h.gateways + {leg})
  }

  /** A sysctl of a netdev that is not there cannot be written, nor an address put on it. */
  predicate Possible(h: Host, e: Effect) {
    match e
    case Forward(i, _) => i in h.fwd
    case AddGateway(leg) => leg in h.fwd
    case _ => true
  }

  /** What every state after the sysctl pass keeps. */
  ghost predicate FailClosed(h: Host) {
    && !h.defaultOn
    && (forall i :: i in h.fwd && h.fwd[i] ==> h.proven && i in h.switched)
    && h.switched <= h.built
    && (h.gateways != {} ==> h.guarded)
  }

  /** What every state of a leaf's run keeps: nothing was ever switched on. */
  ghost predicate NothingOpened(h: Host) {
    h.switched == {} && h.gateways == {}
  }

  // ---- the plan ------------------------------------------------------------------------------

  datatype ClassLeg = ClassLeg(wire: string, ifname: string)

  datatype MigratingLeg = MigratingLeg(ifname: string, migrates: bool, ports: seq<Port>, home: string)

  datatype Plan = Plan(
    identities: seq<string>,
    classes: seq<ClassLeg>,
    gws: seq<MigratingLeg>,
    fallbacks: seq<MigratingLeg>,
    workloads: seq<string>,
    absent: set<string>,
    routingSteps: nat,
    guardRules: nat,
    hostForward: bool,
    hasUplinks: bool)

  predicate IsBuilt(l: MigratingLeg, absent: set<string>) {
    LegWasBuilt(l.migrates, l.ports, l.home, absent)
  }

  /** The netdevs that carry transit: what is on a wire that is there, and the ready workload legs. */
  predicate Transit(p: Plan, i: string) {
    || (exists c :: c in p.classes && c.ifname == i && c.wire !in p.absent)
    || (exists l :: l in p.gws && l.ifname == i && IsBuilt(l, p.absent))
    || (exists l :: l in p.fallbacks && l.ifname == i && IsBuilt(l, p.absent))
    || i in p.workloads
  }

  /** A fallback leg is always a bond, and a workload row has an uplink to guard. */
  predicate WellFormed(p: Plan) {
    && (forall l :: l in p.fallbacks ==> l.migrates)
    && (p.workloads != [] ==> p.hasUplinks)
  }

  class Apply {
    /** Whether this member is a leaf. */
    const leaf: bool
    /** Whether the n-th effect takes place when it is possible. */
    const works: nat -> bool
    var issued: nat
    var host: Host
    /** The states since the sysctl pass; since the start on a leaf, which has none. */
    ghost var seen: seq<Host>

    ghost predicate Safe(h: Host) {
      if leaf then NothingOpened(h) else FailClosed(h)
    }

    ghost predicate Kept()
      reads this
    {
      Safe(host) && forall i :: 0 <= i < |seen| ==> Safe(seen[i])
    }

    ghost predicate AllWork(from: nat) {
      forall n: nat :: n >= from ==> works(n)
    }

    constructor (leaf: bool, works: nat -> bool, host: Host)
      ensures this.leaf == leaf && this.works == works && this.host == host && seen == [] && issued == 0
    {
      this.leaf, this.works, this.host, seen, issued := leaf, works, host, [], 0;
    }

    method Do(e: Effect) returns (ok: bool)
      modifies this
      ensures ok <==> works(old(issued)) && Possible(old(host), e)
      ensures host == if ok then After(old(host), e) else old(host)
      ensures seen == old(seen) + [host] && issued == old(issued) + 1
    {
      ok := works(issued) && Possible(host, e);
      if ok {
        host := After(host, e);
      }
      issued := issued + 1;
      seen := seen + [host];
    }

    /** Forwarding off by default and on every netdev of cfab's; from here on the run fails closed. */
    method SysctlPass(listed: seq<string>) returns (ok: bool)
      requires !leaf && forall i :: i in host.fwd ==> i in listed
      requires host.switched == {} && host.gateways == {} && seen == []
      modifies this
      ensures host.switched == {} && host.gateways == {} && host.built == old(host).built
      ensures ok ==> Kept()
      ensures ok ==> forall i :: i in host.fwd ==> !host.fwd[i]
      ensures issued >= old(issued) && (AllWork(old(issued)) ==> ok)
    {
      ok := Do(DefaultOff);
      if !ok {
        return;
      }
      for k := 0 to |listed|
        invariant host.switched == {} && host.gateways == {} && host.built == old(host).built && !host.defaultOn
        invariant host.fwd.Keys == old(host).fwd.Keys && issued >= old(issued)
        invariant forall j :: 0 <= j < k && listed[j] in host.fwd ==> !host.fwd[listed[j]]
      {
        if listed[k] in host.fwd {
          ok := Do(Forward(listed[k], false));
          if !ok {
            return;
          }
        }
      }
      forall i | i in host.fwd
        ensures !host.fwd[i]
      {
        assert i in listed;
      }
      seen := [];
      return true;
    }

    /** A step that keeps a safe state safe. */
    method Keep(e: Effect) returns (ok: bool)
      requires Kept() && (Possible(host, e) ==> Safe(After(host, e)))
      modifies this
      ensures Kept() && old(seen) <= seen
      ensures ok <==> works(old(issued)) && Possible(old(host), e)
      ensures host == if ok then After(old(host), e) else old(host)
      ensures issued == old(issued) + 1
    {
      ok := Do(e);
    }

    method Make(i: string) returns (ok: bool)
      requires Kept()
      modifies this
      ensures Kept() && old(seen) <= seen && host == if ok then After(old(host), Build(i)) else old(host)
      ensures issued == old(issued) + 1 && ok == works(old(issued))
    {
      ok := Keep(Build(i));
    }

    method TurnOff(i: string) returns (ok: bool)
      requires Kept()
      modifies this
      ensures Kept() && old(seen) <= seen && (ok <==> works(old(issued)) && i in old(host).fwd)
      ensures issued == old(issued) + 1
      ensures host == if ok then After(old(host), Forward(i, false)) else old(host)
    {
      ok := Keep(Forward(i, false));
    }

    /** One netdev, built and then turned off whatever flag it came with. */
    method BuildOff(i: string) returns (ok: bool)
      requires Kept()
      modifies this
      ensures Kept() && old(seen) <= seen && OnlyBuilds(old(host), host, ok)
      ensures issued >= old(issued) && (AllWork(old(issued)) ==> ok)
      ensures ok ==> Off(host, i)
    {
      hide Safe, After, OnlyBuilds;
      BuildsNothing(host);
      ok := Make(i);
      if !ok {
        OnlyBuildsWeakens(host, host);
        return;
      }
      ghost var made := host;
      BuildsNothing(made);
      OnlyBuildsWeakens(made, made);
      MadeThen(old(host), i, made);
      ok := TurnOff(i);
      if ok {
        MadeAndOff(old(host), i, made);
      }
    }

    method BuildAll(names: seq<string>) returns (ok: bool)
      requires Kept()
      modifies this
      ensures Kept() && old(seen) <= seen && OnlyBuilds(old(host), host, ok)
      ensures issued >= old(issued) && (AllWork(old(issued)) ==> ok)
      ensures ok ==> forall i :: i in names ==> Off(host, i)
    {
      hide Safe, OnlyBuilds;
      BuildsNothing(host);
      for k := 0 to |names|
        invariant Kept() && old(seen) <= seen && OnlyBuilds(old(host), host, true) && issued >= old(issued)
        invariant forall j :: 0 <= j < k ==> Off(host, names[j])
      {
        ghost var was := host;
        ok := BuildOff(names[k]);
        BuildsOn(old(host), was, host, ok);
        if !ok {
          return;
        }
      }
      return true;
    }

    /** The class legs whose wire is there. */
    method BuildClasses(p: Plan) returns (ok: bool)
      requires Kept()
      modifies this
      ensures Kept() && old(seen) <= seen && OnlyBuilds(old(host), host, ok)
      ensures issued >= old(issued) && (AllWork(old(issued)) ==> ok)
      ensures ok ==> forall c :: c in p.classes && c.wire !in p.absent ==> Off(host, c.ifname)
    {
      hide Safe, OnlyBuilds;
      BuildsNothing(host);
      for k := 0 to |p.classes|
        invariant Kept() && old(seen) <= seen && OnlyBuilds(old(host), host, true) && issued >= old(issued)
        invariant forall j :: 0 <= j < k && p.classes[j].wire !in p.absent ==> Off(host, p.classes[j].ifname)
      {
        if p.classes[k].wire !in p.absent {
          ghost var was := host;
          ok := BuildOff(p.classes[k].ifname);
          BuildsOn(old(host), was, host, ok);
          if !ok {
            return;
          }
        }
      }
      return true;
    }

    /** The bond first, then its ports, and last the bond's own flag. */
    method BuildBond(bond: string, ports: seq<string>) returns (ok: bool)
      requires Kept()
      modifies this
      ensures Kept() && old(seen) <= seen && OnlyBuilds(old(host), host, ok)
      ensures issued >= old(issued) && (AllWork(old(issued)) ==> ok)
      ensures ok ==> Off(host, bond) && forall i :: i in ports ==> Off(host, i)
    {
      hide Safe, After, OnlyBuilds, Off;
      BuildsNothing(host);
      ok := Make(bond);
      if !ok {
        OnlyBuildsWeakens(host, host);
        return;
      }
      ghost var made := host;
      ok := BuildAll(ports);
      ghost var full := host;
      if !ok {
        MadeThen(old(host), bond, full);
        return;
      }
      OnlyBuildsWeakens(made, full);
      MadeThen(old(host), bond, full);
      ok := TurnOff(bond);
      if ok {
        MadeAndOff(old(host), bond, full);
      }
    }

    /** A host's ready workload legs; a new one starts with the default flag, which is off there. */
    method BuildWorkloads(legs: seq<string>) returns (ok: bool)
      requires Kept() && host.switched == {} && (leaf ==> legs == [])
      modifies this
      ensures Kept() && old(seen) <= seen && OnlyBuilds(old(host), host, ok)
      ensures issued >= old(issued) && (AllWork(old(issued)) ==> ok)
      ensures ok ==> forall i :: i in legs ==> Off(host, i)
    {
      for k := 0 to |legs|
        invariant Kept() && old(seen) <= seen && OnlyBuilds(old(host), host, true) && host.switched == {}
        invariant issued >= old(issued)
        invariant forall j :: 0 <= j < k ==> Off(host, legs[j])
      {
        ok := Keep(Build(legs[k]));
        if !ok {
          return;
        }
      }
      return true;
    }

    /** A leg over several wires is a bond over the ports that are there; another is one netdev. */
    method BuildLegs(legs: seq<MigratingLeg>, absent: set<string>) returns (ok: bool)
      requires Kept()
      modifies this
      ensures Kept() && old(seen) <= seen && OnlyBuilds(old(host), host, ok)
      ensures issued >= old(issued) && (AllWork(old(issued)) ==> ok)
      ensures ok ==> forall l :: l in legs && IsBuilt(l, absent) ==> Off(host, l.ifname)
    {
      hide Safe, IsBuilt, OnlyBuilds;
      BuildsNothing(host);
      for k := 0 to |legs|
        invariant Kept() && old(seen) <= seen && OnlyBuilds(old(host), host, true) && issued >= old(issued)
        invariant forall j :: 0 <= j < k && IsBuilt(legs[j], absent) ==> Off(host, legs[j].ifname)
      {
        ghost var was := host;
        ok := BuildLeg(legs[k], absent);
        BuildsOn(old(host), was, host, ok);
        if !ok {
          return;
        }
      }
      return true;
    }

    method BuildLeg(l: MigratingLeg, absent: set<string>) returns (ok: bool)
      requires Kept()
      modifies this
      ensures Kept() && old(seen) <= seen && OnlyBuilds(old(host), host, ok)
      ensures issued >= old(issued) && (AllWork(old(issued)) ==> ok)
      ensures ok && IsBuilt(l, absent) ==> Off(host, l.ifname)
    {
      hide Safe, IsBuilt, OnlyBuilds;
      BuiltMeans(l, absent);
      BuildsNothing(host);
      ok := true;
      if l.migrates {
        var kept := PresentPorts(l.ports, l.home, absent);
        if kept.Some? {
          ok := BuildBond(l.ifname, PortNames(kept.value.0));
        }
      } else if l.home !in absent {
        ok := BuildOff(l.ifname);
      }
    }

    /** Every netdev of the plan that can be there, none of them forwarding. */
    method BuildPass(p: Plan) returns (ok: bool)
      requires Kept() && host.switched == {} && (leaf ==> p.workloads == [])
      modifies this
      ensures Kept() && old(seen) <= seen && OnlyBuilds(old(host), host, ok)
      ensures issued >= old(issued) && (AllWork(old(issued)) ==> ok)
      ensures ok ==> forall i :: Transit(p, i) || i in p.identities ==> Off(host, i)
    {
      hide Safe, IsBuilt, OnlyBuilds;
      ghost var h0 := host;
      ok := BuildAll(p.identities);
      if !ok {
        return;
      }
      ghost var h1 := host;
      ok := BuildClasses(p);
      BuildsOn(h0, h1, host, ok);
      if !ok {
        return;
      }
      ghost var h2 := host;
      ok := BuildLegs(p.gws, p.absent);
      BuildsOn(h0, h2, host, ok);
      if !ok {
        return;
      }
      ghost var h3 := host;
      ok := BuildLegs(p.fallbacks, p.absent);
      BuildsOn(h0, h3, host, ok);
      if !ok {
        return;
      }
      ghost var h4 := host;
      ok := BuildWorkloads(p.workloads);
      BuildsOn(h0, h4, host, ok);
      if ok {
        StaysOff(h1, h2);
        StaysOff(h2, h3);
        StaysOff(h3, h4);
        StaysOff(h4, host);
      }
    }

    // -- forwarding --

    /** One netdev that this run built starts to forward, under a policy read back as drop. */
    method SwitchOn(i: string, ghost was: Host) returns (ok: bool)
      requires Kept() && !leaf && host.proven && i in host.built && OnlySwitches(was, host)
      modifies this
      ensures Kept() && old(seen) <= seen && OnlySwitches(was, host) && host.proven
      ensures host.built == old(host).built && host.gateways == old(host).gateways
      ensures host.switched == if ok then old(host).switched + {i} else old(host).switched
      ensures ok ==> i in host.fwd && host.fwd[i]
      ensures forall n :: n in old(host).fwd && old(host).fwd[n] ==> n in host.fwd && host.fwd[n]
      ensures forall n :: n in old(host).fwd ==> n in host.fwd
      ensures issued == old(issued) + 1 && (ok <==> works(old(issued)) && i in old(host).fwd)
    {
      ok := Keep(Forward(i, true));
    }

    method SwitchClasses(p: Plan, ghost was: Host) returns (ok: bool)
      requires Kept() && !leaf && host.proven && OnlySwitches(was, host)
      requires forall i :: Transit(p, i) ==> i in host.built
      modifies this
      ensures Kept() && old(seen) <= seen && OnlySwitches(was, host) && host.proven
      ensures host.built == old(host).built && old(host).switched <= host.switched
      ensures issued >= old(issued) && forall n :: n in old(host).fwd ==> n in host.fwd
      ensures AllWork(old(issued)) && TransitIsThere(p, old(host)) ==> ok
      ensures forall i :: i in host.switched ==> i in old(host).switched || Transit(p, i)
      ensures ok ==> forall c :: c in p.classes && c.wire !in p.absent ==> c.ifname in host.switched
    {
      hide Safe, IsBuilt, OnlySwitches;
      for k := 0 to |p.classes|
        invariant Kept() && old(seen) <= seen && OnlySwitches(was, host) && host.proven
        invariant host.built == old(host).built && old(host).switched <= host.switched
        invariant issued >= old(issued) && forall n :: n in old(host).fwd ==> n in host.fwd
        invariant forall i :: i in host.switched ==> i in old(host).switched || Transit(p, i)
        invariant forall j :: 0 <= j < k && p.classes[j].wire !in p.absent ==> p.classes[j].ifname in host.switched
      {
        var c := p.classes[k];
        if c.wire !in p.absent {
          assert c in p.classes && Transit(p, c.ifname);
          ok := SwitchOn(c.ifname, was);
          if !ok {
            return;
          }
        }
      }
      return true;
    }

    method SwitchLegs(p: Plan, legs: seq<MigratingLeg>, ghost was: Host) returns (ok: bool)
      requires Kept() && !leaf && host.proven && OnlySwitches(was, host)
      requires legs == p.gws || legs == p.fallbacks
      requires forall i :: Transit(p, i) ==> i in host.built
      modifies this
      ensures Kept() && old(seen) <= seen && OnlySwitches(was, host) && host.proven
      ensures host.built == old(host).built && old(host).switched <= host.switched
      ensures issued >= old(issued) && forall n :: n in old(host).fwd ==> n in host.fwd
      ensures AllWork(old(issued)) && TransitIsThere(p, old(host)) ==> ok
      ensures forall i :: i in host.switched ==> i in old(host).switched || Transit(p, i)
      ensures ok ==> forall l :: l in legs && IsBuilt(l, p.absent) ==> l.ifname in host.switched
    {
      hide Safe, IsBuilt, OnlySwitches;
      for k := 0 to |legs|
        invariant Kept() && old(seen) <= seen && OnlySwitches(was, host) && host.proven
        invariant host.built == old(host).built && old(host).switched <= host.switched
        invariant issued >= old(issued) && forall n :: n in old(host).fwd ==> n in host.fwd
        invariant forall i :: i in host.switched ==> i in old(host).switched || Transit(p, i)
        invariant forall j :: 0 <= j < k && IsBuilt(legs[j], p.absent) ==> legs[j].ifname in host.switched
      {
        var l := legs[k];
        if IsBuilt(l, p.absent) {
          assert l in legs && Transit(p, l.ifname);
          ok := SwitchOn(l.ifname, was);
          if !ok {
            return;
          }
        }
      }
      return true;
    }

    method SwitchWorkloads(p: Plan, ghost was: Host) returns (ok: bool)
      requires Kept() && !leaf && host.proven && OnlySwitches(was, host)
      requires forall i :: Transit(p, i) ==> i in host.built
      modifies this
      ensures Kept() && old(seen) <= seen && OnlySwitches(was, host) && host.proven
      ensures host.built == old(host).built && old(host).switched <= host.switched
      ensures issued >= old(issued) && forall n :: n in old(host).fwd ==> n in host.fwd
      ensures AllWork(old(issued)) && TransitIsThere(p, old(host)) ==> ok
      ensures forall i :: i in host.switched ==> i in old(host).switched || Transit(p, i)
      ensures ok ==> forall i :: i in p.workloads ==> i in host.switched
    {
      hide Safe, IsBuilt, OnlySwitches;
      for k := 0 to |p.workloads|
        invariant Kept() && old(seen) <= seen && OnlySwitches(was, host) && host.proven
        invariant host.built == old(host).built && old(host).switched <= host.switched
        invariant issued >= old(issued) && forall n :: n in old(host).fwd ==> n in host.fwd
        invariant forall i :: i in host.switched ==> i in old(host).switched || Transit(p, i)
        invariant forall j :: 0 <= j < k ==> p.workloads[j] in host.switched
      {
        assert p.workloads[k] in p.workloads && Transit(p, p.workloads[k]);
        ok := SwitchOn(p.workloads[k], was);
        if !ok {
          return;
        }
      }
      return true;
    }

    /** Load the policy, read it back, and only then let exactly the transit netdevs forward. */
    method EnableForwarding(p: Plan, readBack: bool) returns (ok: bool)
      requires Kept() && !leaf && host.switched == {} && forall i :: Transit(p, i) ==> i in host.built
      modifies this
      ensures Kept() && old(seen) <= seen
      ensures host.gateways == old(host).gateways && host.guarded == old(host).guarded
      ensures ok ==> readBack && host.proven && forall i :: i in host.switched <==> Transit(p, i)
      ensures issued >= old(issued) && forall n :: n in old(host).fwd ==> n in host.fwd
      ensures AllWork(old(issued)) && TransitIsThere(p, old(host)) ==> ok == readBack
    {
      ok := Keep(LoadPolicy);
      if !ok {
        return;
      }
      ok := Keep(ReadBack(readBack));
      if !ok || !readBack {
        return false;
      }
      ghost var was := host;
      hide Safe, IsBuilt;
      ok := SwitchClasses(p, was);
      if !ok {
        return;
      }
      ok := SwitchLegs(p, p.gws, was);
      if !ok {
        return;
      }
      ok := SwitchLegs(p, p.fallbacks, was);
      if !ok {
        return;
      }
      ok := SwitchWorkloads(p, was);
    }

    // -- the run --

    /** The return-path rules and the host default, which touch no flag, policy or address of a leg. */
    method RoutingPass(steps: nat) returns (ok: bool)
      requires Kept()
      modifies this
      ensures Kept() && old(seen) <= seen && host == old(host)
      ensures issued >= old(issued) && (AllWork(old(issued)) ==> ok)
    {
      for k := 0 to steps
        invariant Kept() && old(seen) <= seen && host == old(host) && issued >= old(issued)
      {
        ok := Keep(RoutingStep);
        if !ok {
          return;
        }
      }
      return true;
    }

    /** The gateway addresses, one per ready workload leg, behind the guard. */
    method AddGateways(legs: seq<string>) returns (ok: bool)
      requires Kept() && (legs != [] ==> host.guarded && !leaf)
      modifies this
      ensures Kept() && old(seen) <= seen && host.fwd == old(host).fwd && host.built == old(host).built
      ensures host.switched == old(host).switched && host.proven == old(host).proven
      ensures ok ==> forall l :: l in legs ==> l in host.gateways
      ensures AllWork(old(issued)) && (forall l :: l in legs ==> l in old(host).fwd) ==> ok
    {
      for k := 0 to |legs|
        invariant Kept() && old(seen) <= seen && (legs != [] ==> host.guarded)
        invariant host.fwd == old(host).fwd && host.built == old(host).built && issued >= old(issued)
        invariant host.switched == old(host).switched && host.proven == old(host).proven
        invariant forall j :: 0 <= j < k ==> legs[j] in host.gateways
      {
        ok := Keep(AddGateway(legs[k]));
        if !ok {
          return;
        }
      }
      return true;
    }

    /**
     A whole apply. On a host every state after the sysctl pass fails closed, wherever the run stops, and a
     run that ends well forwards on exactly the transit netdevs, or on none. On a leaf no state has opened
     anything, and a run that ends well leaves every netdev it built off, whatever the default flag is.
     */
    method Run(p: Plan, listed: seq<string>, readBack: bool) returns (ok: bool, ghost passed: bool)
      requires WellFormed(p) && (leaf ==> p.workloads == []) && (forall i :: i in host.fwd ==> i in listed)
      requires host.switched == {} && host.gateways == {} && host.built == {} && seen == []
      modifies this
      ensures passed ==> Kept()
      ensures !passed ==> !ok && !leaf && host.switched == {} && host.gateways == {}
      ensures ok && !leaf && p.hostForward ==>
                readBack && host.proven && forall i :: i in host.switched <==> Transit(p, i)
      ensures ok && !leaf && !p.hostForward ==> host.switched == {}
      ensures ok && leaf ==> forall i :: i in host.built ==> Off(host, i)
      ensures ok && leaf ==> forall i :: Transit(p, i) || i in p.identities ==> Off(host, i)
      ensures ok && leaf ==> forall i :: i in host.fwd && host.fwd[i] ==> i in old(host).fwd && old(host).fwd[i]
      ensures ok ==> forall l :: l in p.workloads ==> l in host.gateways
      ensures AllWork(old(issued)) ==> (ok <==> leaf || !p.hostForward || readBack)
    {
      assert forall l :: l in p.workloads ==> Transit(p, l);
      passed := leaf;
      if !leaf {
        ok := SysctlPass(listed);
        if !ok {
          return;
        }
        passed := true;
      }
      hide FailClosed, IsBuilt, Transit;
      ok := BuildPass(p);
      if !ok {
        return;
      }
      ok := RoutingPass(p.routingSteps);
      if !ok {
        return;
      }
      if leaf {
        ok := RoutingPass(p.guardRules);
      } else if p.hostForward {
        ok := EnableForwarding(p, readBack);
      } else {
        ok := Unload();
      }
      if !ok {
        return;
      }
      if p.hasUplinks {
        ok := Guard();
        if !ok {
          return;
        }
      }
      ok := AddGateways(p.workloads);
    }

    /** The policy goes, which is not checked, and then what was kept of it. */
    method Unload() returns (ok: bool)
      requires Kept() && !leaf && host.switched == {}
      modifies this
      ensures Kept() && old(seen) <= seen && host.switched == {}
      ensures host.gateways == old(host).gateways && host.fwd == old(host).fwd
      ensures issued >= old(issued) && (AllWork(old(issued)) ==> ok)
    {
      var gone := Keep(UnloadPolicy);
      ok := Keep(ForgetPolicy);
    }

    method Guard() returns (ok: bool)
      requires Kept()
      modifies this
      ensures Kept() && old(seen) <= seen && (ok ==> host.guarded)
      ensures host.fwd == old(host).fwd && host.built == old(host).built
      ensures host.switched == old(host).switched && host.proven == old(host).proven
      ensures host.gateways == old(host).gateways
      ensures issued >= old(issued) && (AllWork(old(issued)) ==> ok)
    {
      ok := Keep(LoadGuard);
    }
  }

  ghost predicate TransitIsThere(p: Plan, h: Host) {
    forall i :: Transit(p, i) ==> i in h.fwd
  }

  predicate Off(h: Host, i: string) {
    i in h.built && i in h.fwd && !h.fwd[i]
  }

  /**
   Only netdevs are added. When all went well, or new netdevs start off, no flag is on that was not, and
   when all went well everything added is off.
   */
  ghost predicate OnlyBuilds(h: Host, h': Host, ok: bool) {
    && h'.switched == h.switched && h'.proven == h.proven && h'.loaded == h.loaded
    && h'.guarded == h.guarded && h'.gateways == h.gateways && h'.defaultOn == h.defaultOn
    && h.built <= h'.built && (forall n :: n in h.fwd ==> n in h'.fwd)
    && (ok || !h.defaultOn ==> forall n :: n in h'.fwd && h'.fwd[n] ==> n in h.fwd && h.fwd[n])
    && (ok ==> forall i :: i in h'.built && i !in h.built ==> Off(h', i))
  }

  lemma BuildsNothing(h: Host)
    ensures OnlyBuilds(h, h, true)
  {
  }

  lemma BuildsOn(h0: Host, h1: Host, h2: Host, ok: bool)
    requires OnlyBuilds(h0, h1, true) && OnlyBuilds(h1, h2, ok)
    ensures OnlyBuilds(h0, h2, ok)
    ensures ok ==> forall i :: Off(h1, i) ==> Off(h2, i)
  {
  }

  lemma OnlyBuildsWeakens(h: Host, h': Host)
    requires OnlyBuilds(h, h', true)
    ensures OnlyBuilds(h, h', false)
  {
  }

  /** A netdev that was made and not turned off, with others after it. */
  lemma MadeThen(h: Host, i: string, h': Host)
    requires OnlyBuilds(After(h, Build(i)), h', false)
    ensures OnlyBuilds(h, h', false) && i in h'.fwd
  {
  }

  /** A netdev that was made, with others after it, and turned off. */
  lemma MadeAndOff(h: Host, i: string, h': Host)
    requires OnlyBuilds(After(h, Build(i)), h', true)
    ensures var t := After(h', Forward(i, false));
            OnlyBuilds(h, t, true) && Off(t, i) && forall n :: Off(h', n) ==> Off(t, n)
  {
  }

  lemma StaysOff(h: Host, h': Host)
    requires OnlyBuilds(h, h', true)
    ensures forall i :: Off(h, i) ==> Off(h', i)
  {
  }

  /** Only flags go on. */
  ghost predicate OnlySwitches(h: Host, h': Host) {
    && h'.proven == h.proven && h'.guarded == h.guarded && h'.gateways == h.gateways && h'.built == h.built
  }

  function PortNames(ports: seq<Port>): seq<string> {
    seq(|ports|, i requires 0 <= i < |ports| => ports[i].ifname)
  }

  lemma BuiltMeans(l: MigratingLeg, absent: set<string>)
    ensures IsBuilt(l, absent) <==>
              if l.migrates then PresentPorts(l.ports, l.home, absent).Some? else l.home !in absent
  {
  }
}
