/**
 Installing, syncing and removing the host default one command at a time, any of which may fail:
 what every kernel state on the way keeps, and what is there at the end.
 */
module HostRules {
  import opened Wrappers
  import opened Prefixes
  import opened RoutingRules
  import opened HostDefault
  import opened RuleStore

  // ---- one kernel state ----------------------------------------------------------------------

  /** Table 250 is empty, or every floor address has its pin. */
  ghost predicate Safe(k: Kernel, floor: seq<Addr>) {
    Sorted(k.rules) && (TableOf(k.tables, OWN_TABLE) == [] || forall a :: a in floor ==> FloorRule(a) in k.rules)
  }

  /** Nothing but the five shapes and table 250 differs. */
  ghost predicate SameRest(k: Kernel, k0: Kernel) {
    Rest(k.rules) == Rest(k0.rules) && forall n: nat :: n != OWN_TABLE ==> TableOf(k.tables, n) == TableOf(k0.tables, n)
  }

  /** The kernel with the host default absent: its five shapes out, its table empty. */
  function Absent(k: Kernel): Kernel {
    Kernel(Rest(k.rules), k.tables[OWN_TABLE := []])
  }

  lemma OneIgnoresOwnTable(r: Rule, k: Kernel, k0: Kernel, p: Packet)
    requires r.action.LookupIn? ==> r.action.table != OWN_TABLE
    requires forall n: nat :: n != OWN_TABLE ==> TableOf(k.tables, n) == TableOf(k0.tables, n)
    ensures One(r, k.tables, p) == One(r, k0.tables, p)
  {
    hide Contains;
  }

  lemma {:induction false} LookupIgnoresOwnTable(rules: seq<Rule>, k: Kernel, k0: Kernel, p: Packet)
    requires OwnsTable(rules)
    requires forall n: nat :: n != OWN_TABLE ==> TableOf(k.tables, n) == TableOf(k0.tables, n)
    ensures Lookup(rules, k.tables, p) == Lookup(rules, k0.tables, p)
  {
    hide One;
    if rules != [] {
      assert rules[0] in rules;
      OneIgnoresOwnTable(rules[0], k, k0, p);
      LookupIgnoresOwnTable(rules[1..], k, k0, p);
    }
  }

  /**
   In a safe state a local packet from a floor address that main decides is routed differently than with the
   host default absent exactly when one of the shapes decides it, nothing in front does, and the rules past
   them say otherwise than main.
   */
  lemma SafeChangesExactly(k: Kernel, k0: Kernel, floor: seq<Addr>, p: Packet)
    requires Safe(k, floor) && SameRest(k, k0)
    requires p.iif == LO && p.src in floor && MainSays(k.tables, p).Some?
    requires OwnsTable(Rest(k0.rules)) && BandClear(Rest(k0.rules), k.tables, p)
    ensures Routed(k, p) != Routed(Absent(k0), p) <==>
              && Front(Rest(k0.rules), k.tables, p).None?
              && Tail(Rest(k0.rules), k.tables, p) != MainSays(k.tables, p)
              && exists r :: r in k.rules && Own(r) && One(r, k.tables, p).Some?
  {
    SitsOnRest(k.rules);
    if TableOf(k.tables, OWN_TABLE) != [] {
      FloorRuleIsFloor(p.src);
      FloorRuleSays(p.src, k.tables, p);
    }
    hide Lookup, TableVerdict, OwnsTable, One, Rest, Own, BandClear;
    if TableOf(k.tables, OWN_TABLE) == [] {
      EmptyChangesExactly(k.rules, Rest(k.rules), k.tables, p);
    } else {
      PinnedChangesExactly(k.rules, Rest(k.rules), k.tables, p);
    }
    LookupIgnoresOwnTable(Rest(k0.rules), k, Absent(k0), p);
  }

  /** With no other rule up to main's own deciding it, such a packet is routed as with the host default absent. */
  lemma SafeKeepsFloor(k: Kernel, k0: Kernel, floor: seq<Addr>, p: Packet)
    requires Safe(k, floor) && SameRest(k, k0)
    requires p.iif == LO && p.src in floor && MainSays(k.tables, p).Some?
    requires MainFirst(Rest(k0.rules)) && OwnsTable(Rest(k0.rules)) && Quiet(Rest(k0.rules), k.tables, p)
    ensures Routed(k, p) == Routed(Absent(k0), p)
  {
    assert BandClear(Rest(k0.rules), k.tables, p);
    RestSorts(k.rules);
    hide Lookup, TableVerdict, MainFirst, OwnsTable, One, Rest, Own, Quiet, BandClear;
    SafeChangesExactly(k, k0, floor, p);
    AbsentIsMain(Rest(k0.rules), k.tables, p);
  }

  /** Every state the host went through is safe and leaves the rest alone. */
  ghost predicate AllSafe(states: seq<Kernel>, floor: seq<Addr>, k0: Kernel) {
    forall i :: 0 <= i < |states| ==> Safe(states[i], floor) && SameRest(states[i], k0)
  }

  /** Through every state of a watched run such a packet keeps its result. */
  lemma FloorKeptThroughout(states: seq<Kernel>, k0: Kernel, floor: seq<Addr>, p: Packet)
    requires AllSafe(states, floor, k0)
    requires p.iif == LO && p.src in floor && MainSays(k0.tables, p).Some?
    requires MainFirst(Rest(k0.rules)) && OwnsTable(Rest(k0.rules)) && Quiet(Rest(k0.rules), k0.tables, p)
    ensures forall i :: 0 <= i < |states| ==> Routed(states[i], p) == Routed(Absent(k0), p)
  {
    forall i | 0 <= i < |states|
      ensures Routed(states[i], p) == Routed(Absent(k0), p)
    {
      var k := states[i];
      assert SameRest(k, k0);
      forall r | r in Rest(k0.rules)
        ensures One(r, k.tables, p) == One(r, k0.tables, p)
      {
        OneIgnoresOwnTable(r, k, k0, p);
      }
      hide Rest, One, Safe, MainFirst, Absent, Routed;
      SafeKeepsFloor(k, k0, floor, p);
    }
  }

  /**
   When the delete of the route fails unseen and the pins go all the same, a floor packet that only
   main's default would take leaves by the gateway.
   */
  lemma RouteLeftUnpinnedTakesFloor(k: Kernel, workloads: seq<Net>, hop: string, p: Packet)
    requires Installed(k.rules, Rest(k.rules), [], workloads)
    requires TableOf(k.tables, OWN_TABLE) == [OwnRoute(hop)]
    requires MainFirst(Rest(k.rules)) && OwnsTable(Rest(k.rules)) && Quiet(Rest(k.rules), k.tables, p)
    requires p.iif == LO && MainSpecific(k.tables, p).None? && Front(Rest(k.rules), k.tables, p).None?
    ensures Routed(k, p) == Some(To(OWN_TABLE, OwnRoute(hop))) && Routed(k, p) != Routed(Absent(k), p)
  {
    hide One, Lookup, TableVerdict, Rest, Installed, Own, MainFirst, OwnsTable;
    ChangesExactlyTheTaken(k.rules, Rest(k.rules), k.tables, [], workloads, hop, p);
    LookupIgnoresOwnTable(Rest(k.rules), k, Absent(k), p);
  }

  // ---- the commands --------------------------------------------------------------------------

  class HostRules {
    /** Whether the n-th command issued takes effect. */
    const works: nat -> bool
    var issued: nat
    var rules: seq<Rule>
    var tables: map<nat, Table>
    ghost var seen: seq<Kernel>

    ghost function Now(): Kernel
      reads this
    {
      Kernel(rules, tables)
    }

    /** The rules are in order, and every state so far was safe and left the rest alone. */
    ghost predicate Watched(floor: seq<Addr>, k0: Kernel)
      reads this
    {
      AllSafe(seen, floor, k0) && Safe(Now(), floor) && SameRest(Now(), k0)
    }

    /** The last state listed is the one that is there. */
    ghost predicate Latest()
      reads this
    {
      seen != [] && seen[|seen| - 1] == Now()
    }

    ghost predicate AllWork(from: nat)
      reads this
    {
      forall n: nat :: n >= from ==> works(n)
    }

    constructor (works: nat -> bool, k: Kernel)
      requires Sorted(k.rules)
      ensures Now() == k && seen == [k] && issued == 0 && this.works == works
    {
      this.works, this.issued := works, 0;
      rules, tables := k.rules, k.tables;
      seen := [k];
    }

    /** The kernel refuses a rule it already has. */
    method Add(r: Rule) returns (ok: bool)
      modifies this
      ensures ok == (works(old(issued)) && r !in old(rules))
      ensures rules == if ok then Insert(old(rules), r) else old(rules)
      ensures tables == old(tables) && issued == old(issued) + 1 && seen == old(seen) + [Now()]
    {
      ok := works(issued) && r !in rules;
      if ok {
        rules := Insert(rules, r);
      }
      issued := issued + 1;
      seen := seen + [Now()];
    }

    method Delete(r: Rule) returns (ok: bool)
      modifies this
      ensures ok == (works(old(issued)) && r in old(rules))
      ensures rules == if ok then Remove(old(rules), r) else old(rules)
      ensures tables == old(tables) && issued == old(issued) + 1 && seen == old(seen) + [Now()]
    {
      ok := works(issued) && r in rules;
      if ok {
        rules := Remove(rules, r);
      }
      issued := issued + 1;
      seen := seen + [Now()];
    }

    method PutRoute(table: Table) returns (ok: bool)
      modifies this
      ensures ok == works(old(issued)) && rules == old(rules)
      ensures tables == if ok then old(tables)[OWN_TABLE := table] else old(tables)
      ensures issued == old(issued) + 1 && seen == old(seen) + [Now()]
    {
      ok := works(issued);
      if ok {
        tables := tables[OWN_TABLE := table];
      }
      issued := issued + 1;
      seen := seen + [Now()];
    }

    /** Present after, whatever was there, unless the command fails. */
    method EnsureRule(r: Rule, ghost floor: seq<Addr>, ghost k0: Kernel) returns (ok: bool)
      requires Own(r) && Watched(floor, k0)
      modifies this
      ensures Watched(floor, k0) && tables == old(tables) && old(seen) <= seen
      ensures ok <==> r in old(rules) || works(old(issued))
      ensures ok ==> r in rules
      ensures forall x :: x in rules <==> x in old(rules) || (ok && x == r)
      ensures r in old(rules) ==> rules == old(rules) && issued == old(issued) && ok
      ensures issued >= old(issued)
    {
      if r in rules {
        return true;
      }
      ok := AddOwn(r, floor, k0);
    }

    /** Delete every copy; it stops at the first delete that fails. */
    method DropRules(r: Rule, ghost floor: seq<Addr>, ghost k0: Kernel) returns (ok: bool)
      requires Own(r) && Watched(floor, k0)
      requires TableOf(tables, OWN_TABLE) == [] || forall a :: a in floor ==> FloorRule(a) != r
      modifies this
      ensures Watched(floor, k0) && tables == old(tables) && old(seen) <= seen
      ensures issued >= old(issued) && (old(Latest()) ==> Latest()) && (AllWork(old(issued)) ==> ok)
      ensures ok ==> r !in rules
      ensures forall x :: x != r ==> (x in rules <==> x in old(rules))
      ensures r in rules ==> r in old(rules)
      ensures r !in old(rules) ==> rules == old(rules) && issued == old(issued) && ok
    {
      ok := true;
      while r in rules && ok
        invariant Watched(floor, k0) && tables == old(tables) && old(seen) <= seen
        invariant forall x :: x != r ==> (x in rules <==> x in old(rules))
        invariant r in rules ==> r in old(rules)
        invariant r !in old(rules) ==> rules == old(rules) && issued == old(issued) && ok
        invariant issued >= old(issued) && (old(Latest()) ==> Latest()) && (AllWork(old(issued)) ==> ok)
        decreases |rules|, if ok then 1 else 0
      {
        ghost var before := Now();
        ok := Delete(r);
        RemoveKeepsSafe(before, r, floor, k0);
        forall x
          ensures x != r ==> (x in Remove(before.rules, r) <==> x in before.rules)
          ensures |Remove(before.rules, r)| == |before.rules| - 1
        {
          RemoveHas(before.rules, r, x);
        }
      }
    }

    /**
     Bring the pins level: every wanted address gets one, and one goes only when its address is
     neither wanted nor configured anywhere on the host.
     */
    method SyncFloorRules(wanted: seq<Addr>, configured: Option<seq<Addr>>, ghost floor: seq<Addr>, ghost k0: Kernel)
        returns (ok: bool)
      requires Watched(floor, k0) && forall a :: a in floor ==> a in wanted
      modifies this
      ensures Watched(floor, k0) && tables == old(tables) && old(seen) <= seen
      ensures ok ==> forall a :: FloorRule(a) in rules <==>
                a in wanted || (FloorRule(a) in old(rules) && configured.Some? && a in configured.value)
      ensures forall a :: FloorRule(a) in old(rules) && FloorRule(a) !in rules ==>
                a !in wanted && configured.Some? && a !in configured.value
      ensures forall x :: !IsFloor(x) ==> (x in rules <==> x in old(rules))
      ensures Level(old(rules), wanted, configured) ==> ok && rules == old(rules) && issued == old(issued)
      ensures issued >= old(issued)
      ensures AllWork(old(issued)) ==> (ok <==> CanSync(old(rules), wanted, configured))
    {
      hide AllSafe, Safe, SameRest, Rest, Own, FloorRule, IsFloor;
      FloorRulesApart();
      var installed := PinnedAddresses(rules);
      forall a
        ensures a in installed <==> FloorRule(a) in old(rules)
      {
        PinnedAddressesHave(rules, a);
      }
      ok := AddMissing(wanted, installed, floor, k0);
      if !ok {
        return;
      }
      if forall a :: a in installed ==> a in wanted {
        return;
      }
      if configured.None? {
        return false;
      }
      ok := DropStale(installed, wanted, configured.value, floor, k0);
    }

    /** After a sync that succeeds, a second one on the same readings succeeds without issuing a command. */
    method SyncTwice(wanted: seq<Addr>, configured: Option<seq<Addr>>, ghost floor: seq<Addr>, ghost k0: Kernel)
        returns (ok: bool, again: bool, ghost midway: (seq<Rule>, nat))
      requires Watched(floor, k0) && forall a :: a in floor ==> a in wanted
      modifies this
      ensures Watched(floor, k0) && tables == old(tables) && old(seen) <= seen
      ensures ok ==> again && (rules, issued) == midway
    {
      ok := SyncFloorRules(wanted, configured, floor, k0);
      midway := (rules, issued);
      if ok {
        SyncedIsLevel(old(rules), rules, wanted, configured);
      }
      hide AllSafe, Safe, SameRest, Rest, Own, FloorRule, IsFloor, Level;
      again := SyncFloorRules(wanted, configured, floor, k0);
    }

    method AddMissing(wanted: seq<Addr>, installed: seq<Addr>, ghost floor: seq<Addr>, ghost k0: Kernel)
        returns (ok: bool)
      requires Watched(floor, k0) && forall a :: a in installed <==> FloorRule(a) in rules
      modifies this
      ensures Watched(floor, k0) && tables == old(tables) && old(seen) <= seen
      ensures forall x :: x in old(rules) ==> x in rules
      ensures forall x :: x in rules && x !in old(rules) ==> exists a :: a in wanted && x == FloorRule(a)
      ensures ok ==> forall a :: a in wanted ==> FloorRule(a) in rules
      ensures (forall a :: a in wanted ==> a in installed) ==> ok && rules == old(rules) && issued == old(issued)
      ensures issued >= old(issued)
      ensures AllWork(old(issued)) ==> (ok <==> EachOnce(wanted, old(rules)))
    {
      hide AllSafe, Safe, SameRest, Rest, Own, FloorRule;
      FloorRulesApart();
      for i := 0 to |wanted|
        invariant Watched(floor, k0) && tables == old(tables) && old(seen) <= seen
        invariant forall x :: x in old(rules) ==> x in rules
        invariant forall x :: x in rules && x !in old(rules) ==> exists a :: a in wanted && x == FloorRule(a)
        invariant forall j :: 0 <= j < i ==> FloorRule(wanted[j]) in rules
        invariant (forall a :: a in wanted ==> a in installed) ==> rules == old(rules) && issued == old(issued)
        invariant issued >= old(issued)
        invariant forall x :: x in rules && x !in old(rules) ==> exists j :: 0 <= j < i && x == FloorRule(wanted[j])
        invariant EachOnce(wanted[..i], old(rules))
      {
        var a := wanted[i];
        OneMoreOnce(wanted, i, old(rules));
        if a !in installed {
          FloorRuleIsFloor(a);
          ok := AddOwn(FloorRule(a), floor, k0);
          if !ok {
            return;
          }
        }
      }
      assert wanted[..|wanted|] == wanted;
      return true;
    }

    method AddOwn(r: Rule, ghost floor: seq<Addr>, ghost k0: Kernel) returns (ok: bool)
      requires Own(r) && Watched(floor, k0)
      modifies this
      ensures Watched(floor, k0) && tables == old(tables) && old(seen) <= seen
      ensures ok <==> works(old(issued)) && r !in old(rules)
      ensures issued == old(issued) + 1
      ensures forall x :: x in rules <==> x in old(rules) || (ok && x == r)
    {
      ghost var before := Now();
      ok := Add(r);
      AddKeepsSafe(before, r, floor, k0);
      forall x
        ensures x in Insert(before.rules, r) <==> x == r || x in before.rules
      {
        InsertHas(before.rules, r, x);
      }
    }

    method DropStale(installed: seq<Addr>, wanted: seq<Addr>, configured: seq<Addr>,
                     ghost floor: seq<Addr>, ghost k0: Kernel)
        returns (ok: bool)
      requires Watched(floor, k0) && forall a :: a in floor ==> a in wanted
      modifies this
      ensures Watched(floor, k0) && tables == old(tables) && old(seen) <= seen
      ensures forall x :: x in rules ==> x in old(rules)
      ensures forall x :: x in old(rules) && x !in rules ==>
                exists a :: a in installed && a !in wanted && a !in configured && x == FloorRule(a)
      ensures ok ==> forall a :: a in installed && a !in wanted && a !in configured ==> FloorRule(a) !in rules
      ensures (forall a :: a in installed ==> a in wanted || a in configured) ==>
                ok && rules == old(rules) && issued == old(issued)
      ensures issued >= old(issued) && (AllWork(old(issued)) ==> ok)
    {
      hide AllSafe, Safe, SameRest, Rest, Own, FloorRule;
      for i := 0 to |installed|
        invariant Watched(floor, k0) && tables == old(tables) && old(seen) <= seen
        invariant forall x :: x in rules ==> x in old(rules)
        invariant forall x :: x in old(rules) && x !in rules ==>
                    exists a :: a in installed && a !in wanted && a !in configured && x == FloorRule(a)
        invariant forall j :: 0 <= j < i && installed[j] !in wanted && installed[j] !in configured ==>
                    FloorRule(installed[j]) !in rules
        invariant (forall a :: a in installed ==> a in wanted || a in configured) ==>
                    rules == old(rules) && issued == old(issued)
        invariant issued >= old(issued)
      {
        var a := installed[i];
        if a !in wanted && a !in configured {
          FloorRuleIsFloor(a);
          forall b | b in floor
            ensures FloorRule(b) != FloorRule(a)
          {
            FloorRuleIsFloor(b);
          }
          ok := DropRules(FloorRule(a), floor, k0);
          if !ok {
            return;
          }
        }
      }
      return true;
    }

    /**
     The route first, then the pins, the workload lookups and the two local lookups. The route's own
     delete is not checked: only a table that is empty after it keeps the floor addresses safe.
     */
    method RemoveHostDefault(ghost floor: seq<Addr>, ghost k0: Kernel) returns (ok: bool, ghost at: nat)
      requires Watched(floor, k0)
      modifies this
      ensures TableOf(tables, OWN_TABLE) == [] <==> works(old(issued)) || TableOf(old(tables), OWN_TABLE) == []
      ensures !works(old(issued)) ==> tables == old(tables)
      ensures TableOf(tables, OWN_TABLE) == [] ==> Watched(floor, k0)
      ensures Watched([], k0) && old(seen) <= seen
      ensures ok ==> forall r :: r in rules ==> !Own(r)
      ensures ok ==> rules == Rest(k0.rules)
      ensures AllWork(old(issued) + 1) ==> ok
      // State `at` is the one between the pins and the other rules.
      ensures |old(seen)| <= at < |seen| && seen[at].tables == tables && Sorted(seen[at].rules)
      ensures SameRest(seen[at], k0)
      ensures forall x :: !IsFloor(x) ==> (x in seen[at].rules <==> x in old(rules))
      ensures AllWork(old(issued) + 1) ==> forall x :: x in seen[at].rules ==> !IsFloor(x)
    {
      var deleted := PutRoute([]);
      ghost var kept := if TableOf(tables, OWN_TABLE) == [] then floor else [];
      assert Watched(kept, k0) && Latest();
      hide AllSafe, Safe, SameRest, Rest, Own, IsFloor, TableOf;
      ok, at := DropAll(kept, k0);
      WatchedNone(seen, Now(), kept, k0);
      if ok {
        RestOfOthers(rules);
        RestIsSame(Now(), kept, k0);
      }
    }

    /** The pins, the workload lookups, the two local lookups, while each goes. */
    method DropAll(ghost floor: seq<Addr>, ghost k0: Kernel) returns (ok: bool, ghost at: nat)
      requires Watched(floor, k0) && (TableOf(tables, OWN_TABLE) == [] || floor == []) && Latest()
      modifies this
      ensures Watched(floor, k0) && tables == old(tables) && old(seen) <= seen
      ensures ok ==> forall r :: r in rules ==> !Own(r)
      ensures AllWork(old(issued)) ==> ok
      ensures |old(seen)| - 1 <= at < |seen| && seen[at].tables == tables && Sorted(seen[at].rules)
      ensures forall x :: !IsFloor(x) ==> (x in seen[at].rules <==> x in old(rules))
      ensures AllWork(old(issued)) ==> forall x :: x in seen[at].rules ==> !IsFloor(x)
    {
      hide AllSafe, SameRest, Rest, Own, IsFloor, IsWorkload;
      ok := DropPins(floor, k0);
      at := |seen| - 1;
      assert seen[at] == Now() && Sorted(rules);
      hide Safe, Sorted;
      if ok {
        ok := DropWorkloadRules(floor, k0);
      }
      if ok {
        ok := DropLookups(floor, k0);
      }
      if ok {
        NoOwnLeft(rules);
      }
    }

    method DropPins(ghost floor: seq<Addr>, ghost k0: Kernel) returns (ok: bool)
      requires Watched(floor, k0) && (TableOf(tables, OWN_TABLE) == [] || floor == [])
      modifies this
      ensures Watched(floor, k0) && tables == old(tables) && old(seen) <= seen
      ensures issued >= old(issued) && (old(Latest()) ==> Latest()) && (AllWork(old(issued)) ==> ok)
      ensures forall x :: x in rules ==> x in old(rules)
      ensures forall x :: !IsFloor(x) ==> (x in rules <==> x in old(rules))
      ensures ok ==> forall x :: x in rules ==> !IsFloor(x)
    {
      hide AllSafe, Safe, SameRest, Rest, Own, FloorRule, IsFloor;
      FloorRulesApart();
      var installed := PinnedAddresses(rules);
      for i := 0 to |installed|
        invariant Watched(floor, k0) && tables == old(tables) && old(seen) <= seen
        invariant issued >= old(issued) && (old(Latest()) ==> Latest())
        invariant forall x :: x in rules ==> x in old(rules)
        invariant forall x :: !IsFloor(x) ==> (x in rules <==> x in old(rules))
        invariant forall j :: 0 <= j < i ==> FloorRule(installed[j]) !in rules
      {
        FloorRuleIsFloor(installed[i]);
        ok := DropRules(FloorRule(installed[i]), floor, k0);
        if !ok {
          return;
        }
      }
      forall x | x in rules
        ensures !IsFloor(x)
      {
        if IsFloor(x) {
          PinIsListed(old(rules), x);
        }
      }
      return true;
    }

    method DropWorkloadRules(ghost floor: seq<Addr>, ghost k0: Kernel) returns (ok: bool)
      requires Watched(floor, k0) && (TableOf(tables, OWN_TABLE) == [] || floor == [])
      modifies this
      ensures Watched(floor, k0) && tables == old(tables) && old(seen) <= seen
      ensures issued >= old(issued) && (old(Latest()) ==> Latest()) && (AllWork(old(issued)) ==> ok)
      ensures forall x :: x in rules ==> x in old(rules)
      ensures ok ==> forall x :: x in rules ==> !IsWorkload(x)
    {
      hide AllSafe, Safe, SameRest, Rest, Own, WorkloadSkip, WorkloadTake, FloorRule, IsWorkload;
      var sources := WorkloadSources([], rules);
      for i := 0 to |sources|
        invariant Watched(floor, k0) && tables == old(tables) && old(seen) <= seen
        invariant issued >= old(issued) && (old(Latest()) ==> Latest())
        invariant forall x :: x in rules ==> x in old(rules)
        invariant forall j :: 0 <= j < i ==> WorkloadSkip(sources[j]) !in rules && WorkloadTake(sources[j]) !in rules
      {
        WorkloadRulesAreOwn(sources[i]);
        ok := DropRules(WorkloadSkip(sources[i]), floor, k0);
        if !ok {
          return;
        }
        ok := DropRules(WorkloadTake(sources[i]), floor, k0);
        if !ok {
          return;
        }
      }
      forall x | x in rules
        ensures !IsWorkload(x)
      {
        if IsWorkload(x) {
          SourceIsListed(old(rules), x);
        }
      }
      return true;
    }

    method DropLookups(ghost floor: seq<Addr>, ghost k0: Kernel) returns (ok: bool)
      requires Watched(floor, k0) && (TableOf(tables, OWN_TABLE) == [] || floor == [])
      modifies this
      ensures Watched(floor, k0) && tables == old(tables) && old(seen) <= seen
      ensures issued >= old(issued) && (old(Latest()) ==> Latest()) && (AllWork(old(issued)) ==> ok)
      ensures forall x :: x in rules ==> x in old(rules)
      ensures ok ==> SKIP_MAIN_DEFAULT !in rules && TAKE_OWN_DEFAULT !in rules
    {
      hide AllSafe, Safe, SameRest, Rest;
      ok := DropRules(SKIP_MAIN_DEFAULT, floor, k0);
      if !ok {
        return;
      }
      ok := DropRules(TAKE_OWN_DEFAULT, floor, k0);
    }

    /** The pins, then the lookups, then the route. */
    method InstallUnit(wanted: seq<Addr>, configured: Option<seq<Addr>>, workloads: seq<Net>, hop: string,
                       ghost floor: seq<Addr>, ghost k0: Kernel) returns (ok: bool)
      requires Watched(floor, k0) && forall a :: a in floor ==> a in wanted
      modifies this
      ensures Watched(floor, k0) && old(seen) <= seen
      ensures ok ==> TableOf(tables, OWN_TABLE) == [OwnRoute(hop)]
      ensures ok ==> (forall r :: r in HostDefaultRules(true, wanted, workloads) ==> r in rules)
      ensures AllWork(old(issued)) ==> (ok <==> CanSync(old(rules), wanted, configured))
      ensures issued >= old(issued)
    {
      hide AllSafe, Safe, SameRest, Rest, Own, FloorRule, IsFloor, HostDefaultRules;
      ok := SyncFloorRules(wanted, configured, floor, k0);
      if !ok {
        return;
      }
      var todo := HostDefaultRules(true, [], workloads);
      for i := 0 to |todo|
        invariant Watched(floor, k0) && tables == old(tables) && old(seen) <= seen
        invariant forall a :: a in wanted ==> FloorRule(a) in rules
        invariant forall j :: 0 <= j < i ==> todo[j] in rules
        invariant issued >= old(issued)
      {
        HostDefaultRulesHave([], workloads, todo[i]);
        ok := EnsureRule(todo[i], floor, k0);
        if !ok {
          return;
        }
      }
      ghost var before := Now();
      ok := PutRoute([OwnRoute(hop)]);
      RouteKeepsSafe(before, [OwnRoute(hop)], floor, k0);
      WatchedGrows(seen, Now(), floor, k0);
      forall r | r in HostDefaultRules(true, wanted, workloads)
        ensures r in rules
      {
        RuleIsPinOrTodo(wanted, workloads, r);
      }
    }

    /** All of it, or what was put in is taken back out. */
    method InstallHostDefault(wanted: seq<Addr>, configured: Option<seq<Addr>>, workloads: seq<Net>, hop: string,
                              ghost floor: seq<Addr>, ghost k0: Kernel) returns (ok: bool, ghost removed: bool)
      requires Watched(floor, k0) && forall a :: a in floor ==> a in wanted
      modifies this
      ensures ok || TableOf(tables, OWN_TABLE) == [] ==> Watched(floor, k0)
      ensures ok ==> TableOf(tables, OWN_TABLE) == [OwnRoute(hop)]
      ensures ok ==> forall r :: r in HostDefaultRules(true, wanted, workloads) ==> r in rules
      ensures !ok && removed ==> rules == Rest(k0.rules)
      ensures old(seen) <= seen
      ensures AllWork(old(issued)) ==> (ok <==> CanSync(old(rules), wanted, configured)) && (ok || removed)
    {
      hide AllSafe, Safe, SameRest, Rest, Own, HostDefaultRules;
      removed := false;
      ok := InstallUnit(wanted, configured, workloads, hop, floor, k0);
      if !ok {
        var gone;
        ghost var between;
        gone, between := RemoveHostDefault(floor, k0);
        removed := gone;
      }
    }
  }

  /** The pins gone and every other shape still in is the whole set for no floor address. */
  lemma UnpinnedIsInstalled(rules: seq<Rule>, after: seq<Rule>, floor: seq<Addr>, workloads: seq<Net>)
    requires Installed(rules, Rest(rules), floor, workloads) && Sorted(after)
    requires forall x :: !IsFloor(x) ==> (x in after <==> x in rules)
    requires forall x :: x in after ==> !IsFloor(x)
    ensures Installed(after, Rest(after), [], workloads)
  {
    SitsOnRest(after);
    hide Sits, IsWorkload, Rest, HostDefaultRules;
    forall r | Own(r)
      ensures r in after <==> r in HostDefaultRules(true, [], workloads)
    {
      HostDefaultRulesHave(floor, workloads, r);
      HostDefaultRulesHave([], workloads, r);
    }
  }

  /**
   A removal whose first command fails unseen, on any host with all of it in: between the pins and the other
   rules there is a state in which a floor packet that only main's default would take leaves by the gateway.
   */
  method RemoveWithRouteLeft(h: HostRules, floor: seq<Addr>, workloads: seq<Net>, hop: string, ghost p: Packet)
      returns (ghost at: nat)
    requires h.Watched(floor, h.Now()) && Installed(h.rules, Rest(h.rules), floor, workloads)
    requires TableOf(h.tables, OWN_TABLE) == [OwnRoute(hop)]
    requires !h.works(h.issued) && h.AllWork(h.issued + 1)
    requires MainFirst(Rest(h.rules)) && OwnsTable(Rest(h.rules)) && Quiet(Rest(h.rules), h.tables, p)
    requires p.iif == LO && MainSpecific(h.tables, p).None? && Front(Rest(h.rules), h.tables, p).None?
    modifies h
    ensures at < |h.seen|
    ensures Routed(h.seen[at], p) == Some(To(OWN_TABLE, OwnRoute(hop)))
    ensures Routed(h.seen[at], p) != Routed(old(Absent(h.Now())), p)
  {
    ghost var k0 := h.Now();
    assert SameRest(k0, k0);
    hide Installed, MainFirst, OwnsTable, Quiet, Rest, Front, MainSpecific, Routed, SameRest, Safe, Sorted, IsFloor;
    hide Absent, AllSafe, TableOf;
    var ok;
    ok, at := h.RemoveHostDefault(floor, k0);
    RestIsSame(h.seen[at], floor, k0);
    UnpinnedExposes(k0, h.seen[at], floor, workloads, hop, p);
  }

  lemma UnpinnedExposes(k0: Kernel, k: Kernel, floor: seq<Addr>, workloads: seq<Net>, hop: string, p: Packet)
    requires Installed(k0.rules, Rest(k0.rules), floor, workloads) && Sorted(k.rules) && k.tables == k0.tables
    requires Rest(k.rules) == Rest(k0.rules)
    requires forall x :: !IsFloor(x) ==> (x in k.rules <==> x in k0.rules)
    requires forall x :: x in k.rules ==> !IsFloor(x)
    requires TableOf(k0.tables, OWN_TABLE) == [OwnRoute(hop)]
    requires MainFirst(Rest(k0.rules)) && OwnsTable(Rest(k0.rules)) && Quiet(Rest(k0.rules), k0.tables, p)
    requires p.iif == LO && MainSpecific(k0.tables, p).None? && Front(Rest(k0.rules), k0.tables, p).None?
    ensures Routed(k, p) == Some(To(OWN_TABLE, OwnRoute(hop))) && Routed(k, p) != Routed(Absent(k0), p)
  {
    UnpinnedIsInstalled(k0.rules, k.rules, floor, workloads);
    hide Routed, Installed, MainFirst, OwnsTable, Quiet, Rest, Front, MainSpecific, IsFloor;
    RouteLeftUnpinnedTakesFloor(k, workloads, hop, p);
  }

  const FLOOR_ADDR: Addr := 0xC0A8_0A02
  const LAN_DEFAULT: Route := Route(Prefix(0, 0), Via("lan"))

  /** A host with one pinned address, everything in, and a main that holds its own default alone. */
  function InstalledHost(hop: string): Kernel {
    Kernel([FloorRule(FLOOR_ADDR), SKIP_MAIN_DEFAULT, TAKE_OWN_DEFAULT, MAIN_RULE],
           map[MAIN_TABLE := [LAN_DEFAULT], OWN_TABLE := [OwnRoute(hop)]])
  }

  lemma HostIsInstalled(hop: string)
    ensures var k := InstalledHost(hop);
            && Sorted(k.rules) && Rest(k.rules) == [MAIN_RULE] && Installed(k.rules, [MAIN_RULE], [FLOOR_ADDR], [])
            && MainFirst([MAIN_RULE]) && OwnsTable([MAIN_RULE]) && Safe(k, [FLOOR_ADDR])
  {
    var k := InstalledHost(hop);
    assert k.rules[0] == FloorRule(FLOOR_ADDR);
    assert From([MAIN_RULE], MAIN_PREF)[0] == MAIN_RULE by {
      assert [MAIN_RULE][1..] == [];
    }
    assert Sorted(k.rules) by {
      assert FloorRule(FLOOR_ADDR).pref == 2099;
      hide FloorRule;
    }
    HostRest(k);
    hide FloorRule, Sorted, Own, Rest;
    SitsOnRest(k.rules);
    hide Sits;
    forall r | Own(r)
      ensures r in k.rules <==> r in HostDefaultRules(true, [FLOOR_ADDR], [])
    {
      OnlyTheseAreOwn(k, r);
    }
  }

  lemma HostRest(k: Kernel)
    requires k.rules == [FloorRule(FLOOR_ADDR), SKIP_MAIN_DEFAULT, TAKE_OWN_DEFAULT, MAIN_RULE]
    ensures Rest(k.rules) == [MAIN_RULE]
  {
    FloorRuleIsFloor(FLOOR_ADDR);
    assert Own(SKIP_MAIN_DEFAULT) && Own(TAKE_OWN_DEFAULT) && !Own(MAIN_RULE);
    hide Own, FloorRule;
    RestCons(FloorRule(FLOOR_ADDR), [SKIP_MAIN_DEFAULT, TAKE_OWN_DEFAULT, MAIN_RULE]);
    RestCons(SKIP_MAIN_DEFAULT, [TAKE_OWN_DEFAULT, MAIN_RULE]);
    RestCons(TAKE_OWN_DEFAULT, [MAIN_RULE]);
    RestCons(MAIN_RULE, []);
    assert [FloorRule(FLOOR_ADDR)] + [SKIP_MAIN_DEFAULT, TAKE_OWN_DEFAULT, MAIN_RULE] == k.rules;
    assert [SKIP_MAIN_DEFAULT] + [TAKE_OWN_DEFAULT, MAIN_RULE] == [SKIP_MAIN_DEFAULT, TAKE_OWN_DEFAULT, MAIN_RULE];
    assert [TAKE_OWN_DEFAULT] + [MAIN_RULE] == [TAKE_OWN_DEFAULT, MAIN_RULE] && [MAIN_RULE] + [] == [MAIN_RULE];
  }

  lemma OnlyTheseAreOwn(k: Kernel, r: Rule)
    requires k.rules == [FloorRule(FLOOR_ADDR), SKIP_MAIN_DEFAULT, TAKE_OWN_DEFAULT, MAIN_RULE] && Own(r)
    ensures r in k.rules <==> r in HostDefaultRules(true, [FLOOR_ADDR], [])
  {
    HostDefaultRulesHave([FLOOR_ADDR], [], r);
    FloorRuleIsFloor(FLOOR_ADDR);
    assert !Own(MAIN_RULE);
  }

  /** On such a host no packet has a specific route in main, and no other rule decides one before main's. */
  lemma HostHasDefaultOnly(hop: string, p: Packet)
    ensures var k := InstalledHost(hop);
            && MainSpecific(k.tables, p).None? && Quiet([MAIN_RULE], k.tables, p)
            && Front([MAIN_RULE], k.tables, p).None? && TableOf(k.tables, OWN_TABLE) == [OwnRoute(hop)]
  {
    hide Contains, FloorRule;
    assert [LAN_DEFAULT][1..] == [];
    assert [MAIN_RULE][1..] == [] && Below([MAIN_RULE], FIRST_PREF) == [];
  }

  /** A run: the route's delete fails, and a packet of the pinned address leaves by the gateway on the way. */
  method RouteLeftRun(hop: string, ghost dst: Addr) returns (h: HostRules, ghost at: nat)
    ensures fresh(h) && at < |h.seen|
    ensures var p := Packet(FLOOR_ADDR, dst, LO);
            && Routed(h.seen[at], p) == Some(To(OWN_TABLE, OwnRoute(hop)))
            && Routed(h.seen[at], p) != Routed(Absent(InstalledHost(hop)), p)
  {
    ghost var p := Packet(FLOOR_ADDR, dst, LO);
    HostIsInstalled(hop);
    HostHasDefaultOnly(hop, p);
    hide Installed, MainFirst, OwnsTable, Quiet, Rest, Front, MainSpecific, Routed, Sorted, IsFloor, Absent, TableOf;
    h := new HostRules(n => n != 0, InstalledHost(hop));
    at := RemoveWithRouteLeft(h, [FLOOR_ADDR], [], hop, p);
  }

  lemma WatchedNone(seen: seq<Kernel>, k: Kernel, floor: seq<Addr>, k0: Kernel)
    requires AllSafe(seen, floor, k0) && Safe(k, floor) && SameRest(k, k0)
    ensures AllSafe(seen, [], k0) && Safe(k, []) && forall i :: 0 <= i < |seen| ==> SameRest(seen[i], k0)
  {
  }

  lemma RestIsSame(k: Kernel, floor: seq<Addr>, k0: Kernel)
    requires SameRest(k, k0)
    ensures Rest(k.rules) == Rest(k0.rules)
  {
  }

  lemma NoOwnLeft(rules: seq<Rule>)
    requires forall x :: x in rules ==> !IsFloor(x) && !IsWorkload(x)
    requires SKIP_MAIN_DEFAULT !in rules && TAKE_OWN_DEFAULT !in rules
    ensures forall x :: x in rules ==> !Own(x)
  {
  }

  lemma PinIsListed(rules: seq<Rule>, x: Rule)
    requires x in rules && IsFloor(x)
    ensures exists a :: a in PinnedAddresses(rules) && x == FloorRule(a)
  {
    PinnedAddressesHave(rules, x.from.value.net);
  }

  lemma SourceIsListed(rules: seq<Rule>, x: Rule)
    requires x in rules && IsWorkload(x)
    ensures exists w :: w in WorkloadSources([], rules) && (x == WorkloadSkip(w) || x == WorkloadTake(w))
  {
    WorkloadSourcesHave([], rules, x.from.value);
    assert NamesSource(x);
  }

  lemma WorkloadRulesAreOwn(w: Net)
    ensures Own(WorkloadSkip(w)) && Own(WorkloadTake(w))
    ensures forall a :: FloorRule(a) != WorkloadSkip(w) && FloorRule(a) != WorkloadTake(w)
  {
  }

  /** A route in table 250 is safe once every floor address has its pin. */
  lemma RouteKeepsSafe(k: Kernel, table: Table, floor: seq<Addr>, k0: Kernel)
    requires Safe(k, floor) && SameRest(k, k0) && forall a :: a in floor ==> FloorRule(a) in k.rules
    ensures var t := Kernel(k.rules, k.tables[OWN_TABLE := table]); Safe(t, floor) && SameRest(t, k0)
  {
  }

  lemma WatchedGrows(seen: seq<Kernel>, now: Kernel, floor: seq<Addr>, k0: Kernel)
    requires Safe(now, floor) && SameRest(now, k0)
    requires |seen| > 0 && seen[|seen| - 1] == now && AllSafe(seen[..|seen| - 1], floor, k0)
    ensures AllSafe(seen, floor, k0)
  {
    forall i | 0 <= i < |seen|
      ensures Safe(seen[i], floor) && SameRest(seen[i], k0)
    {
      assert i < |seen| - 1 ==> seen[i] == seen[..|seen| - 1][i];
    }
  }

  lemma RuleIsPinOrTodo(wanted: seq<Addr>, workloads: seq<Net>, r: Rule)
    requires r in HostDefaultRules(true, wanted, workloads)
    ensures r in HostDefaultRules(true, [], workloads) || exists a :: a in wanted && r == FloorRule(a)
  {
    HostDefaultRulesHave(wanted, workloads, r);
    HostDefaultRulesHave([], workloads, r);
  }

  lemma FloorRulesApart()
    ensures forall a :: IsFloor(FloorRule(a))
    ensures forall a, b :: FloorRule(a) == FloorRule(b) ==> a == b
  {
    forall a
      ensures IsFloor(FloorRule(a)) && FloorRule(a).from.value.net == a
    {
      FloorRuleIsFloor(a);
    }
  }

  /** No address that has no pin yet is listed twice: its second add would be refused. */
  ghost predicate EachOnce(wanted: seq<Addr>, rules: seq<Rule>) {
    forall i, j :: 0 <= i < j < |wanted| && wanted[i] == wanted[j] ==> FloorRule(wanted[i]) in rules
  }

  lemma OneMoreOnce(wanted: seq<Addr>, i: nat, rules: seq<Rule>)
    requires i < |wanted| && EachOnce(wanted[..i], rules)
    ensures EachOnce(wanted[..i + 1], rules) <==>
              (FloorRule(wanted[i]) in rules || forall j :: 0 <= j < i ==> wanted[j] != wanted[i])
    ensures EachOnce(wanted, rules) ==> EachOnce(wanted[..i + 1], rules)
  {
    hide FloorRule;
    var more := wanted[..i + 1];
    assert forall j :: 0 <= j < i ==> more[j] == wanted[..i][j] == wanted[j];
    assert more[i] == wanted[i];
    if j :| 0 <= j < i && wanted[j] == wanted[i] && FloorRule(wanted[i]) !in rules {
      assert more[j] == more[i];
    }
  }

  /** With every command working a sync succeeds exactly then: a pin is only dropped after the addresses were read. */
  ghost predicate CanSync(rules: seq<Rule>, wanted: seq<Addr>, configured: Option<seq<Addr>>) {
    EachOnce(wanted, rules) && (configured.Some? || forall a :: FloorRule(a) in rules ==> a in wanted)
  }

  /** Nothing to add and nothing to drop. */
  ghost predicate Level(rules: seq<Rule>, wanted: seq<Addr>, configured: Option<seq<Addr>>) {
    && (forall a :: a in wanted ==> FloorRule(a) in rules)
    && (forall a :: FloorRule(a) in rules ==> a in wanted || (configured.Some? && a in configured.value))
  }

  /** What a sync leaves is level. */
  lemma SyncedIsLevel(before: seq<Rule>, rules: seq<Rule>, wanted: seq<Addr>, configured: Option<seq<Addr>>)
    requires forall a :: FloorRule(a) in rules <==>
               a in wanted || (FloorRule(a) in before && configured.Some? && a in configured.value)
    ensures Level(rules, wanted, configured)
  {
  }

  lemma AddKeepsSafe(k: Kernel, r: Rule, floor: seq<Addr>, k0: Kernel)
    requires Own(r) && Safe(k, floor) && SameRest(k, k0)
    ensures var t := Kernel(Insert(k.rules, r), k.tables); Safe(t, floor) && SameRest(t, k0)
  {
    hide Own, Rest, Insert, Sorted;
    InsertSorts(k.rules, r);
    InsertLeavesRest(k.rules, r);
    forall a | a in floor && FloorRule(a) in k.rules
      ensures FloorRule(a) in Insert(k.rules, r)
    {
      InsertHas(k.rules, r, FloorRule(a));
    }
  }

  lemma RemoveKeepsSafe(k: Kernel, r: Rule, floor: seq<Addr>, k0: Kernel)
    requires Own(r) && Safe(k, floor) && SameRest(k, k0)
    requires TableOf(k.tables, OWN_TABLE) == [] || forall a :: a in floor ==> FloorRule(a) != r
    ensures var t := Kernel(Remove(k.rules, r), k.tables); Safe(t, floor) && SameRest(t, k0)
  {
    hide Own, Rest, Remove, Sorted;
    RemoveSorts(k.rules, r);
    RemoveLeavesRest(k.rules, r);
    forall a | a in floor && FloorRule(a) != r && FloorRule(a) in k.rules
      ensures FloorRule(a) in Remove(k.rules, r)
    {
      RemoveHas(k.rules, r, FloorRule(a));
    }
  }
}
