/**
 The return-path rules and the leaf leak guard, and where they let a packet of a zone block go.
 */
module ReturnPath {
  import opened Wrappers
  import opened Prefixes
  import opened RoutingRules
  import AddressPlan
  import HostDefault

  type Zone = AddressPlan.ZoneId

  type Workload = AddressPlan.Workload

  // ---- the rules -----------------------------------------------------------------------------

  /** Within the block main decides, but never with a default route. */
  function Within(z: Zone): Rule {
    Rule(2000, Some(Block(z.id)), Some(Block(z.id)), None, LookupIn(MAIN_TABLE, Some(0)))
  }

  /** To a workload the zone may reach, main decides. */
  function Sibling(z: Zone, w: Workload): Rule {
    Rule(2000, Some(Block(z.id)), Some(w.prefix), None, LookupIn(MAIN_TABLE, None))
  }

  /** The zone's own table, which carries its number. */
  function ByZoneTable(z: Zone): Rule {
    Rule(2001, Some(Block(z.id)), None, None, LookupIn(z.id as nat, None))
  }

  function Otherwise(z: Zone): Rule {
    Rule(2002, Some(Block(z.id)), None, None, Refuse)
  }

  function SiblingsOf(z: Zone, workloads: seq<Workload>): seq<Rule> {
    if workloads == [] then []
    else (if z.name in workloads[0].allow then [Sibling(z, workloads[0])] else []) + SiblingsOf(z, workloads[1..])
  }

  /** One rule per zone and workload allowed in it. */
  function WorkloadReturnRules(zones: seq<Zone>, workloads: seq<Workload>): seq<Rule> {
    if zones == [] then [] else SiblingsOf(zones[0], workloads) + WorkloadReturnRules(zones[1..], workloads)
  }

  function OfBlock(rules: seq<Rule>, block: Net): seq<Rule> {
    if rules == [] then []
    else (if rules[0].from == Some(block) then [rules[0]] else []) + OfBlock(rules[1..], block)
  }

  function ReturnRulesOver(zones: seq<Zone>, siblings: seq<Rule>): seq<Rule> {
    if zones == [] then []
    else [Within(zones[0])] + OfBlock(siblings, Block(zones[0].id)) + [ByZoneTable(zones[0]), Otherwise(zones[0])]
         + ReturnRulesOver(zones[1..], siblings)
  }

  function ReturnPathRules(zones: seq<Zone>, workloads: seq<Workload>): seq<Rule> {
    ReturnRulesOver(zones, WorkloadReturnRules(zones, workloads))
  }

  function LeakGuardRules(zones: seq<Zone>): seq<Rule> {
    if zones == [] then []
    else [GuardLocal(zones[0]), GuardRest(zones[0])] + LeakGuardRules(zones[1..])
  }

  function GuardLocal(z: Zone): Rule {
    Rule(1000, None, Some(Block(z.id)), Some(LO), LookupIn(MAIN_TABLE, None))
  }

  function GuardRest(z: Zone): Rule {
    Rule(1001, None, Some(Block(z.id)), None, Refuse)
  }

  // ---- which rules these are -----------------------------------------------------------------

  predicate DistinctIds(zones: seq<Zone>) {
    forall i, j :: 0 <= i < j < |zones| ==> zones[i].id != zones[j].id
  }

  lemma {:induction false} SiblingsOfHas(z: Zone, workloads: seq<Workload>, r: Rule)
    ensures r in SiblingsOf(z, workloads) <==> exists w :: w in workloads && z.name in w.allow && r == Sibling(z, w)
  {
    if workloads != [] {
      SiblingsOfHas(z, workloads[1..], r);
      assert forall w :: w in workloads <==> w == workloads[0] || w in workloads[1..];
    }
  }

  lemma {:induction false} WorkloadReturnRulesHave(zones: seq<Zone>, workloads: seq<Workload>, r: Rule)
    ensures r in WorkloadReturnRules(zones, workloads) <==>
              exists z, w :: z in zones && w in workloads && z.name in w.allow && r == Sibling(z, w)
  {
    if zones != [] {
      SiblingsOfHas(zones[0], workloads, r);
      WorkloadReturnRulesHave(zones[1..], workloads, r);
      assert forall z :: z in zones <==> z == zones[0] || z in zones[1..];
    }
  }

  lemma {:induction false} OfBlockHas(rules: seq<Rule>, block: Net, r: Rule)
    ensures r in OfBlock(rules, block) <==> r in rules && r.from == Some(block)
  {
    if rules != [] {
      OfBlockHas(rules[1..], block, r);
      assert r in rules <==> r == rules[0] || r in rules[1..];
    }
  }

  ghost predicate IsReturnRule(z: Zone, siblings: seq<Rule>, r: Rule) {
    r == Within(z) || r == ByZoneTable(z) || r == Otherwise(z) || (r in siblings && r.from == Some(Block(z.id)))
  }

  lemma {:induction false} ReturnRulesOverHave(zones: seq<Zone>, siblings: seq<Rule>, r: Rule)
    ensures r in ReturnRulesOver(zones, siblings) <==> exists z :: z in zones && IsReturnRule(z, siblings, r)
  {
    if zones != [] {
      OfBlockHas(siblings, Block(zones[0].id), r);
      ReturnRulesOverHave(zones[1..], siblings, r);
      var head := [Within(zones[0])] + OfBlock(siblings, Block(zones[0].id))
                 + [ByZoneTable(zones[0]), Otherwise(zones[0])];
      assert r in head <==> IsReturnRule(zones[0], siblings, r) by {
        hide Within, ByZoneTable, Otherwise, Block;
      }
      assert r in ReturnRulesOver(zones, siblings) <==> r in head || r in ReturnRulesOver(zones[1..], siblings);
      hide IsReturnRule;
      assert forall z :: z in zones <==> z == zones[0] || z in zones[1..];
    }
  }

  lemma {:induction false} LeakGuardRulesHave(zones: seq<Zone>, r: Rule)
    ensures r in LeakGuardRules(zones) <==> exists z :: z in zones && (r == GuardLocal(z) || r == GuardRest(z))
  {
    if zones != [] {
      LeakGuardRulesHave(zones[1..], r);
      assert forall z :: z in zones <==> z == zones[0] || z in zones[1..];
    }
  }

  /** A return-path rule that matches a packet of zone `z` is one of `z`'s own four kinds. */
  lemma OwnReturnRule(zones: seq<Zone>, workloads: seq<Workload>, z: Zone, p: Packet, r: Rule)
    requires DistinctIds(zones) && z in zones && Contains(Block(z.id), p.src)
    requires r in ReturnPathRules(zones, workloads) && Matches(r, p)
    ensures r == Within(z) || r == ByZoneTable(z) || r == Otherwise(z)
            || exists w :: w in workloads && z.name in w.allow && r == Sibling(z, w)
  {
    hide Contains, Block;
    var siblings := WorkloadReturnRules(zones, workloads);
    ReturnRulesOverHave(zones, siblings, r);
    var y :| y in zones && IsReturnRule(y, siblings, r);
    assert r.from == Some(Block(y.id));
    BlocksAreDisjoint(y.id, z.id, p.src);
    SameId(zones, y, z);
    if r in siblings {
      WorkloadReturnRulesHave(zones, workloads, r);
      var x, w :| x in zones && w in workloads && x.name in w.allow && r == Sibling(x, w);
      BlocksAreDisjoint(x.id, z.id, p.src);
      SameId(zones, x, z);
    }
  }

  lemma SameId(zones: seq<Zone>, y: Zone, z: Zone)
    requires DistinctIds(zones) && y in zones && z in zones && y.id == z.id
    ensures y == z
  {
    var i :| 0 <= i < |zones| && zones[i] == y;
    var j :| 0 <= j < |zones| && zones[j] == z;
  }

  // ---- where a packet of a zone block goes ---------------------------------------------------

  predicate IsMainDefault(v: Option<Verdict>) {
    v.Some? && v.value.To? && v.value.table == MAIN_TABLE && v.value.route.dst.len == 0
  }

  ghost predicate MayReach(z: Zone, workloads: seq<Workload>, dst: Addr) {
    exists w :: w in workloads && z.name in w.allow && Contains(w.prefix, dst)
  }

  /**
   The rules are in, and no rule up to them that is neither one of them nor of a leaf's guard sends the
   packet out of main's default.
   */
  ghost predicate Guarded(rules: seq<Rule>, zones: seq<Zone>, workloads: seq<Workload>,
                          tables: map<nat, Table>, p: Packet) {
    && Sorted(rules)
    && (forall r :: r in ReturnPathRules(zones, workloads) ==> r in rules)
    && (forall r :: r in rules && r.pref <= 2002 ==>
          r in ReturnPathRules(zones, workloads) || r in LeakGuardRules(zones) || !IsMainDefault(One(r, tables, p)))
  }

  /** Where a guard rule is in, so are the unreachable routes of the blocks. */
  ghost predicate GuardIsBacked(rules: seq<Rule>, zones: seq<Zone>, tables: map<nat, Table>) {
    (exists r :: r in rules && r in LeakGuardRules(zones)) ==> BlocksHeld(zones, tables)
  }

  /**
   Whatever main and the zone tables hold, on a host or a leaf, a packet sourced in a zone block is decided
   by preference 2002, and takes main's default only to a workload its zone may reach.
   */
  lemma NeverMainDefault(rules: seq<Rule>, zones: seq<Zone>, workloads: seq<Workload>,
                         tables: map<nat, Table>, z: Zone, p: Packet)
    requires DistinctIds(zones) && z in zones && z.id as nat != MAIN_TABLE
    requires Guarded(rules, zones, workloads, tables, p) && GuardIsBacked(rules, zones, tables)
    requires Contains(Block(z.id), p.src)
    ensures Lookup(rules, tables, p).Some?
    ensures IsMainDefault(Lookup(rules, tables, p)) ==> MayReach(z, workloads, p.dst)
  {
    hide Lookup, TableVerdict, Contains, Block, ReturnPathRules, LeakGuardRules, BlocksHeld;
    LookupSplit(rules, tables, p, 2003);
    var upto := Below(rules, 2003);
    LookupIsOne(upto, tables, p);
    OtherwiseIsIn(zones, workloads, z);
    BelowHas(rules, 2003, Otherwise(z));
    assert One(Otherwise(z), tables, p) == Some(Unreachable);
    var r :| r in upto && One(r, tables, p) == Lookup(upto, tables, p);
    BelowHas(rules, 2003, r);
    if IsMainDefault(One(r, tables, p)) {
      if r in LeakGuardRules(zones) {
        GuardIsNoDefault(zones, tables, p, r);
      }
      OwnReturnRule(zones, workloads, z, p, r);
      DefaultOnlyBySibling(tables, z, workloads, p, r);
    }
  }

  /** With the blocks' unreachable routes in main, a guard rule never gives main's default. */
  lemma GuardIsNoDefault(zones: seq<Zone>, tables: map<nat, Table>, p: Packet, r: Rule)
    requires BlocksHeld(zones, tables) && r in LeakGuardRules(zones)
    ensures !IsMainDefault(One(r, tables, p))
  {
    LeakGuardRulesHave(zones, r);
    var z :| z in zones && (r == GuardLocal(z) || r == GuardRest(z));
    hide TableVerdict, Contains, Block, LeakGuardRules;
    if r == GuardLocal(z) && Contains(Block(z.id), p.dst) {
      BlockRouteBounds(tables, z, p.dst);
    }
  }

  lemma OtherwiseIsIn(zones: seq<Zone>, workloads: seq<Workload>, z: Zone)
    requires z in zones
    ensures Otherwise(z) in ReturnPathRules(zones, workloads)
  {
    var siblings := WorkloadReturnRules(zones, workloads);
    assert IsReturnRule(z, siblings, Otherwise(z));
    ReturnRulesOverHave(zones, siblings, Otherwise(z));
  }

  lemma DefaultOnlyBySibling(tables: map<nat, Table>, z: Zone, workloads: seq<Workload>, p: Packet, r: Rule)
    requires z.id as nat != MAIN_TABLE && IsMainDefault(One(r, tables, p))
    requires r == Within(z) || r == ByZoneTable(z) || r == Otherwise(z)
             || exists w :: w in workloads && z.name in w.allow && r == Sibling(z, w)
    ensures MayReach(z, workloads, p.dst)
  {
    hide Contains, Block;
    assert r != ByZoneTable(z) && r != Within(z);
    var w :| w in workloads && z.name in w.allow && r == Sibling(z, w);
    assert Contains(w.prefix, p.dst);
  }

  // ---- what the rules say, packet by packet --------------------------------------------------

  /** The rules of preference `n`. */
  function At(rules: seq<Rule>, n: nat): seq<Rule> {
    Below(From(rules, n), n + 1)
  }

  lemma AtHas(rules: seq<Rule>, n: nat, r: Rule)
    ensures r in At(rules, n) <==> r in rules && r.pref == n
  {
    BelowHas(rules, n, r);
    BelowHas(From(rules, n), n + 1, r);
  }

  lemma LookupAt(rules: seq<Rule>, tables: map<nat, Table>, p: Packet, n: nat)
    requires Sorted(rules)
    ensures Lookup(From(rules, n), tables, p) ==
            if Lookup(At(rules, n), tables, p).Some? then Lookup(At(rules, n), tables, p)
            else Lookup(From(rules, n + 1), tables, p)
  {
    hide Lookup, One;
    HostDefault.FromIsSorted(rules, n);
    LookupSplit(From(rules, n), tables, p, n + 1);
    HostDefault.FromFrom(rules, n, n + 1);
  }

  /** The rules of a preference all pass or all say `v`, and one of them does. */
  ghost predicate Says(rules: seq<Rule>, tables: map<nat, Table>, p: Packet, n: nat, v: Option<Verdict>) {
    && (forall r :: r in rules && r.pref == n ==> One(r, tables, p) == None || One(r, tables, p) == v)
    && (v.Some? ==> exists r :: r in rules && r.pref == n && One(r, tables, p) == v)
  }

  lemma SaysIsLookup(rules: seq<Rule>, tables: map<nat, Table>, p: Packet, n: nat, v: Option<Verdict>)
    requires Says(rules, tables, p, n, v)
    ensures Lookup(At(rules, n), tables, p) == v
  {
    hide Lookup, One, At;
    forall r
      ensures r in At(rules, n) <==> r in rules && r.pref == n
    {
      AtHas(rules, n, r);
    }
    LookupAgreed(At(rules, n), tables, p, if v.Some? then v.value else Unreachable);
  }

  lemma NothingBefore(rules: seq<Rule>, tables: map<nat, Table>, p: Packet, n: nat)
    requires Sorted(rules) && forall r :: r in rules && r.pref < n ==> One(r, tables, p) == None
    ensures Lookup(rules, tables, p) == Lookup(From(rules, n), tables, p)
  {
    hide Lookup, One;
    LookupSplit(rules, tables, p, n);
    forall r | r in Below(rules, n)
      ensures One(r, tables, p) == None
    {
      BelowHas(rules, n, r);
    }
    HostDefault.QuietPasses(Below(rules, n), tables, p);
  }

  /** The rules are in, and no other rule up to them decides the packet. */
  ghost predicate Undisturbed(rules: seq<Rule>, zones: seq<Zone>, workloads: seq<Workload>,
                              tables: map<nat, Table>, p: Packet) {
    && Sorted(rules)
    && (forall r :: r in ReturnPathRules(zones, workloads) ==> r in rules)
    && (forall r :: r in rules && r.pref <= 2002 ==>
          r in ReturnPathRules(zones, workloads) || One(r, tables, p) == None)
  }

  /** What a table says: its best match, unless there is none or it is a throw route. */
  function Found(tables: map<nat, Table>, n: nat, dst: Addr): Option<Verdict> {
    match BestMatch(TableOf(tables, n), dst)
    case Some(route) =>
      (match route.target
       case Via(_) => Some(To(n, route))
       case Reject => Some(Unreachable)
       case Throw => None)
    case None => None
  }

  function MainSays(tables: map<nat, Table>, dst: Addr): Option<Verdict> {
    Found(tables, 254, dst)
  }

  /** Main without its default routes. */
  function SpecificSays(tables: map<nat, Table>, dst: Addr): Option<Verdict> {
    var v := MainSays(tables, dst);
    if v.Some? && v.value.To? && v.value.route.dst.len == 0 then None else v
  }

  lemma FoundIsVerdict(tables: map<nat, Table>, n: nat, dst: Addr)
    ensures TableVerdict(tables, n, None, dst) == Found(tables, n, dst)
    ensures TableVerdict(tables, MAIN_TABLE, Some(0), dst) == SpecificSays(tables, dst)
  {
  }

  /** What preference 2000 makes of a packet: main for an allowed workload, main's specific route in the block. */
  ghost function FirstSays(z: Zone, workloads: seq<Workload>, tables: map<nat, Table>, p: Packet): Option<Verdict> {
    if MayReach(z, workloads, p.dst) && MainSays(tables, p.dst).Some? then MainSays(tables, p.dst)
    else if Contains(Block(z.id), p.dst) then SpecificSays(tables, p.dst)
    else None
  }

  /** What all of them do: else the zone's table, else a refusal. */
  ghost function ReturnSays(z: Zone, workloads: seq<Workload>, tables: map<nat, Table>, p: Packet): Verdict {
    match FirstSays(z, workloads, tables, p)
    case Some(v) => v
    case None =>
      match Found(tables, z.id as nat, p.dst)
      case Some(v) => v
      case None => Unreachable
  }

  lemma SpecificIsMain(tables: map<nat, Table>, dst: Addr)
    ensures SpecificSays(tables, dst).Some? ==> SpecificSays(tables, dst) == MainSays(tables, dst)
  {
  }

  lemma OwnRulesAreIn(zones: seq<Zone>, workloads: seq<Workload>, z: Zone)
    requires z in zones
    ensures Within(z) in ReturnPathRules(zones, workloads)
    ensures ByZoneTable(z) in ReturnPathRules(zones, workloads)
    ensures forall w :: w in workloads && z.name in w.allow ==> Sibling(z, w) in ReturnPathRules(zones, workloads)
  {
    var siblings := WorkloadReturnRules(zones, workloads);
    assert IsReturnRule(z, siblings, Within(z)) && IsReturnRule(z, siblings, ByZoneTable(z));
    ReturnRulesOverHave(zones, siblings, Within(z));
    ReturnRulesOverHave(zones, siblings, ByZoneTable(z));
    forall w | w in workloads && z.name in w.allow
      ensures Sibling(z, w) in ReturnPathRules(zones, workloads)
    {
      WorkloadReturnRulesHave(zones, workloads, Sibling(z, w));
      assert IsReturnRule(z, siblings, Sibling(z, w));
      ReturnRulesOverHave(zones, siblings, Sibling(z, w));
    }
  }

  /** A rule up to 2002 that decides a packet of the zone's block is one of the zone's own. */
  lemma DeciderIsOwn(rules: seq<Rule>, zones: seq<Zone>, workloads: seq<Workload>,
                     tables: map<nat, Table>, z: Zone, p: Packet, r: Rule)
    requires DistinctIds(zones) && z in zones && Undisturbed(rules, zones, workloads, tables, p)
    requires Contains(Block(z.id), p.src) && r in rules && r.pref <= 2002 && One(r, tables, p).Some?
    ensures r == Within(z) || r == ByZoneTable(z) || r == Otherwise(z)
            || exists w :: w in workloads && z.name in w.allow && r == Sibling(z, w)
  {
    hide TableVerdict, Contains, Block, ReturnPathRules;
    OwnReturnRule(zones, workloads, z, p, r);
  }

  lemma SiblingSays(z: Zone, w: Workload, tables: map<nat, Table>, p: Packet)
    requires Contains(Block(z.id), p.src)
    ensures One(Sibling(z, w), tables, p) ==
            if Contains(w.prefix, p.dst) then MainSays(tables, p.dst) else None
  {
    FoundIsVerdict(tables, MAIN_TABLE, p.dst);
    hide Contains, Block, TableVerdict, Found;
  }

  lemma FirstIsSaid(rules: seq<Rule>, zones: seq<Zone>, workloads: seq<Workload>,
                    tables: map<nat, Table>, z: Zone, p: Packet)
    requires DistinctIds(zones) && z in zones && Undisturbed(rules, zones, workloads, tables, p)
    requires Contains(Block(z.id), p.src)
    ensures Says(rules, tables, p, 2000, FirstSays(z, workloads, tables, p))
  {
    SpecificIsMain(tables, p.dst);
    OwnRulesAreIn(zones, workloads, z);
    hide One, Contains, Block, ReturnPathRules, MainSays, SpecificSays, DistinctIds;
    var v := FirstSays(z, workloads, tables, p);
    WithinSays(z, tables, p);
    forall r | r in rules && r.pref == 2000 && One(r, tables, p).Some?
      ensures One(r, tables, p) == v
    {
      DeciderIsOwn(rules, zones, workloads, tables, z, p, r);
      if r != Within(z) {
        var w :| w in workloads && z.name in w.allow && r == Sibling(z, w);
        SiblingSays(z, w, tables, p);
      }
    }
    if MayReach(z, workloads, p.dst) && MainSays(tables, p.dst).Some? {
      var w :| w in workloads && z.name in w.allow && Contains(w.prefix, p.dst);
      SiblingSays(z, w, tables, p);
      assert One(Sibling(z, w), tables, p) == v && Sibling(z, w).pref == 2000;
    } else if Contains(Block(z.id), p.dst) {
      assert One(Within(z), tables, p) == v && Within(z).pref == 2000;
    }
  }

  lemma WithinSays(z: Zone, tables: map<nat, Table>, p: Packet)
    requires Contains(Block(z.id), p.src)
    ensures One(Within(z), tables, p) ==
            if Contains(Block(z.id), p.dst) then SpecificSays(tables, p.dst) else None
  {
    FoundIsVerdict(tables, MAIN_TABLE, p.dst);
    hide Contains, Block, TableVerdict, SpecificSays;
  }

  lemma RestIsSaid(rules: seq<Rule>, zones: seq<Zone>, workloads: seq<Workload>,
                   tables: map<nat, Table>, z: Zone, p: Packet)
    requires DistinctIds(zones) && z in zones && Undisturbed(rules, zones, workloads, tables, p)
    requires Contains(Block(z.id), p.src)
    ensures Says(rules, tables, p, 2001, Found(tables, z.id as nat, p.dst))
    ensures Says(rules, tables, p, 2002, Some(Unreachable))
  {
    OwnRulesAreIn(zones, workloads, z);
    OtherwiseIsIn(zones, workloads, z);
    FoundIsVerdict(tables, z.id as nat, p.dst);
    hide Contains, Block, TableVerdict, ReturnPathRules, DistinctIds, Found;
    forall r | r in rules && (r.pref == 2001 || r.pref == 2002) && One(r, tables, p).Some?
      ensures r == ByZoneTable(z) || r == Otherwise(z)
    {
      DeciderIsOwn(rules, zones, workloads, tables, z, p, r);
    }
    assert One(ByZoneTable(z), tables, p) == Found(tables, z.id as nat, p.dst);
    assert One(Otherwise(z), tables, p) == Some(Unreachable);
  }

  /**
   Whatever main and the zone tables hold, and whatever other rules stand past 2002 or pass the packet: a
   packet of a zone block goes by main to an allowed workload, by main's specific route inside the block,
   by the zone's table where neither decides, and nowhere else.
   */
  lemma ReturnDecides(rules: seq<Rule>, zones: seq<Zone>, workloads: seq<Workload>,
                      tables: map<nat, Table>, z: Zone, p: Packet)
    requires DistinctIds(zones) && z in zones && Undisturbed(rules, zones, workloads, tables, p)
    requires Contains(Block(z.id), p.src)
    ensures Lookup(rules, tables, p) == Some(ReturnSays(z, workloads, tables, p))
  {
    FirstIsSaid(rules, zones, workloads, tables, z, p);
    RestIsSaid(rules, zones, workloads, tables, z, p);
    PassesBefore(rules, zones, workloads, tables, p);
    hide Contains, Block, Found, DistinctIds, Says, FirstSays, Lookup, One, Undisturbed;
    FirstOfThree(rules, tables, p, FirstSays(z, workloads, tables, p),
                 Found(tables, z.id as nat, p.dst), Unreachable);
  }

  /** Three preferences in turn. */
  lemma FirstOfThree(rules: seq<Rule>, tables: map<nat, Table>, p: Packet,
                     u: Option<Verdict>, v: Option<Verdict>, w: Verdict)
    requires Sorted(rules) && forall r :: r in rules && r.pref < 2000 ==> One(r, tables, p) == None
    requires Says(rules, tables, p, 2000, u) && Says(rules, tables, p, 2001, v) && Says(rules, tables, p, 2002, Some(w))
    ensures Lookup(rules, tables, p) == if u.Some? then u else if v.Some? then v else Some(w)
  {
    hide Says, Lookup, One, At;
    NothingBefore(rules, tables, p, 2000);
    hide Sorted;
    LookupAt(rules, tables, p, 2000);
    LookupAt(rules, tables, p, 2001);
    LookupAt(rules, tables, p, 2002);
    SaysIsLookup(rules, tables, p, 2000, u);
    SaysIsLookup(rules, tables, p, 2001, v);
    SaysIsLookup(rules, tables, p, 2002, Some(w));
  }

  lemma PassesBefore(rules: seq<Rule>, zones: seq<Zone>, workloads: seq<Workload>,
                     tables: map<nat, Table>, p: Packet)
    requires Undisturbed(rules, zones, workloads, tables, p)
    ensures Sorted(rules) && forall r :: r in rules && r.pref < 2000 ==> One(r, tables, p) == None
  {
    hide One, ReturnPathRules;
    forall r | r in rules && r.pref < 2000
      ensures One(r, tables, p) == None
    {
      if r in ReturnPathRules(zones, workloads) {
        EarlierIsNotOwn(zones, workloads, r);
      }
    }
  }

  lemma EarlierIsNotOwn(zones: seq<Zone>, workloads: seq<Workload>, r: Rule)
    requires r in ReturnPathRules(zones, workloads)
    ensures 2000 <= r.pref <= 2002
  {
    var siblings := WorkloadReturnRules(zones, workloads);
    ReturnRulesOverHave(zones, siblings, r);
    WorkloadReturnRulesHave(zones, workloads, r);
  }

  /**
   A zone numbered 254 has main as its table: a packet of its block that no earlier rule decides gets
   whatever main says, its default included.
   */
  lemma Zone254TakesMain(z: Zone, tables: map<nat, Table>, p: Packet)
    requires z.id as nat == MAIN_TABLE
    requires Contains(Block(z.id), p.src) && !Contains(Block(z.id), p.dst)
    requires TableVerdict(tables, MAIN_TABLE, None, p.dst).Some?
    ensures Lookup(ReturnPathRules([z], []), tables, p) == TableVerdict(tables, MAIN_TABLE, None, p.dst)
  {
    hide Contains, Block, TableVerdict;
    assert ReturnPathRules([z], []) == [Within(z), ByZoneTable(z), Otherwise(z)] by {
      assert [z][1..] == [];
      assert SiblingsOf(z, []) == [] && WorkloadReturnRules([], []) == [];
      assert WorkloadReturnRules([z], []) == [];
      assert OfBlock([], Block(z.id)) == [] && ReturnRulesOver([], []) == [];
    }
    LookupConcat([Within(z)], [ByZoneTable(z), Otherwise(z)], tables, p);
    assert [Within(z)] + [ByZoneTable(z), Otherwise(z)] == [Within(z), ByZoneTable(z), Otherwise(z)];
    assert Lookup([Within(z)], tables, p) == None;
  }

  // ---- the leaf ------------------------------------------------------------------------------

  /** The guard is in, and no other rule up to it decides the packet. */
  ghost predicate LeafGuarded(rules: seq<Rule>, zones: seq<Zone>, tables: map<nat, Table>, p: Packet) {
    && Sorted(rules)
    && (forall r :: r in LeakGuardRules(zones) ==> r in rules)
    && (forall r :: r in rules && r.pref <= 1001 ==> r in LeakGuardRules(zones) || One(r, tables, p) == None)
  }

  lemma GuardIsIn(zones: seq<Zone>, z: Zone)
    requires z in zones
    ensures GuardLocal(z) in LeakGuardRules(zones) && GuardRest(z) in LeakGuardRules(zones)
  {
    LeakGuardRulesHave(zones, GuardLocal(z));
    LeakGuardRulesHave(zones, GuardRest(z));
  }

  /** What decides a packet for a zone block is a guard rule. */
  lemma GuardDecides(rules: seq<Rule>, zones: seq<Zone>, tables: map<nat, Table>, z: Zone, p: Packet) returns (r: Rule)
    requires LeafGuarded(rules, zones, tables, p) && z in zones && Contains(Block(z.id), p.dst)
    ensures r in LeakGuardRules(zones) && Matches(r, p)
    ensures One(r, tables, p).Some? && Lookup(rules, tables, p) == One(r, tables, p)
  {
    hide Lookup, TableVerdict, Contains, Block, LeakGuardRules;
    LookupSplit(rules, tables, p, 1002);
    var upto := Below(rules, 1002);
    LookupIsOne(upto, tables, p);
    GuardIsIn(zones, z);
    BelowHas(rules, 1002, GuardRest(z));
    assert One(GuardRest(z), tables, p) == Some(Unreachable);
    r :| r in upto && One(r, tables, p) == Lookup(upto, tables, p);
    BelowHas(rules, 1002, r);
  }

  /** What decides a packet for a zone block is one of that zone's two rules. */
  lemma GuardIsSaid(rules: seq<Rule>, zones: seq<Zone>, tables: map<nat, Table>, z: Zone, p: Packet)
    requires LeafGuarded(rules, zones, tables, p) && z in zones && Contains(Block(z.id), p.dst)
    ensures Says(rules, tables, p, 1000, if p.iif == LO then MainSays(tables, p.dst) else None)
    ensures Says(rules, tables, p, 1001, Some(Unreachable))
  {
    GuardIsIn(zones, z);
    GuardOne(z, tables, p);
    hide One, MainSays, Contains, Block, LeakGuardRules;
    forall r | r in rules && r.pref <= 1001 && One(r, tables, p).Some?
      ensures if r.pref == 1000 then p.iif == LO && One(r, tables, p) == MainSays(tables, p.dst)
              else r.pref == 1001 && One(r, tables, p) == Some(Unreachable)
    {
      LeakGuardRulesHave(zones, r);
      var y :| y in zones && (r == GuardLocal(y) || r == GuardRest(y));
      GuardOne(y, tables, p);
    }
  }

  lemma GuardOne(y: Zone, tables: map<nat, Table>, p: Packet)
    ensures One(GuardLocal(y), tables, p) ==
            if Contains(Block(y.id), p.dst) && p.iif == LO then MainSays(tables, p.dst) else None
    ensures One(GuardRest(y), tables, p) == if Contains(Block(y.id), p.dst) then Some(Unreachable) else None
    ensures GuardLocal(y).pref == 1000 && GuardRest(y).pref == 1001
  {
    FoundIsVerdict(tables, MAIN_TABLE, p.dst);
    hide Contains, Block, TableVerdict, Found;
  }

  /** On a leaf a packet for a zone block goes by main when the leaf itself sends it, and nowhere else. */
  lemma GuardDecidesExactly(rules: seq<Rule>, zones: seq<Zone>, tables: map<nat, Table>, z: Zone, p: Packet)
    requires LeafGuarded(rules, zones, tables, p) && z in zones && Contains(Block(z.id), p.dst)
    ensures Lookup(rules, tables, p) ==
            if p.iif == LO && MainSays(tables, p.dst).Some? then MainSays(tables, p.dst) else Some(Unreachable)
  {
    GuardIsSaid(rules, zones, tables, z, p);
    hide Contains, Block, MainSays, Says, Lookup, One, At;
    forall r | r in rules && r.pref < 1000
      ensures One(r, tables, p) == None
    {
      LeakGuardRulesHave(zones, r);
    }
    NothingBefore(rules, tables, p, 1000);
    LookupAt(rules, tables, p, 1000);
    LookupAt(rules, tables, p, 1001);
    SaysIsLookup(rules, tables, p, 1000, if p.iif == LO then MainSays(tables, p.dst) else None);
    SaysIsLookup(rules, tables, p, 1001, Some(Unreachable));
  }

  /** A packet for a zone block that arrives on another interface is refused. */
  lemma LeafRefusesTransit(rules: seq<Rule>, zones: seq<Zone>, tables: map<nat, Table>, z: Zone, p: Packet)
    requires LeafGuarded(rules, zones, tables, p) && z in zones && Contains(Block(z.id), p.dst)
    requires p.iif != LO
    ensures Lookup(rules, tables, p) == Some(Unreachable)
  {
    hide Lookup, TableVerdict, Contains, Block, LeakGuardRules, LeafGuarded;
    var r := GuardDecides(rules, zones, tables, z, p);
    LeakGuardRulesHave(zones, r);
  }

  /** Main holds an unreachable route for the block of every zone. */
  ghost predicate BlocksHeld(zones: seq<Zone>, tables: map<nat, Table>) {
    forall z :: z in zones ==> Route(Block(z.id), Reject) in TableOf(tables, MAIN_TABLE)
  }

  /** A packet of the leaf itself for a zone block is refused or takes a route inside the block. */
  lemma LeafLocalStaysInside(rules: seq<Rule>, zones: seq<Zone>, tables: map<nat, Table>, z: Zone, p: Packet)
    requires LeafGuarded(rules, zones, tables, p) && z in zones && Contains(Block(z.id), p.dst)
    requires BlocksHeld(zones, tables)
    ensures var v := Lookup(rules, tables, p);
            v.Some? && (v.value.To? ==> v.value.route.dst.len >= 16)
  {
    hide Lookup, TableVerdict, Contains, Block, LeakGuardRules, LeafGuarded;
    var r := GuardDecides(rules, zones, tables, z, p);
    LeakGuardRulesHave(zones, r);
    if r.action.LookupIn? {
      BlockRouteBounds(tables, z, p.dst);
    }
  }

  lemma BlockRouteBounds(tables: map<nat, Table>, z: Zone, dst: Addr)
    requires Route(Block(z.id), Reject) in TableOf(tables, MAIN_TABLE) && Contains(Block(z.id), dst)
    ensures var v := TableVerdict(tables, MAIN_TABLE, None, dst);
            v.Some? && v.value.To? ==> v.value.route.dst.len >= 16
  {
    hide Contains, Block;
    var table := TableOf(tables, MAIN_TABLE);
    var i :| 0 <= i < |table| && table[i] == Route(Block(z.id), Reject);
  }
}
