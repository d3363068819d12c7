/**
 The additive host default: the rules it rides on, and what they do to every packet whatever main
 holds, whatever other rules stand beside them, and whichever of them are installed so far.
 */
module HostDefault {
  import opened Wrappers
  import opened Prefixes
  import opened RoutingRules

  /** The table of the host default, which nothing but its own rules looks up. */
  const OWN_TABLE: nat := 250
  const FIRST_PREF: nat := 2099
  const PAST_PREF: nat := 2104
  const MAIN_PREF: nat := 32766

  const MAIN_RULE: Rule := Rule(MAIN_PREF, None, None, None, LookupIn(MAIN_TABLE, None))

  // ---- the rules -----------------------------------------------------------------------------

  /** A floor address keeps what it originates on main. */
  function FloorRule(a: Addr): Rule {
    Rule(2099, Some(Single(a)), None, Some(LO), LookupIn(MAIN_TABLE, None))
  }

  const SKIP_MAIN_DEFAULT: Rule := Rule(2100, None, None, Some(LO), LookupIn(MAIN_TABLE, Some(0)))
  const TAKE_OWN_DEFAULT: Rule := Rule(2101, None, None, Some(LO), LookupIn(OWN_TABLE, None))

  function LookupRules(): seq<Rule> {
    [SKIP_MAIN_DEFAULT, TAKE_OWN_DEFAULT]
  }

  function WorkloadSkip(prefix: Net): Rule {
    Rule(2102, Some(prefix), None, None, LookupIn(MAIN_TABLE, Some(0)))
  }

  function WorkloadTake(prefix: Net): Rule {
    Rule(2103, Some(prefix), None, None, LookupIn(OWN_TABLE, None))
  }

  function WorkloadLookupRules(prefix: Net): seq<Rule> {
    [WorkloadSkip(prefix), WorkloadTake(prefix)]
  }

  function FloorRules(floor: seq<Addr>): seq<Rule> {
    if floor == [] then [] else [FloorRule(floor[0])] + FloorRules(floor[1..])
  }

  function WorkloadRules(workloads: seq<Net>): seq<Rule> {
    if workloads == [] then [] else WorkloadLookupRules(workloads[0]) + WorkloadRules(workloads[1..])
  }

  /** In install order; a member with no gateway zone has none. */
  function HostDefaultRules(hasGw: bool, floor: seq<Addr>, workloads: seq<Net>): seq<Rule> {
    if !hasGw then [] else FloorRules(floor) + LookupRules() + WorkloadRules(workloads)
  }

  /** A rule of one of the five shapes. */
  predicate Own(r: Rule) {
    IsFloor(r) || r == SKIP_MAIN_DEFAULT || r == TAKE_OWN_DEFAULT || IsWorkload(r)
  }

  predicate IsFloor(r: Rule) {
    r.from.Some? && r == FloorRule(r.from.value.net)
  }

  predicate IsWorkload(r: Rule) {
    r.from.Some? && (r == WorkloadSkip(r.from.value) || r == WorkloadTake(r.from.value))
  }

  lemma {:induction false} FloorRulesHave(floor: seq<Addr>, r: Rule)
    ensures r in FloorRules(floor) <==> IsFloor(r) && r.from.value.net in floor
  {
    if floor != [] {
      FloorRulesHave(floor[1..], r);
      assert forall a :: a in floor <==> a == floor[0] || a in floor[1..];
    }
  }

  lemma {:induction false} WorkloadRulesHave(workloads: seq<Net>, r: Rule)
    ensures r in WorkloadRules(workloads) <==> IsWorkload(r) && r.from.value in workloads
  {
    if workloads != [] {
      WorkloadRulesHave(workloads[1..], r);
      assert forall w :: w in workloads <==> w == workloads[0] || w in workloads[1..];
    }
  }

  /** Exactly the rules of the five shapes for the given addresses and prefixes. */
  lemma HostDefaultRulesHave(floor: seq<Addr>, workloads: seq<Net>, r: Rule)
    ensures r in HostDefaultRules(true, floor, workloads) <==>
              && Own(r)
              && (IsFloor(r) ==> r.from.value.net in floor)
              && (IsWorkload(r) ==> r.from.value in workloads)
  {
    FloorRulesHave(floor, r);
    WorkloadRulesHave(workloads, r);
  }

  // ---- beside other rules --------------------------------------------------------------------

  /** The rules at preferences 2099 to 2103. */
  function Mid(rules: seq<Rule>): seq<Rule> {
    Below(From(rules, FIRST_PREF), PAST_PREF)
  }

  /** `rules` is `base` with some of the five shapes put in at their preferences, and nothing else. */
  ghost predicate Sits(rules: seq<Rule>, base: seq<Rule>) {
    && Sorted(rules) && Sorted(base)
    && Below(rules, FIRST_PREF) == Below(base, FIRST_PREF)
    && From(rules, PAST_PREF) == From(base, PAST_PREF)
    && (forall r :: r in Mid(rules) ==> r in base || Own(r))
  }

  /** No other rule at the five preferences themselves decides the packet. */
  ghost predicate BandClear(base: seq<Rule>, tables: map<nat, Table>, p: Packet) {
    forall r :: r in base && FIRST_PREF <= r.pref < PAST_PREF ==> One(r, tables, p) == None
  }

  /** No other rule between the pins and main's own rule decides the packet. */
  ghost predicate Quiet(base: seq<Rule>, tables: map<nat, Table>, p: Packet) {
    forall r :: r in base && FIRST_PREF <= r.pref < MAIN_PREF ==> One(r, tables, p) == None
  }

  /** The kernel's own lookup of main is the first rule at its preference or past it. */
  predicate MainFirst(base: seq<Rule>) {
    From(base, MAIN_PREF) != [] && From(base, MAIN_PREF)[0] == MAIN_RULE
  }

  /** Nobody else looks table 250 up. */
  predicate OwnsTable(base: seq<Rule>) {
    forall r :: r in base ==> r.action.LookupIn? ==> r.action.table != OWN_TABLE
  }

  function MainSays(tables: map<nat, Table>, p: Packet): Option<Verdict> {
    TableVerdict(tables, MAIN_TABLE, None, p.dst)
  }

  /** What main says when its default routes do not count. */
  function MainSpecific(tables: map<nat, Table>, p: Packet): Option<Verdict> {
    TableVerdict(tables, MAIN_TABLE, Some(0), p.dst)
  }

  function Front(base: seq<Rule>, tables: map<nat, Table>, p: Packet): Option<Verdict> {
    Lookup(Below(base, FIRST_PREF), tables, p)
  }

  function Tail(base: seq<Rule>, tables: map<nat, Table>, p: Packet): Option<Verdict> {
    Lookup(From(base, PAST_PREF), tables, p)
  }

  lemma {:induction false} FromFrom(rules: seq<Rule>, m: nat, n: nat)
    requires m <= n
    ensures From(From(rules, m), n) == From(rules, n)
  {
    if rules != [] {
      FromFrom(rules[1..], m, n);
      var rest := From(rules[1..], m);
      assert ([rules[0]] + rest)[1..] == rest && [] + rest == rest;
    }
  }

  lemma SortedCons(r: Rule, rest: seq<Rule>)
    requires Sorted(rest) && forall x :: x in rest ==> r.pref <= x.pref
    ensures Sorted([r] + rest)
  {
    forall i, j | 0 <= i < j < |[r] + rest|
      ensures ([r] + rest)[i].pref <= ([r] + rest)[j].pref
    {
      assert rest[j - 1] in rest;
    }
  }

  lemma {:induction false} FromIsSorted(rules: seq<Rule>, n: nat)
    requires Sorted(rules)
    ensures Sorted(From(rules, n)) && Sorted(Below(rules, n))
  {
    if rules != [] {
      var rest := rules[1..];
      assert Sorted(rest) && forall r :: r in rest ==> rules[0].pref <= r.pref;
      FromIsSorted(rest, n);
      hide Sorted;
      forall r | r in From(rest, n) || r in Below(rest, n)
        ensures rules[0].pref <= r.pref
      {
        BelowHas(rest, n, r);
      }
      SortedCons(rules[0], From(rest, n));
      SortedCons(rules[0], Below(rest, n));
      assert [] + From(rest, n) == From(rest, n) && [] + Below(rest, n) == Below(rest, n);
    }
  }

  lemma MidHas(rules: seq<Rule>, r: Rule)
    ensures r in Mid(rules) <==> r in rules && FIRST_PREF <= r.pref < PAST_PREF
  {
    BelowHas(rules, FIRST_PREF, r);
    BelowHas(From(rules, FIRST_PREF), PAST_PREF, r);
  }

  /** A lookup in three parts: the front, the rules at 2099 to 2103, the tail. */
  lemma LookupParts(rules: seq<Rule>, tables: map<nat, Table>, p: Packet)
    requires Sorted(rules)
    ensures Lookup(rules, tables, p) ==
            if Front(rules, tables, p).Some? then Front(rules, tables, p)
            else if Lookup(Mid(rules), tables, p).Some? then Lookup(Mid(rules), tables, p)
            else Tail(rules, tables, p)
  {
    hide One, Lookup;
    LookupSplit(rules, tables, p, FIRST_PREF);
    FromIsSorted(rules, FIRST_PREF);
    LookupSplit(From(rules, FIRST_PREF), tables, p, PAST_PREF);
    FromFrom(rules, FIRST_PREF, PAST_PREF);
  }

  lemma QuietPasses(rules: seq<Rule>, tables: map<nat, Table>, p: Packet)
    requires forall r :: r in rules ==> One(r, tables, p) == None
    ensures Lookup(rules, tables, p) == None
  {
    LookupAgreed(rules, tables, p, Unreachable);
  }

  /** With cfab absent a quiet packet that passes the front is main's to decide. */
  lemma AbsentIsMain(base: seq<Rule>, tables: map<nat, Table>, p: Packet)
    requires Sorted(base) && Quiet(base, tables, p) && MainFirst(base)
    ensures Lookup(base, tables, p) ==
            if Front(base, tables, p).Some? then Front(base, tables, p) else Tail(base, tables, p)
    ensures MainSays(tables, p).Some? ==> Tail(base, tables, p) == MainSays(tables, p)
  {
    hide One, Lookup, TableVerdict;
    LookupParts(base, tables, p);
    forall r | r in Mid(base)
      ensures One(r, tables, p) == None
    {
      MidHas(base, r);
    }
    QuietPasses(Mid(base), tables, p);
    var tail := From(base, PAST_PREF);
    FromIsSorted(base, PAST_PREF);
    LookupSplit(tail, tables, p, MAIN_PREF);
    forall r | r in Below(tail, MAIN_PREF)
      ensures One(r, tables, p) == None
    {
      BelowHas(tail, MAIN_PREF, r);
      BelowHas(base, PAST_PREF, r);
    }
    QuietPasses(Below(tail, MAIN_PREF), tables, p);
    FromFrom(base, PAST_PREF, MAIN_PREF);
    MainDecides(From(base, MAIN_PREF), tables, p);
  }

  lemma MainDecides(rules: seq<Rule>, tables: map<nat, Table>, p: Packet)
    requires rules != [] && rules[0] == MAIN_RULE
    ensures MainSays(tables, p).Some? ==> Lookup(rules, tables, p) == MainSays(tables, p)
  {
  }

  /** With the five shapes beside it, only what they say themselves can change the result. */
  lemma SittingParts(rules: seq<Rule>, base: seq<Rule>, tables: map<nat, Table>, p: Packet)
    requires Sits(rules, base)
    ensures Lookup(rules, tables, p) ==
            if Front(base, tables, p).Some? then Front(base, tables, p)
            else if Lookup(Mid(rules), tables, p).Some? then Lookup(Mid(rules), tables, p)
            else Tail(base, tables, p)
  {
    hide One, Lookup;
    LookupParts(rules, tables, p);
  }

  lemma MidSays(rules: seq<Rule>, base: seq<Rule>, tables: map<nat, Table>, p: Packet, r: Rule)
    requires Sits(rules, base) && BandClear(base, tables, p) && r in Mid(rules)
    ensures One(r, tables, p) == None || Own(r)
  {
    hide One, Own;
    MidHas(rules, r);
  }

  lemma OwnIsMid(rules: seq<Rule>, r: Rule)
    requires r in rules && Own(r)
    ensures r in Mid(rules)
  {
    MidHas(rules, r);
  }

  /** What the five shapes change: the packets they decide, when nothing in front does and the tail says otherwise. */
  lemma ChangesByMid(rules: seq<Rule>, base: seq<Rule>, tables: map<nat, Table>, p: Packet)
    requires Sits(rules, base) && BandClear(base, tables, p)
    ensures Lookup(rules, tables, p) != Lookup(base, tables, p) <==>
              && Front(base, tables, p).None? && Lookup(Mid(rules), tables, p).Some?
              && Tail(base, tables, p) != Lookup(Mid(rules), tables, p)
  {
    hide One, Lookup;
    SittingParts(rules, base, tables, p);
    LookupParts(base, tables, p);
    forall r | r in Mid(base)
      ensures One(r, tables, p) == None
    {
      MidHas(base, r);
    }
    QuietPasses(Mid(base), tables, p);
  }

  lemma OwnWhenEmpty(r: Rule, tables: map<nat, Table>, p: Packet)
    requires Own(r) && TableOf(tables, OWN_TABLE) == []
    ensures One(r, tables, p) == None || One(r, tables, p) == MainSays(tables, p)
  {
  }

  /**
   With its table empty, whichever of the shapes are in, the result changes exactly when nothing in front
   decides the packet, one of the shapes does, and the rules past them say otherwise than main.
   */
  lemma EmptyChangesExactly(rules: seq<Rule>, base: seq<Rule>, tables: map<nat, Table>, p: Packet)
    requires Sits(rules, base) && BandClear(base, tables, p) && TableOf(tables, OWN_TABLE) == []
    ensures Lookup(rules, tables, p) != Lookup(base, tables, p) <==>
              && Front(base, tables, p).None? && Tail(base, tables, p) != MainSays(tables, p)
              && exists r :: r in rules && Own(r) && One(r, tables, p).Some?
  {
    hide One, Lookup, TableVerdict, Own;
    ChangesByMid(rules, base, tables, p);
    forall r | r in Mid(rules)
      ensures One(r, tables, p) == None || One(r, tables, p) == MainSays(tables, p)
      ensures One(r, tables, p).Some? ==> r in rules && Own(r)
    {
      MidHas(rules, r);
      MidSays(rules, base, tables, p, r);
      if Own(r) {
        OwnWhenEmpty(r, tables, p);
      }
    }
    LookupAgreed(Mid(rules), tables, p, if MainSays(tables, p).Some? then MainSays(tables, p).value else Unreachable);
    if r :| r in rules && Own(r) && One(r, tables, p).Some? {
      OwnIsMid(rules, r);
    }
  }

  /** With its table empty and no other rule up to main's own deciding it, no packet changes. */
  lemma AdditiveWhenEmpty(rules: seq<Rule>, base: seq<Rule>, tables: map<nat, Table>, p: Packet)
    requires Sits(rules, base) && Quiet(base, tables, p) && MainFirst(base)
    requires TableOf(tables, OWN_TABLE) == []
    ensures Lookup(rules, tables, p) == Lookup(base, tables, p)
  {
    hide One, Lookup, TableVerdict, Own;
    assert BandClear(base, tables, p);
    AbsentIsMain(base, tables, p);
    EmptyChangesExactly(rules, base, tables, p);
    if r :| r in rules && Own(r) && One(r, tables, p).Some? {
      OwnWhenEmpty(r, tables, p);
    }
  }

  // ---- floor addresses -----------------------------------------------------------------------

  /** The packet comes from an address of the floor device that has its pin. */
  ghost predicate Pinned(rules: seq<Rule>, p: Packet) {
    p.iif == LO && FloorRule(p.src) in rules
  }

  lemma FloorRuleSays(a: Addr, tables: map<nat, Table>, p: Packet)
    ensures One(FloorRule(a), tables, p) ==
            if p.src == a && p.iif == LO then MainSays(tables, p) else None
  {
    SingleContains(a, p.src);
    hide Contains;
  }

  /**
   The pins and the lookups below table 250's own: whatever they say is what main says, and a pinned
   packet that main decides is decided there.
   */
  lemma PinsSayMain(rules: seq<Rule>, base: seq<Rule>, tables: map<nat, Table>, p: Packet)
    requires Sits(rules, base) && BandClear(base, tables, p)
    requires Pinned(rules, p) && MainSays(tables, p).Some?
    ensures Lookup(Mid(rules), tables, p) == MainSays(tables, p)
  {
    hide Lookup, TableVerdict;
    var mid := Mid(rules);
    FromIsSorted(rules, FIRST_PREF);
    FromIsSorted(From(rules, FIRST_PREF), PAST_PREF);
    LookupSplit(mid, tables, p, 2101);
    var pins := Below(mid, 2101);
    forall r | r in pins
      ensures One(r, tables, p) == None || One(r, tables, p) == MainSays(tables, p)
    {
      BelowHas(mid, 2101, r);
      MidSays(rules, base, tables, p, r);
      if Own(r) {
        LowOwnSaysMain(r, tables, p);
      }
    }
    LookupAgreed(pins, tables, p, MainSays(tables, p).value);
    var pin := FloorRule(p.src);
    FloorRuleSays(p.src, tables, p);
    MidHas(rules, pin);
    BelowHas(mid, 2101, pin);
  }

  lemma LowOwnSaysMain(r: Rule, tables: map<nat, Table>, p: Packet)
    requires Own(r) && r.pref < 2101
    ensures One(r, tables, p) == None || One(r, tables, p) == MainSays(tables, p)
  {
  }

  /**
   A pinned packet that main decides is settled at its pin, whatever table 250 holds and whichever of the
   other shapes are in: the result changes exactly when the rules past them say otherwise than main.
   */
  lemma PinnedChangesExactly(rules: seq<Rule>, base: seq<Rule>, tables: map<nat, Table>, p: Packet)
    requires Sits(rules, base) && BandClear(base, tables, p)
    requires Pinned(rules, p) && MainSays(tables, p).Some?
    ensures Lookup(rules, tables, p) != Lookup(base, tables, p) <==>
              Front(base, tables, p).None? && Tail(base, tables, p) != MainSays(tables, p)
  {
    hide One, Lookup, TableVerdict, Own;
    ChangesByMid(rules, base, tables, p);
    PinsSayMain(rules, base, tables, p);
  }

  /** It keeps the result it has with cfab absent when no other rule up to main's own decides it. */
  lemma PinnedStays(rules: seq<Rule>, base: seq<Rule>, tables: map<nat, Table>, p: Packet)
    requires Sits(rules, base) && Quiet(base, tables, p) && MainFirst(base)
    requires Pinned(rules, p) && MainSays(tables, p).Some?
    ensures Lookup(rules, tables, p) == Lookup(base, tables, p)
  {
    hide One, Lookup, TableVerdict, Own;
    assert BandClear(base, tables, p);
    AbsentIsMain(base, tables, p);
    PinnedChangesExactly(rules, base, tables, p);
  }

  // ---- the skips -----------------------------------------------------------------------------

  /** A skip that matches: 2100 for local packets, 2102 for those of a workload that come from elsewhere. */
  predicate SkipsAt(skip: Rule, p: Packet, past: nat) {
    && Matches(skip, p)
    && ((past == 2101 && skip == SKIP_MAIN_DEFAULT)
        || (past == 2103 && p.iif != LO && skip.from.Some? && skip == WorkloadSkip(skip.from.value)))
  }

  lemma SkipSays(skip: Rule, tables: map<nat, Table>, p: Packet)
    requires Matches(skip, p)
    requires skip == SKIP_MAIN_DEFAULT || (skip.from.Some? && skip == WorkloadSkip(skip.from.value))
    ensures Own(skip) && !IsFloor(skip) && One(skip, tables, p) == MainSpecific(tables, p)
    ensures IsWorkload(skip) <==> skip != SKIP_MAIN_DEFAULT
  {
    hide TableVerdict, Contains;
  }

  /** Below `past` no rule that matches looks table 250 up. */
  lemma LowSkipSays(r: Rule, tables: map<nat, Table>, p: Packet, past: nat)
    requires Own(r) && r.pref < past && MainSpecific(tables, p).Some?
    requires past == 2101 || (past == 2103 && p.iif != LO)
    ensures One(r, tables, p) == None || One(r, tables, p) == MainSays(tables, p)
  {
    SpecificIsMain(tables, p);
    hide TableVerdict, Contains;
  }

  /** A skip that matches decides before any rule that looks table 250 up. */
  lemma SkipSettles(rules: seq<Rule>, base: seq<Rule>, tables: map<nat, Table>, p: Packet, past: nat, skip: Rule)
    requires Sits(rules, base) && BandClear(base, tables, p) && skip in rules
    requires MainSpecific(tables, p).Some? && SkipsAt(skip, p, past)
    ensures Lookup(Mid(rules), tables, p) == MainSays(tables, p) == MainSpecific(tables, p)
  {
    SpecificIsMain(tables, p);
    SkipSays(skip, tables, p);
    hide Lookup, TableVerdict, Contains, One, Matches, Own;
    var mid := Mid(rules);
    FromIsSorted(rules, FIRST_PREF);
    FromIsSorted(From(rules, FIRST_PREF), PAST_PREF);
    LookupSplit(mid, tables, p, past);
    forall r | r in Below(mid, past)
      ensures One(r, tables, p) == None || One(r, tables, p) == MainSays(tables, p)
    {
      BelowHas(mid, past, r);
      MidSays(rules, base, tables, p, r);
      if Own(r) {
        LowSkipSays(r, tables, p, past);
      }
    }
    hide Sits;
    LookupAgreed(Below(mid, past), tables, p, MainSays(tables, p).value);
    MidHas(rules, skip);
    BelowHas(mid, past, skip);
  }

  /**
   A packet main has a specific route for is settled at the skip that matches it, whatever else is in: the
   result changes exactly when the rules past the five preferences say otherwise than main.
   */
  lemma SkipChangesExactly(rules: seq<Rule>, base: seq<Rule>, tables: map<nat, Table>, p: Packet, past: nat, skip: Rule)
    requires Sits(rules, base) && BandClear(base, tables, p) && skip in rules
    requires MainSpecific(tables, p).Some? && SkipsAt(skip, p, past)
    ensures Lookup(rules, tables, p) != Lookup(base, tables, p) <==>
              Front(base, tables, p).None? && Tail(base, tables, p) != MainSays(tables, p)
  {
    hide One, Lookup, TableVerdict, Own, SkipsAt;
    ChangesByMid(rules, base, tables, p);
    SkipSettles(rules, base, tables, p, past, skip);
  }

  // ---- all of them in ------------------------------------------------------------------------

  /** All the rules are in, for these floor addresses and workload prefixes and no others. */
  ghost predicate Installed(rules: seq<Rule>, base: seq<Rule>, floor: seq<Addr>, workloads: seq<Net>) {
    && Sits(rules, base)
    && (forall r :: Own(r) ==> (r in rules <==> r in HostDefaultRules(true, floor, workloads)))
  }

  function OwnRoute(hop: string): Route {
    Route(Prefix(0, 0), Via(hop))
  }

  ghost predicate FromWorkload(workloads: seq<Net>, p: Packet) {
    exists w :: w in workloads && Contains(w, p.src)
  }

  /** The packets the host default takes: local or of a workload, not pinned to a main that decides. */
  ghost predicate Taken(tables: map<nat, Table>, floor: seq<Addr>, workloads: seq<Net>, p: Packet) {
    && (p.iif == LO || FromWorkload(workloads, p))
    && MainSpecific(tables, p) == None
    && !(p.iif == LO && p.src in floor && MainSays(tables, p).Some?)
  }

  lemma OwnTableSays(tables: map<nat, Table>, hop: string, dst: Addr)
    requires TableOf(tables, OWN_TABLE) == [OwnRoute(hop)]
    ensures TableVerdict(tables, OWN_TABLE, None, dst) == Some(To(OWN_TABLE, OwnRoute(hop)))
  {
    DefaultContainsAll(OwnRoute(hop).dst, dst);
    hide Contains;
    assert Contains(TableOf(tables, OWN_TABLE)[0].dst, dst);
  }

  /** A main that decides without its defaults decides the same with them. */
  lemma SpecificIsMain(tables: map<nat, Table>, p: Packet)
    requires MainSpecific(tables, p).Some?
    ensures MainSays(tables, p) == MainSpecific(tables, p)
  {
  }

  ghost function Taking(workloads: seq<Net>, p: Packet): (w: Net)
    requires FromWorkload(workloads, p)
    ensures w in workloads && Contains(w, p.src)
  {
    var w :| w in workloads && Contains(w, p.src);
    w
  }

  function OwnSays(tables: map<nat, Table>, p: Packet): Option<Verdict> {
    TableVerdict(tables, OWN_TABLE, None, p.dst)
  }

  /**
   What the whole set says of a packet, whatever main and table 250 hold: a pinned one that main decides
   is main's, one that no rule selects passes, one that main has a specific route for is main's, and the
   others are table 250's.
   */
  ghost function InstalledSays(tables: map<nat, Table>, floor: seq<Addr>, workloads: seq<Net>,
                              p: Packet): Option<Verdict> {
    if p.iif == LO && p.src in floor && MainSays(tables, p).Some? then MainSays(tables, p)
    else if p.iif != LO && !FromWorkload(workloads, p) then None
    else if MainSpecific(tables, p).Some? then MainSpecific(tables, p)
    else OwnSays(tables, p)
  }

  /** The rule that takes a packet to table 250. */
  ghost function Taker(workloads: seq<Net>, p: Packet): Rule
    requires p.iif == LO || FromWorkload(workloads, p)
  {
    if p.iif == LO then TAKE_OWN_DEFAULT else WorkloadTake(Taking(workloads, p))
  }

  /** What a rule says of a selected packet that main has no specific route for and no pin holds. */
  lemma LooseRuleSays(tables: map<nat, Table>, floor: seq<Addr>, workloads: seq<Net>, p: Packet, r: Rule)
    requires r in HostDefaultRules(true, floor, workloads) && MainSpecific(tables, p) == None
    requires !(p.iif == LO && p.src in floor && MainSays(tables, p).Some?)
    ensures One(r, tables, p) == None || One(r, tables, p) == OwnSays(tables, p)
  {
    HostDefaultRulesHave(floor, workloads, r);
    hide TableVerdict, Contains;
    if IsFloor(r) {
      FloorRuleSays(r.from.value.net, tables, p);
    }
  }

  lemma TakerSays(tables: map<nat, Table>, floor: seq<Addr>, workloads: seq<Net>, p: Packet)
    requires p.iif == LO || FromWorkload(workloads, p)
    ensures Own(Taker(workloads, p)) && Taker(workloads, p) in HostDefaultRules(true, floor, workloads)
    ensures One(Taker(workloads, p), tables, p) == OwnSays(tables, p)
  {
    HostDefaultRulesHave(floor, workloads, Taker(workloads, p));
    hide TableVerdict, Contains;
  }

  /** A selected packet that main has no specific route for and no pin holds is table 250's. */
  lemma LooseIsOwn(rules: seq<Rule>, base: seq<Rule>, tables: map<nat, Table>, floor: seq<Addr>,
                   workloads: seq<Net>, p: Packet)
    requires Installed(rules, base, floor, workloads) && BandClear(base, tables, p)
    requires p.iif == LO || FromWorkload(workloads, p)
    requires MainSpecific(tables, p) == None && !(p.iif == LO && p.src in floor && MainSays(tables, p).Some?)
    ensures Lookup(Mid(rules), tables, p) == OwnSays(tables, p)
  {
    hide Lookup, TableVerdict, Sits, One, Own, HostDefaultRules, FromWorkload, Taker;
    forall r | r in Mid(rules)
      ensures One(r, tables, p) == None || One(r, tables, p) == OwnSays(tables, p)
    {
      MidHas(rules, r);
      MidSays(rules, base, tables, p, r);
      if Own(r) {
        LooseRuleSays(tables, floor, workloads, p, r);
      }
    }
    LookupAgreed(Mid(rules), tables, p, if OwnSays(tables, p).Some? then OwnSays(tables, p).value else Unreachable);
    var taker := Taker(workloads, p);
    TakerSays(tables, floor, workloads, p);
    OwnIsMid(rules, taker);
  }

  lemma NoneMatches(rules: seq<Rule>, base: seq<Rule>, tables: map<nat, Table>, floor: seq<Addr>,
                    workloads: seq<Net>, p: Packet)
    requires Installed(rules, base, floor, workloads) && BandClear(base, tables, p)
    requires p.iif != LO && !FromWorkload(workloads, p)
    ensures Lookup(Mid(rules), tables, p) == None
  {
    hide Lookup, TableVerdict, Contains, Sits;
    forall r | r in Mid(rules)
      ensures One(r, tables, p) == None
    {
      MidHas(rules, r);
      MidSays(rules, base, tables, p, r);
      if Own(r) {
        HostDefaultRulesHave(floor, workloads, r);
        assert !Matches(r, p);
      }
    }
    QuietPasses(Mid(rules), tables, p);
  }

  /** The whole set, beside any other rules that leave its preferences alone, says exactly that. */
  lemma InstalledDecides(rules: seq<Rule>, base: seq<Rule>, tables: map<nat, Table>,
                         floor: seq<Addr>, workloads: seq<Net>, p: Packet)
    requires Installed(rules, base, floor, workloads) && BandClear(base, tables, p)
    ensures Lookup(Mid(rules), tables, p) == InstalledSays(tables, floor, workloads, p)
  {
    hide Lookup, TableVerdict, Sits, Contains, BandClear;
    if p.iif == LO && p.src in floor && MainSays(tables, p).Some? {
      HostDefaultRulesHave(floor, workloads, FloorRule(p.src));
      PinsSayMain(rules, base, tables, p);
    } else if p.iif != LO && !FromWorkload(workloads, p) {
      NoneMatches(rules, base, tables, floor, workloads, p);
    } else if MainSpecific(tables, p).None? {
      LooseIsOwn(rules, base, tables, floor, workloads, p);
    } else {
      var past := if p.iif == LO then 2101 else 2103;
      var skip := if p.iif == LO then SKIP_MAIN_DEFAULT else WorkloadSkip(Taking(workloads, p));
      HostDefaultRulesHave(floor, workloads, skip);
      assert Own(skip) && skip in rules && SkipsAt(skip, p, past);
      SkipSettles(rules, base, tables, p, past, skip);
    }
  }

  /**
   With all of it in, whatever main and table 250 hold, the result of a packet changes exactly when nothing
   in front decides it, the set does, and the rules past it say otherwise.
   */
  lemma InstalledChangesExactly(rules: seq<Rule>, base: seq<Rule>, tables: map<nat, Table>,
                                floor: seq<Addr>, workloads: seq<Net>, p: Packet)
    requires Installed(rules, base, floor, workloads) && BandClear(base, tables, p)
    ensures var says := InstalledSays(tables, floor, workloads, p);
            && (Lookup(rules, tables, p) != Lookup(base, tables, p) <==>
                  Front(base, tables, p).None? && says.Some? && Tail(base, tables, p) != says)
            && (Lookup(rules, tables, p) != Lookup(base, tables, p) ==> Lookup(rules, tables, p) == says)
  {
    hide One, Lookup, TableVerdict, Own, InstalledSays;
    assert Sits(rules, base);
    ChangesByMid(rules, base, tables, p);
    InstalledDecides(rules, base, tables, floor, workloads, p);
    SittingParts(rules, base, tables, p);
  }

  // ---- with its one route --------------------------------------------------------------------

  /** No other rule ends in table 250. */
  lemma AbsentNeverOwn(base: seq<Rule>, tables: map<nat, Table>, p: Packet)
    requires OwnsTable(base)
    ensures Lookup(base, tables, p).Some? && Lookup(base, tables, p).value.To? ==>
              Lookup(base, tables, p).value.table != OWN_TABLE
  {
    LookupIsOne(base, tables, p);
  }

  /**
   With its one route in table 250, and no other rule up to main's own deciding the packet, its result
   changes exactly when the host default takes it and no rule in front decides it; it then leaves by the
   gateway.
   */
  lemma ChangesExactlyTheTaken(rules: seq<Rule>, base: seq<Rule>, tables: map<nat, Table>,
                               floor: seq<Addr>, workloads: seq<Net>, hop: string, p: Packet)
    requires Installed(rules, base, floor, workloads) && Quiet(base, tables, p) && MainFirst(base) && OwnsTable(base)
    requires TableOf(tables, OWN_TABLE) == [OwnRoute(hop)]
    ensures Lookup(rules, tables, p) != Lookup(base, tables, p) <==>
              Front(base, tables, p).None? && Taken(tables, floor, workloads, p)
    ensures Lookup(rules, tables, p) != Lookup(base, tables, p) ==>
              Lookup(rules, tables, p) == Some(To(OWN_TABLE, OwnRoute(hop)))
  {
    assert BandClear(base, tables, p);
    OwnTableSays(tables, hop, p.dst);
    if MainSpecific(tables, p).Some? {
      SpecificIsMain(tables, p);
    }
    hide One, Lookup, TableVerdict, Own;
    AbsentIsMain(base, tables, p);
    AbsentNeverOwn(base, tables, p);
    InstalledChangesExactly(rules, base, tables, floor, workloads, p);
  }

  /**
   A pin does not hold a packet that main has no route for: it falls through to table 250 and
   leaves by the gateway.
   */
  lemma PinNeedsMain(rules: seq<Rule>, base: seq<Rule>, tables: map<nat, Table>,
                     floor: seq<Addr>, workloads: seq<Net>, hop: string, p: Packet)
    requires Installed(rules, base, floor, workloads) && Quiet(base, tables, p) && MainFirst(base) && OwnsTable(base)
    requires TableOf(tables, OWN_TABLE) == [OwnRoute(hop)]
    requires p.iif == LO && p.src in floor && Front(base, tables, p).None?
    ensures Lookup(rules, tables, p) == Lookup(base, tables, p) <==> MainSays(tables, p).Some?
    ensures MainSays(tables, p).None? ==> Lookup(rules, tables, p) == Some(To(OWN_TABLE, OwnRoute(hop)))
  {
    hide One, Lookup, Own, Installed, TableVerdict;
    ChangesExactlyTheTaken(rules, base, tables, floor, workloads, hop, p);
    if MainSays(tables, p).None? {
      MainNoneIsSpecificNone(tables, p);
    }
  }

  lemma MainNoneIsSpecificNone(tables: map<nat, Table>, p: Packet)
    requires MainSays(tables, p).None?
    ensures MainSpecific(tables, p).None?
  {
  }
}
