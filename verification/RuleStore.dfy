/**
 Rules put into and taken out of the kernel's ordered list: what stays, and that taking the host
 default's five shapes out again gives the list without it.
 */
module RuleStore {
  import opened Wrappers
  import Seqs
  import opened Prefixes
  import opened RoutingRules
  import opened HostDefault

  // ---- one insertion, one removal ------------------------------------------------------------

  lemma InsertHas(rules: seq<Rule>, r: Rule, x: Rule)
    ensures x in Insert(rules, r) <==> x == r || x in rules
  {
    BelowHas(rules, r.pref + 1, x);
  }

  lemma InsertSorts(rules: seq<Rule>, r: Rule)
    requires Sorted(rules)
    ensures Sorted(Insert(rules, r))
  {
    var n := r.pref + 1;
    var low, high := Below(rules, n), From(rules, n);
    FromIsSorted(rules, n);
    forall x | x in low
      ensures x.pref <= r.pref
    {
      BelowHas(rules, n, x);
    }
    forall x | x in high
      ensures x.pref > r.pref
    {
      BelowHas(rules, n, x);
    }
    SortedConcat(low, r, high);
  }

  lemma SortedConcat(low: seq<Rule>, r: Rule, high: seq<Rule>)
    requires Sorted(low) && Sorted(high)
    requires forall x :: x in low ==> x.pref <= r.pref
    requires forall x :: x in high ==> x.pref > r.pref
    ensures Sorted(low + [r] + high)
  {
    var all := low + [r] + high;
    forall i, j | 0 <= i < j < |all|
      ensures all[i].pref <= all[j].pref
    {
      assert i < |low| ==> all[i] in low;
      assert i > |low| ==> all[i] in high && all[i] == high[i - |low| - 1];
      assert j < |low| ==> all[j] in low;
      assert j > |low| ==> all[j] in high && all[j] == high[j - |low| - 1];
    }
  }

  lemma {:induction false} RemoveHas(rules: seq<Rule>, r: Rule, x: Rule)
    ensures x != r ==> (x in Remove(rules, r) <==> x in rules)
    ensures x in Remove(rules, r) ==> x in rules
    ensures |Remove(rules, r)| == if r in rules then |rules| - 1 else |rules|
  {
    if rules != [] {
      RemoveHas(rules[1..], r, x);
      assert forall y :: y in rules <==> y == rules[0] || y in rules[1..];
    }
  }

  lemma {:induction false} RemoveSorts(rules: seq<Rule>, r: Rule)
    requires Sorted(rules)
    ensures Sorted(Remove(rules, r))
  {
    if rules != [] {
      var rest := rules[1..];
      assert Sorted(rest) && forall x :: x in rest ==> rules[0].pref <= x.pref;
      if rules[0] != r {
        RemoveSorts(rest, r);
        forall x | x in Remove(rest, r)
          ensures rules[0].pref <= x.pref
        {
          RemoveHas(rest, r, x);
        }
        SortedCons(rules[0], Remove(rest, r));
      }
    }
  }

  // ---- the rules that are not the host default's ---------------------------------------------

  /** The list with the five shapes taken out: the rules with cfab's host default absent. */
  function Rest(rules: seq<Rule>): seq<Rule> {
    if rules == [] then []
    else (if Own(rules[0]) then [] else [rules[0]]) + Rest(rules[1..])
  }

  lemma {:induction false} RestHas(rules: seq<Rule>, x: Rule)
    ensures x in Rest(rules) <==> x in rules && !Own(x)
  {
    hide Own;
    if rules != [] {
      RestHas(rules[1..], x);
      assert x in rules <==> x == rules[0] || x in rules[1..];
    }
  }

  function Kept(r: Rule): seq<Rule> {
    if Own(r) then [] else [r]
  }

  lemma RestCons(r: Rule, rules: seq<Rule>)
    ensures Rest([r] + rules) == Kept(r) + Rest(rules)
  {
    hide Own;
    assert ([r] + rules)[1..] == rules;
  }

  lemma {:induction false} RestConcat(a: seq<Rule>, b: seq<Rule>)
    ensures Rest(a + b) == Rest(a) + Rest(b)
  {
    if a == [] {
      Seqs.NoneLeft(b);
      Seqs.NoneLeft(Rest(b));
    } else {
      hide Rest, Kept;
      RestConcat(a[1..], b);
      RestCons(a[0], a[1..] + b);
      RestCons(a[0], a[1..]);
      Seqs.Uncons(a, b);
      Seqs.Assoc(Kept(a[0]), Rest(a[1..]), Rest(b));
    }
  }

  lemma InsertLeavesRest(rules: seq<Rule>, r: Rule)
    requires Sorted(rules) && Own(r)
    ensures Rest(Insert(rules, r)) == Rest(rules)
  {
    var n := r.pref + 1;
    SplitAt(rules, n);
    var low, high := Below(rules, n), From(rules, n);
    RestConcat(low, high);
    RestConcat(low + [r], high);
    RestConcat(low, [r]);
    assert [r][1..] == [];
    assert Rest([r]) == [];
  }

  lemma {:induction false} RemoveLeavesRest(rules: seq<Rule>, r: Rule)
    requires Own(r)
    ensures Rest(Remove(rules, r)) == Rest(rules)
  {
    if rules != [] {
      RemoveLeavesRest(rules[1..], r);
      hide Own;
      if rules[0] != r {
        assert ([rules[0]] + Remove(rules[1..], r))[1..] == Remove(rules[1..], r);
      }
    }
  }

  lemma {:induction false} RestOfBand(rules: seq<Rule>, n: nat)
    ensures Below(Rest(rules), n) == Rest(Below(rules, n))
    ensures From(Rest(rules), n) == Rest(From(rules, n))
  {
    hide Own;
    if rules != [] {
      RestOfBand(rules[1..], n);
      var x, rest := rules[0], rules[1..];
      RestConcat(if x.pref < n then [x] else [], Below(rest, n));
      RestConcat(if x.pref < n then [] else [x], From(rest, n));
      assert [x][1..] == [] && Rest([x]) == if Own(x) then [] else [x];
      BelowCons(if Own(x) then [] else [x], Rest(rest), n);
    }
  }

  lemma BelowCons(a: seq<Rule>, b: seq<Rule>, n: nat)
    requires |a| <= 1
    ensures Below(a + b, n) == Below(a, n) + Below(b, n)
    ensures From(a + b, n) == From(a, n) + From(b, n)
  {
    if a == [] {
      assert a + b == b;
    } else {
      assert (a + b)[1..] == b && a[1..] == [];
    }
  }

  lemma {:induction false} RestOfOthers(rules: seq<Rule>)
    requires forall r :: r in rules ==> !Own(r)
    ensures Rest(rules) == rules
  {
    hide Own;
    if rules != [] {
      assert rules[0] in rules;
      RestOfOthers(rules[1..]);
    }
  }

  lemma {:induction false} RestSorts(rules: seq<Rule>)
    requires Sorted(rules)
    ensures Sorted(Rest(rules))
  {
    hide Own;
    if rules != [] {
      var rest := rules[1..];
      assert Sorted(rest) && forall x :: x in rest ==> rules[0].pref <= x.pref;
      RestSorts(rest);
      forall x | x in Rest(rest)
        ensures rules[0].pref <= x.pref
      {
        RestHas(rest, x);
      }
      SortedCons(rules[0], Rest(rest));
      assert [] + Rest(rest) == Rest(rest);
    }
  }

  lemma OwnPrefs(r: Rule)
    requires Own(r)
    ensures FIRST_PREF <= r.pref < PAST_PREF
  {
  }

  /** Every sorted list sits on the list with the five shapes taken out. */
  lemma SitsOnRest(rules: seq<Rule>)
    requires Sorted(rules)
    ensures Sits(rules, Rest(rules))
  {
    RestSorts(rules);
    RestOfBand(rules, FIRST_PREF);
    RestOfBand(rules, PAST_PREF);
    forall r | r in Below(rules, FIRST_PREF)
      ensures !Own(r)
    {
      BelowHas(rules, FIRST_PREF, r);
      if Own(r) {
        OwnPrefs(r);
      }
    }
    forall r | r in From(rules, PAST_PREF)
      ensures !Own(r)
    {
      BelowHas(rules, PAST_PREF, r);
      if Own(r) {
        OwnPrefs(r);
      }
    }
    RestOfOthers(Below(rules, FIRST_PREF));
    RestOfOthers(From(rules, PAST_PREF));
    forall r | r in Mid(rules)
      ensures r in Rest(rules) || Own(r)
    {
      MidHas(rules, r);
      RestHas(rules, r);
    }
  }

  // ---- whose rule decides --------------------------------------------------------------------

  /** The position of the rule that decides a packet, or the end. */
  function DecidesAt(rules: seq<Rule>, tables: map<nat, Table>, p: Packet): (i: nat)
    ensures i <= |rules| && forall j :: 0 <= j < i ==> One(rules[j], tables, p).None?
    ensures i < |rules| ==> One(rules[i], tables, p).Some?
  {
    if rules == [] || One(rules[0], tables, p).Some? then 0 else 1 + DecidesAt(rules[1..], tables, p)
  }

  /**
   On any list, other rules at the five preferences included, the five shapes change a packet's result
   exactly when one of them decides it and the other rules past that one say otherwise.
   */
  lemma {:induction false} ChangesOnlyByOwn(rules: seq<Rule>, tables: map<nat, Table>, p: Packet)
    ensures var i := DecidesAt(rules, tables, p);
            Lookup(rules, tables, p) != Lookup(Rest(rules), tables, p) <==>
              i < |rules| && Own(rules[i]) && Lookup(Rest(rules[i + 1..]), tables, p) != One(rules[i], tables, p)
  {
    hide Own, One;
    if rules != [] {
      var rest := Rest(rules[1..]);
      assert Rest(rules) == (if Own(rules[0]) then [] else [rules[0]]) + rest;
      Seqs.NoneLeft(rest);
      assert ([rules[0]] + rest)[1..] == rest;
      if One(rules[0], tables, p).None? {
        ChangesOnlyByOwn(rules[1..], tables, p);
        var i := DecidesAt(rules[1..], tables, p);
        if i < |rules[1..]| {
          assert rules[1..][i + 1..] == rules[i + 2..];
        }
      }
    }
  }

  // ---- a packet they change ------------------------------------------------------------------

  const PINNED: Addr := 0xC0A8_0102
  const VPN_TABLE: nat := 52
  const VPN_RULE: Rule := Rule(5000, None, None, None, LookupIn(VPN_TABLE, None))
  const MAIN_DEFAULT: Route := Route(Prefix(0, 0), Via("lan"))
  const VPN_DEFAULT: Route := Route(Prefix(0, 0), Via("vpn"))

  /** One pinned address, and a rule of others between the five preferences and main's own. */
  const VPN_RULES: seq<Rule> := [FloorRule(PINNED), SKIP_MAIN_DEFAULT, TAKE_OWN_DEFAULT, VPN_RULE, MAIN_RULE]
  const VPN_TABLES: map<nat, Table> := map[MAIN_TABLE := [MAIN_DEFAULT], VPN_TABLE := [VPN_DEFAULT]]

  lemma VpnRest()
    ensures Rest(VPN_RULES) == [VPN_RULE, MAIN_RULE]
  {
    FloorRuleIsFloor(PINNED);
    assert Own(SKIP_MAIN_DEFAULT) && Own(TAKE_OWN_DEFAULT) && !Own(VPN_RULE) && !Own(MAIN_RULE);
    hide Own, FloorRule;
    RestOfOthers([VPN_RULE, MAIN_RULE]);
    RestCons(FloorRule(PINNED), [SKIP_MAIN_DEFAULT, TAKE_OWN_DEFAULT, VPN_RULE, MAIN_RULE]);
    RestCons(SKIP_MAIN_DEFAULT, [TAKE_OWN_DEFAULT, VPN_RULE, MAIN_RULE]);
    RestCons(TAKE_OWN_DEFAULT, [VPN_RULE, MAIN_RULE]);
    assert [FloorRule(PINNED)] + [SKIP_MAIN_DEFAULT, TAKE_OWN_DEFAULT, VPN_RULE, MAIN_RULE] == VPN_RULES;
    assert [SKIP_MAIN_DEFAULT] + [TAKE_OWN_DEFAULT, VPN_RULE, MAIN_RULE]
        == [SKIP_MAIN_DEFAULT, TAKE_OWN_DEFAULT, VPN_RULE, MAIN_RULE];
    assert [TAKE_OWN_DEFAULT] + [VPN_RULE, MAIN_RULE] == [TAKE_OWN_DEFAULT, VPN_RULE, MAIN_RULE];
  }

  lemma VpnSits()
    ensures Sits(VPN_RULES, Rest(VPN_RULES)) && Rest(VPN_RULES) == [VPN_RULE, MAIN_RULE]
  {
    assert Sorted(VPN_RULES) by {
      assert FloorRule(PINNED).pref == 2099;
      hide FloorRule;
    }
    VpnRest();
    hide FloorRule, Sorted, Own, Rest;
    SitsOnRest(VPN_RULES);
  }

  /** With table 250 empty, the pin takes a packet to main that another rule would send elsewhere. */
  lemma EmptyChangesAPacket(dst: Addr)
    ensures var p := Packet(PINNED, dst, LO);
            && Sits(VPN_RULES, Rest(VPN_RULES)) && BandClear(Rest(VPN_RULES), VPN_TABLES, p)
            && TableOf(VPN_TABLES, OWN_TABLE) == []
            && Lookup(VPN_RULES, VPN_TABLES, p) == Some(To(MAIN_TABLE, MAIN_DEFAULT))
            && Lookup(Rest(VPN_RULES), VPN_TABLES, p) == Some(To(VPN_TABLE, VPN_DEFAULT))
  {
    var p := Packet(PINNED, dst, LO);
    VpnSits();
    hide Sits, Rest, Sorted;
    SingleContains(PINNED, PINNED);
    DefaultContainsAll(MAIN_DEFAULT.dst, dst);
    hide Contains, Single;
    assert [MAIN_DEFAULT][1..] == [] && [VPN_DEFAULT][1..] == [];
    assert One(FloorRule(PINNED), VPN_TABLES, p) == Some(To(MAIN_TABLE, MAIN_DEFAULT));
    assert One(VPN_RULE, VPN_TABLES, p) == Some(To(VPN_TABLE, VPN_DEFAULT));
  }

  // ---- floor pins in the list ----------------------------------------------------------------

  /** The addresses the pins carry; a rule of another shape at the same preference does not count. */
  function PinnedAddresses(rules: seq<Rule>): seq<Addr> {
    if rules == [] then []
    else (if IsFloor(rules[0]) then [rules[0].from.value.net] else []) + PinnedAddresses(rules[1..])
  }

  lemma {:induction false} PinnedAddressesHave(rules: seq<Rule>, a: Addr)
    ensures a in PinnedAddresses(rules) <==> FloorRule(a) in rules
  {
    if rules != [] {
      PinnedAddressesHave(rules[1..], a);
      FloorRuleIsFloor(a);
      assert FloorRule(a) in rules <==> FloorRule(a) == rules[0] || FloorRule(a) in rules[1..];
    }
  }

  lemma FloorRuleIsFloor(a: Addr)
    ensures IsFloor(FloorRule(a)) && Own(FloorRule(a)) && FloorRule(a).from.value.net == a
  {
  }

  /** A rule at 2102 or 2103 with a source and no other selector. */
  predicate NamesSource(r: Rule) {
    (r.pref == 2102 || r.pref == 2103) && r.from.Some? && r.to.None? && r.iif.None? && r.action.LookupIn?
  }

  /** The workload prefixes the rules at 2102 and 2103 name, each once, after those in `found`. */
  function WorkloadSources(found: seq<Net>, rules: seq<Rule>): seq<Net>
    decreases rules
  {
    if rules == [] then found
    else
      var r := rules[0];
      WorkloadSources(if NamesSource(r) && r.from.value !in found then found + [r.from.value] else found, rules[1..])
  }

  lemma {:induction false} WorkloadSourcesHave(found: seq<Net>, rules: seq<Rule>, w: Net)
    ensures w in WorkloadSources(found, rules) <==>
              w in found || exists r :: r in rules && NamesSource(r) && r.from.value == w
    decreases rules
  {
    if rules != [] {
      var r := rules[0];
      WorkloadSourcesHave(if NamesSource(r) && r.from.value !in found then found + [r.from.value] else found,
                          rules[1..], w);
      assert forall x :: x in rules <==> x == r || x in rules[1..];
    }
  }
}
