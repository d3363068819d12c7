/**
 How the kernel routes a packet through policy rules: rules in preference order, longest prefix in
 the table a rule names, a suppressed match or a missing one falling through to the next rule.
 */
module RoutingRules {
  import opened Wrappers
  import opened Prefixes

  const MAIN_TABLE: nat := 254
  const LO := "lo"

  /** A packet to route; one this host originates comes in on `lo`. */
  datatype Packet = Packet(src: Addr, dst: Addr, iif: string)

  datatype Target = Via(hop: string) | Reject | Throw

  datatype Route = Route(dst: Net, target: Target)

  type Table = seq<Route>

  datatype Action = LookupIn(table: nat, suppress: Option<nat>) | Refuse

  datatype Rule = Rule(pref: nat, from: Option<Net>, to: Option<Net>, iif: Option<string>, action: Action)

  /** A route found in a table, or a refusal. */
  datatype Verdict = To(table: nat, route: Route) | Unreachable

  datatype Kernel = Kernel(rules: seq<Rule>, tables: map<nat, Table>)

  // ---- one table -----------------------------------------------------------------------------

  /** The longest matching prefix, the earliest of them. */
  function BestMatch(table: Table, dst: Addr): (r: Option<Route>)
    ensures r.None? <==> forall i :: 0 <= i < |table| ==> !Contains(table[i].dst, dst)
    ensures r.Some? ==> r.value in table && Contains(r.value.dst, dst)
    ensures r.Some? ==> forall i :: 0 <= i < |table| && Contains(table[i].dst, dst) ==>
              table[i].dst.len <= r.value.dst.len
  {
    if table == [] then None
    else
      hide Contains;
      var rest := BestMatch(table[1..], dst);
      assert forall i :: 1 <= i < |table| ==> table[i] == table[1..][i - 1];
      if Contains(table[0].dst, dst) && (rest.None? || rest.value.dst.len <= table[0].dst.len) then Some(table[0])
      else rest
  }

  function TableOf(tables: map<nat, Table>, n: nat): Table {
    if n in tables then tables[n] else []
  }

  // ---- the rules -----------------------------------------------------------------------------

  predicate Matches(r: Rule, p: Packet) {
    && (r.from.Some? ==> Contains(r.from.value, p.src))
    && (r.to.Some? ==> Contains(r.to.value, p.dst))
    && (r.iif.Some? ==> p.iif == r.iif.value)
  }

  /** What looking `dst` up in a table decides; `None` goes on to the next rule. */
  function TableVerdict(tables: map<nat, Table>, n: nat, suppress: Option<nat>, dst: Addr): Option<Verdict> {
    match BestMatch(TableOf(tables, n), dst)
    case None => None
    case Some(route) =>
      match route.target
      case Throw => None
      case Reject => Some(Unreachable)
      case Via(_) => if suppress.Some? && route.dst.len <= suppress.value then None else Some(To(n, route))
  }

  function One(r: Rule, tables: map<nat, Table>, p: Packet): Option<Verdict> {
    if !Matches(r, p) then None
    else match r.action
      case Refuse => Some(Unreachable)
      case LookupIn(n, suppress) => TableVerdict(tables, n, suppress, p.dst)
  }

  /** The first rule that decides; `None` is no route at all. */
  function Lookup(rules: seq<Rule>, tables: map<nat, Table>, p: Packet): Option<Verdict> {
    if rules == [] then None
    else if One(rules[0], tables, p).Some? then One(rules[0], tables, p)
    else Lookup(rules[1..], tables, p)
  }

  function Routed(k: Kernel, p: Packet): Option<Verdict> {
    Lookup(k.rules, k.tables, p)
  }

  lemma {:induction false} LookupConcat(a: seq<Rule>, b: seq<Rule>, tables: map<nat, Table>, p: Packet)
    ensures Lookup(a + b, tables, p) ==
            if Lookup(a, tables, p).Some? then Lookup(a, tables, p) else Lookup(b, tables, p)
  {
    hide One;
    if a == [] {
      assert a + b == b;
    } else {
      LookupConcat(a[1..], b, tables, p);
      assert (a + b)[0] == a[0] && (a + b)[1..] == a[1..] + b;
    }
  }

  /** Rules that all pass or all say the same decide that, when one of them decides. */
  lemma {:induction false} LookupAgreed(rules: seq<Rule>, tables: map<nat, Table>, p: Packet, v: Verdict)
    requires forall r :: r in rules ==> One(r, tables, p) == None || One(r, tables, p) == Some(v)
    ensures Lookup(rules, tables, p) ==
            if exists r :: r in rules && One(r, tables, p).Some? then Some(v) else None
  {
    hide One;
    if rules != [] {
      LookupAgreed(rules[1..], tables, p, v);
      assert forall r :: r in rules <==> r == rules[0] || r in rules[1..];
    }
  }

  /** What decides is one of the rules. */
  lemma {:induction false} LookupIsOne(rules: seq<Rule>, tables: map<nat, Table>, p: Packet)
    ensures Lookup(rules, tables, p).Some? ==>
              exists r :: r in rules && One(r, tables, p) == Lookup(rules, tables, p)
    ensures Lookup(rules, tables, p).None? ==> forall r :: r in rules ==> One(r, tables, p) == None
  {
    hide One;
    if rules != [] {
      LookupIsOne(rules[1..], tables, p);
      assert forall r :: r in rules <==> r == rules[0] || r in rules[1..];
    }
  }

  // ---- preference order ----------------------------------------------------------------------

  predicate Sorted(rules: seq<Rule>) {
    forall i, j :: 0 <= i < j < |rules| ==> rules[i].pref <= rules[j].pref
  }

  /** `ip rule add`: after every rule of the same or a smaller preference. */
  function Insert(rules: seq<Rule>, r: Rule): seq<Rule> {
    Below(rules, r.pref + 1) + [r] + From(rules, r.pref + 1)
  }

  /** `ip rule del` of an exact rule: its first occurrence, if any. */
  function Remove(rules: seq<Rule>, r: Rule): seq<Rule> {
    if rules == [] then []
    else if rules[0] == r then rules[1..]
    else [rules[0]] + Remove(rules[1..], r)
  }

  function Below(rules: seq<Rule>, n: nat): seq<Rule> {
    if rules == [] then []
    else (if rules[0].pref < n then [rules[0]] else []) + Below(rules[1..], n)
  }

  function From(rules: seq<Rule>, n: nat): seq<Rule> {
    if rules == [] then []
    else (if rules[0].pref < n then [] else [rules[0]]) + From(rules[1..], n)
  }

  lemma {:induction false} BelowHas(rules: seq<Rule>, n: nat, r: Rule)
    ensures r in Below(rules, n) <==> r in rules && r.pref < n
    ensures r in From(rules, n) <==> r in rules && r.pref >= n
  {
    if rules != [] {
      BelowHas(rules[1..], n, r);
      assert r in rules <==> r == rules[0] || r in rules[1..];
    }
  }

  lemma {:induction false} AllFrom(rules: seq<Rule>, n: nat)
    requires forall r :: r in rules ==> r.pref >= n
    ensures Below(rules, n) == [] && From(rules, n) == rules
  {
    if rules != [] {
      assert rules[0] in rules;
      AllFrom(rules[1..], n);
    }
  }

  lemma {:induction false} SplitAt(rules: seq<Rule>, n: nat)
    requires Sorted(rules)
    ensures rules == Below(rules, n) + From(rules, n)
  {
    if rules != [] {
      if rules[0].pref < n {
        SplitAt(rules[1..], n);
      } else {
        AllFrom(rules, n);
      }
    }
  }

  /** A lookup goes through the rules below a preference and then through the rest. */
  lemma LookupSplit(rules: seq<Rule>, tables: map<nat, Table>, p: Packet, n: nat)
    requires Sorted(rules)
    ensures Lookup(rules, tables, p) ==
            if Lookup(Below(rules, n), tables, p).Some? then Lookup(Below(rules, n), tables, p)
            else Lookup(From(rules, n), tables, p)
  {
    SplitAt(rules, n);
    LookupConcat(Below(rules, n), From(rules, n), tables, p);
  }
}
