/**
 The control-egress ceiling for iptables: the rendered chains, what they do to a packet, restoring
 them over whatever was there, and taking them out again.
 */
module Ceiling {
  import opened Wrappers
  import Seqs

  const OUTPUT := "OUTPUT"
  const OUT_CHAIN := "cfab-out"
  const OSPF: nat := 89

  datatype CeilingRow = CeilingRow(zone: string, ifname: string, rate: nat, burst: nat)

  datatype Rule =
    | Jump(oif: Option<string>, proto: Option<nat>, chain: string)
    | LimitReturn(rate: nat, burst: nat)
    | DropAll
    | Other(text: string)

  type Chains = map<string, seq<Rule>>

  datatype Line = Declare(chain: string) | Flush(chain: string) | Append(chain: string, rule: Rule)

  function CeilChain(zone: string): string {
    "cfab-ceil-" + zone
  }

  predicate IsOurs(chain: string) {
    "cfab-" <= chain
  }

  // ---- the render ----------------------------------------------------------------------------

  function JumpTo(c: CeilingRow): Rule {
    Jump(Some(c.ifname), Some(OSPF), CeilChain(c.zone))
  }

  function Body(c: CeilingRow): seq<Rule> {
    [LimitReturn(c.rate, c.burst), DropAll]
  }

  function Declares(cs: seq<CeilingRow>): seq<Line> {
    seq(|cs|, i requires 0 <= i < |cs| => Declare(CeilChain(cs[i].zone)))
  }

  function Flushes(cs: seq<CeilingRow>): seq<Line> {
    seq(|cs|, i requires 0 <= i < |cs| => Flush(CeilChain(cs[i].zone)))
  }

  function Jumps(cs: seq<CeilingRow>): seq<Line> {
    seq(|cs|, i requires 0 <= i < |cs| => Append(OUT_CHAIN, JumpTo(cs[i])))
  }

  function Bodies(cs: seq<CeilingRow>): seq<Line> {
    if cs == [] then []
    else
      var c := cs[|cs| - 1];
      Bodies(cs[..|cs| - 1])
      + [Append(CeilChain(c.zone), LimitReturn(c.rate, c.burst)), Append(CeilChain(c.zone), DropAll)]
  }

  function Render(cs: seq<CeilingRow>): seq<Line> {
    [Declare(OUT_CHAIN)] + Declares(cs) + [Flush(OUT_CHAIN)] + Flushes(cs) + Jumps(cs) + Bodies(cs)
  }

  /** The restore input, pushed line by line. */
  method Generate(cs: seq<CeilingRow>) returns (out: seq<Line>)
    ensures out == Render(cs)
  {
    out := [Declare(OUT_CHAIN)];
    for i := 0 to |cs|
      invariant out == [Declare(OUT_CHAIN)] + Declares(cs[..i])
    {
      out := out + [Declare(CeilChain(cs[i].zone))];
      assert Declares(cs[..i + 1]) == Declares(cs[..i]) + [Declare(CeilChain(cs[i].zone))];
    }
    assert cs[..|cs|] == cs;
    out := out + [Flush(OUT_CHAIN)];
    var before := out;
    for i := 0 to |cs|
      invariant out == before + Flushes(cs[..i])
    {
      out := out + [Flush(CeilChain(cs[i].zone))];
      assert Flushes(cs[..i + 1]) == Flushes(cs[..i]) + [Flush(CeilChain(cs[i].zone))];
    }
    before := out;
    for i := 0 to |cs|
      invariant out == before + Jumps(cs[..i])
    {
      out := out + [Append(OUT_CHAIN, JumpTo(cs[i]))];
      assert Jumps(cs[..i + 1]) == Jumps(cs[..i]) + [Append(OUT_CHAIN, JumpTo(cs[i]))];
    }
    before := out;
    for i := 0 to |cs|
      invariant out == before + Bodies(cs[..i])
    {
      var chain := CeilChain(cs[i].zone);
      out := out + [Append(chain, LimitReturn(cs[i].rate, cs[i].burst))];
      out := out + [Append(chain, DropAll)];
      assert cs[..i + 1][..i] == cs[..i];
    }
  }

  // ---- restoring without a flush -------------------------------------------------------------

  /** A declaration makes a missing chain and leaves one that is there alone. */
  function ApplyLine(t: Chains, l: Line): Chains {
    match l
    case Declare(c) => if c in t then t else t[c := []]
    case Flush(c) => if c in t then t[c := []] else t
    case Append(c, r) => if c in t then t[c := t[c] + [r]] else t
  }

  function Restore(t: Chains, lines: seq<Line>): Chains
    decreases lines
  {
    if lines == [] then t else Restore(ApplyLine(t, lines[0]), lines[1..])
  }

  lemma {:induction false} RestoreConcat(t: Chains, a: seq<Line>, b: seq<Line>)
    ensures Restore(t, a + b) == Restore(Restore(t, a), b)
    decreases a
  {
    if a == [] {
      assert a + b == b;
    } else {
      RestoreConcat(ApplyLine(t, a[0]), a[1..], b);
      assert (a + b)[0] == a[0] && (a + b)[1..] == a[1..] + b;
    }
  }

  /** The rules the lines append to `chain`, in order. */
  function Appended(lines: seq<Line>, chain: string): seq<Rule> {
    if lines == [] then [] else AppendedBy(lines[0], chain) + Appended(lines[1..], chain)
  }

  function AppendedBy(l: Line, chain: string): seq<Rule> {
    if l.Append? && l.chain == chain then [l.rule] else []
  }

  predicate AreDeclares(lines: seq<Line>) {
    forall l :: l in lines ==> l.Declare?
  }

  predicate AreFlushes(lines: seq<Line>) {
    forall l :: l in lines ==> l.Flush?
  }

  predicate AreAppends(lines: seq<Line>) {
    forall l :: l in lines ==> l.Append?
  }

  lemma {:induction false} RestoreDeclares(t: Chains, lines: seq<Line>, chain: string)
    requires AreDeclares(lines)
    ensures chain in Restore(t, lines) <==> chain in t || Declare(chain) in lines
    ensures chain in t ==> Restore(t, lines)[chain] == t[chain]
    decreases lines
  {
    if lines != [] {
      assert lines[0] in lines;
      RestoreDeclares(ApplyLine(t, lines[0]), lines[1..], chain);
      assert Declare(chain) in lines <==> Declare(chain) == lines[0] || Declare(chain) in lines[1..];
    }
  }

  lemma {:induction false} RestoreFlushes(t: Chains, lines: seq<Line>, chain: string)
    requires AreFlushes(lines) && chain in t
    ensures chain in Restore(t, lines)
    ensures Restore(t, lines)[chain] == if Flush(chain) in lines then [] else t[chain]
    decreases lines
  {
    if lines != [] {
      assert lines[0] in lines;
      RestoreFlushes(ApplyLine(t, lines[0]), lines[1..], chain);
      assert Flush(chain) in lines <==> Flush(chain) == lines[0] || Flush(chain) in lines[1..];
    }
  }

  lemma {:induction false} RestoreAppends(t: Chains, lines: seq<Line>, chain: string)
    requires AreAppends(lines) && chain in t
    ensures chain in Restore(t, lines)
    ensures Restore(t, lines)[chain] == t[chain] + Appended(lines, chain)
    decreases lines
  {
    if lines != [] {
      var l, rest := lines[0], lines[1..];
      assert l in lines;
      RestoreAppends(ApplyLine(t, l), rest, chain);
      if l.chain == chain {
        assert t[chain] + [l.rule] + Appended(rest, chain) == t[chain] + ([l.rule] + Appended(rest, chain));
      } else {
        assert [] + Appended(rest, chain) == Appended(rest, chain);
      }
    }
  }

  lemma {:induction false} RestoreMakesNone(t: Chains, lines: seq<Line>, chain: string)
    requires AreFlushes(lines) || AreAppends(lines)
    ensures chain in Restore(t, lines) <==> chain in t
    decreases lines
  {
    if lines != [] {
      assert lines[0] in lines;
      RestoreMakesNone(ApplyLine(t, lines[0]), lines[1..], chain);
    }
  }

  lemma AppendedCons(l: Line, lines: seq<Line>, chain: string)
    ensures Appended([l] + lines, chain) == AppendedBy(l, chain) + Appended(lines, chain)
  {
    assert ([l] + lines)[1..] == lines;
  }

  lemma {:induction false} AppendedConcat(a: seq<Line>, b: seq<Line>, chain: string)
    ensures Appended(a + b, chain) == Appended(a, chain) + Appended(b, chain)
  {
    if a == [] {
      Seqs.NoneLeft(b);
      Seqs.NoneLeft(Appended(b, chain));
    } else {
      hide Appended, AppendedBy;
      AppendedConcat(a[1..], b, chain);
      AppendedCons(a[0], a[1..] + b, chain);
      AppendedCons(a[0], a[1..], chain);
      Seqs.Uncons(a, b);
      Seqs.Assoc(AppendedBy(a[0], chain), Appended(a[1..], chain), Appended(b, chain));
    }
  }

  predicate DistinctZones(cs: seq<CeilingRow>) {
    forall i, j :: 0 <= i < j < |cs| ==> cs[i].zone != cs[j].zone
  }

  predicate DistinctBonds(cs: seq<CeilingRow>) {
    forall i, j :: 0 <= i < j < |cs| ==> cs[i].ifname != cs[j].ifname
  }

  function JumpRules(cs: seq<CeilingRow>): seq<Rule> {
    seq(|cs|, i requires 0 <= i < |cs| => JumpTo(cs[i]))
  }

  lemma CeilChainTells(a: string, b: string)
    ensures CeilChain(a) == CeilChain(b) ==> a == b
    ensures CeilChain(a) != OUT_CHAIN && IsOurs(CeilChain(a)) && IsOurs(OUT_CHAIN)
  {
    assert CeilChain(a)[5] == 'c' && OUT_CHAIN[5] == 'o';
    if CeilChain(a) == CeilChain(b) {
      assert CeilChain(a)[10..] == a && CeilChain(b)[10..] == b;
    }
  }

  lemma {:induction false} AppendedJumps(cs: seq<CeilingRow>, chain: string)
    ensures Appended(Jumps(cs), chain) == if chain == OUT_CHAIN then JumpRules(cs) else []
  {
    if cs != [] {
      var init, c := cs[..|cs| - 1], cs[|cs| - 1];
      AppendedJumps(init, chain);
      assert Jumps(cs) == Jumps(init) + [Append(OUT_CHAIN, JumpTo(c))];
      assert JumpRules(cs) == JumpRules(init) + [JumpTo(c)];
      hide Jumps, JumpRules, JumpTo, Appended;
      AppendedConcat(Jumps(init), [Append(OUT_CHAIN, JumpTo(c))], chain);
      AppendedOne(OUT_CHAIN, JumpTo(c), chain);
      Seqs.NoneLeft<Rule>([]);
    }
  }

  lemma AppendedOne(c: string, r: Rule, chain: string)
    ensures Appended([Append(c, r)], chain) == if chain == c then [r] else []
  {
    assert [Append(c, r)][1..] == [];
  }

  lemma AppendedTwo(c: string, r: Rule, q: Rule, chain: string)
    ensures Appended([Append(c, r), Append(c, q)], chain) == if chain == c then [r, q] else []
  {
    assert [Append(c, r), Append(c, q)] == [Append(c, r)] + [Append(c, q)];
    AppendedConcat([Append(c, r)], [Append(c, q)], chain);
    AppendedOne(c, r, chain);
    AppendedOne(c, q, chain);
  }

  lemma {:induction false} AppendedBodies(cs: seq<CeilingRow>, chain: string)
    requires DistinctZones(cs)
    ensures !IsCeiling(cs, chain) ==> Appended(Bodies(cs), chain) == []
    ensures forall i :: 0 <= i < |cs| && CeilChain(cs[i].zone) == chain ==> Appended(Bodies(cs), chain) == Body(cs[i])
  {
    if cs != [] {
      var init, c := cs[..|cs| - 1], cs[|cs| - 1];
      AppendedBodies(init, chain);
      var tail := [Append(CeilChain(c.zone), LimitReturn(c.rate, c.burst)), Append(CeilChain(c.zone), DropAll)];
      assert Bodies(cs) == Bodies(init) + tail;
      AppendedConcat(Bodies(init), tail, chain);
      AppendedTwo(CeilChain(c.zone), LimitReturn(c.rate, c.burst), DropAll, chain);
      LastCeiling(cs, chain);
      hide Appended, Bodies, IsCeiling, CeilChain, DistinctZones;
      if CeilChain(c.zone) == chain {
        Seqs.NoneLeft(Body(c));
      } else {
        Seqs.NoneLeft(Appended(Bodies(init), chain));
        forall i | 0 <= i < |cs| && CeilChain(cs[i].zone) == chain
          ensures Appended(Bodies(init), chain) == Body(cs[i])
        {
          assert init[i] == cs[i];
        }
      }
    }
  }

  /** A chain is the last ceiling's, or one of those before it, never both. */
  lemma LastCeiling(cs: seq<CeilingRow>, chain: string)
    requires DistinctZones(cs) && cs != []
    ensures var init, c := cs[..|cs| - 1], cs[|cs| - 1];
            && (CeilChain(c.zone) == chain ==>
                  forall i :: 0 <= i < |cs| && CeilChain(cs[i].zone) == chain ==> i == |cs| - 1)
            && (CeilChain(c.zone) == chain ==> !IsCeiling(init, chain))
            && (CeilChain(c.zone) != chain ==> (IsCeiling(cs, chain) <==> IsCeiling(init, chain)))
  {
    var init, c := cs[..|cs| - 1], cs[|cs| - 1];
    forall i | 0 <= i < |init| && CeilChain(c.zone) == chain
      ensures CeilChain(cs[i].zone) != chain
    {
      CeilChainTells(cs[i].zone, c.zone);
    }
    hide CeilChain;
    if IsCeiling(init, chain) {
      var i :| 0 <= i < |init| && CeilChain(init[i].zone) == chain;
      assert CeilChain(cs[i].zone) == chain;
    }
    if IsCeiling(cs, chain) && CeilChain(c.zone) != chain {
      var i :| 0 <= i < |cs| && CeilChain(cs[i].zone) == chain;
      assert CeilChain(init[i].zone) == chain;
    }
  }

  /** The chain of a rendered ceiling. */
  predicate IsCeiling(cs: seq<CeilingRow>, chain: string) {
    exists i :: 0 <= i < |cs| && CeilChain(cs[i].zone) == chain
  }

  /** The rules a chain holds after the render is restored over `t`. */
  function Restored(t: Chains, cs: seq<CeilingRow>): Chains {
    Restore(t, Render(cs))
  }

  lemma RestoredParts(t: Chains, cs: seq<CeilingRow>, chain: string)
    ensures chain in Restored(t, cs) <==> chain in t || chain == OUT_CHAIN || IsCeiling(cs, chain)
    ensures chain in Restored(t, cs) ==>
              Restored(t, cs)[chain] ==
              (if chain == OUT_CHAIN || IsCeiling(cs, chain) then [] else t[chain])
              + Appended(Jumps(cs) + Bodies(cs), chain)
  {
    var ds, fs, ap := [Declare(OUT_CHAIN)] + Declares(cs), [Flush(OUT_CHAIN)] + Flushes(cs), Jumps(cs) + Bodies(cs);
    assert Render(cs) == ds + fs + ap;
    RestoreConcat(t, ds + fs, ap);
    RestoreConcat(t, ds, fs);
    var t1 := Restore(t, ds);
    var t2 := Restore(t1, fs);
    BodiesAppend(cs);
    RestoreDeclares(t, ds, chain);
    assert Declare(chain) in ds <==> chain == OUT_CHAIN || IsCeiling(cs, chain) by {
      DeclaresHave(cs, chain);
    }
    assert Flush(chain) in fs <==> chain == OUT_CHAIN || IsCeiling(cs, chain) by {
      FlushesHave(cs, chain);
    }
    RestoreMakesNone(t1, fs, chain);
    RestoreMakesNone(t2, ap, chain);
    if chain in t1 {
      RestoreFlushes(t1, fs, chain);
      RestoreAppends(t2, ap, chain);
      FreshIsEmptyOrFlushed(t, ds, chain);
    }
  }

  lemma FreshIsEmptyOrFlushed(t: Chains, ds: seq<Line>, chain: string)
    requires AreDeclares(ds) && chain in Restore(t, ds)
    ensures Restore(t, ds)[chain] == if chain in t then t[chain] else []
    decreases ds
  {
    if ds != [] {
      assert ds[0] in ds;
      FreshIsEmptyOrFlushed(ApplyLine(t, ds[0]), ds[1..], chain);
    }
  }

  lemma DeclaresHave(cs: seq<CeilingRow>, chain: string)
    ensures Declare(chain) in Declares(cs) <==> IsCeiling(cs, chain)
  {
    var ds := Declares(cs);
    if IsCeiling(cs, chain) {
      var i :| 0 <= i < |cs| && CeilChain(cs[i].zone) == chain;
      assert ds[i] == Declare(chain);
    }
    if Declare(chain) in ds {
      var i :| 0 <= i < |ds| && ds[i] == Declare(chain);
    }
  }

  lemma FlushesHave(cs: seq<CeilingRow>, chain: string)
    ensures Flush(chain) in Flushes(cs) <==> IsCeiling(cs, chain)
  {
    var fs := Flushes(cs);
    if IsCeiling(cs, chain) {
      var i :| 0 <= i < |cs| && CeilChain(cs[i].zone) == chain;
      assert fs[i] == Flush(chain);
    }
    if Flush(chain) in fs {
      var i :| 0 <= i < |fs| && fs[i] == Flush(chain);
    }
  }

  lemma {:induction false} BodiesAppend(cs: seq<CeilingRow>)
    ensures AreAppends(Jumps(cs) + Bodies(cs)) && AreAppends(Bodies(cs))
  {
    if cs != [] {
      BodiesAppend(cs[..|cs| - 1]);
    }
  }

  /**
   Whatever those chains held before, they hold exactly the jumps and the two rules of each ceiling
   after, and every other chain is as it was.
   */
  lemma RestoreFromAny(t: Chains, cs: seq<CeilingRow>)
    requires DistinctZones(cs)
    ensures OUT_CHAIN in Restored(t, cs) && Restored(t, cs)[OUT_CHAIN] == JumpRules(cs)
    ensures forall i :: 0 <= i < |cs| ==>
              CeilChain(cs[i].zone) in Restored(t, cs) && Restored(t, cs)[CeilChain(cs[i].zone)] == Body(cs[i])
    ensures forall n :: n != OUT_CHAIN && !IsCeiling(cs, n) ==>
              (n in Restored(t, cs) <==> n in t) && (n in t ==> Restored(t, cs)[n] == t[n])
  {
    forall n
      ensures n in Restored(t, cs) <==> n in t || n == OUT_CHAIN || IsCeiling(cs, n)
      ensures n in Restored(t, cs) ==>
                Restored(t, cs)[n] ==
                (if n == OUT_CHAIN || IsCeiling(cs, n) then [] else t[n])
                + (if n == OUT_CHAIN then JumpRules(cs) else []) + Appended(Bodies(cs), n)
      ensures !IsCeiling(cs, n) ==> Appended(Bodies(cs), n) == []
    {
      RestoredParts(t, cs, n);
      AppendedConcat(Jumps(cs), Bodies(cs), n);
      AppendedJumps(cs, n);
      AppendedBodies(cs, n);
      var head := if n == OUT_CHAIN || IsCeiling(cs, n) then [] else if n in t then t[n] else [];
      assert head + (Appended(Jumps(cs), n) + Appended(Bodies(cs), n))
          == head + Appended(Jumps(cs), n) + Appended(Bodies(cs), n);
    }
    hide Restored, Appended, Bodies;
    OutIsNoCeiling(cs);
    forall i | 0 <= i < |cs|
      ensures CeilChain(cs[i].zone) in Restored(t, cs) && Restored(t, cs)[CeilChain(cs[i].zone)] == Body(cs[i])
    {
      var n := CeilChain(cs[i].zone);
      CeilChainTells(cs[i].zone, cs[i].zone);
      assert IsCeiling(cs, n);
      AppendedBodies(cs, n);
      assert Appended(Bodies(cs), n) == Body(cs[i]);
    }
  }

  lemma OutIsNoCeiling(cs: seq<CeilingRow>)
    ensures !IsCeiling(cs, OUT_CHAIN)
  {
    forall i | 0 <= i < |cs|
      ensures CeilChain(cs[i].zone) != OUT_CHAIN
    {
      CeilChainTells(cs[i].zone, cs[i].zone);
    }
  }

  // ---- what the chains do to a packet --------------------------------------------------------

  datatype Packet = Packet(oif: string, proto: nat)

  datatype Verdict = Return | Drop

  /** The tokens left in each chain's limiter. */
  type Tokens = map<string, nat>

  function Left(tokens: Tokens, chain: string): nat {
    if chain in tokens then tokens[chain] else 0
  }

  predicate JumpTakes(r: Rule, p: Packet)
    requires r.Jump?
  {
    (r.oif.Some? ==> p.oif == r.oif.value) && (r.proto.Some? ==> p.proto == r.proto.value)
  }

  /** Run the rules of `chain` on a packet, jumping at most `depth` chains deep. */
  function Walk(t: Chains, chain: string, rules: seq<Rule>, p: Packet, tokens: Tokens, depth: nat): (Verdict, Tokens)
    decreases depth, |rules|
  {
    if rules == [] then (Return, tokens)
    else
      match rules[0]
      case DropAll => (Drop, tokens)
      case LimitReturn(_, _) =>
        if Left(tokens, chain) > 0 then (Return, tokens[chain := Left(tokens, chain) - 1])
        else Walk(t, chain, rules[1..], p, tokens, depth)
      case Jump(_, _, to) =>
        if !JumpTakes(rules[0], p) || to !in t || depth == 0 then Walk(t, chain, rules[1..], p, tokens, depth)
        else
          var (v, left) := Walk(t, to, t[to], p, tokens, depth - 1);
          if v == Drop then (Drop, left) else Walk(t, chain, rules[1..], p, left, depth)
      case Other(_) => Walk(t, chain, rules[1..], p, tokens, depth)
  }

  /** A packet sent through the ceiling chains. */
  function Policed(t: Chains, p: Packet, tokens: Tokens): (Verdict, Tokens)
    requires OUT_CHAIN in t
  {
    Walk(t, OUT_CHAIN, t[OUT_CHAIN], p, tokens, 1)
  }

  predicate Subject(c: CeilingRow, p: Packet) {
    p.oif == c.ifname && p.proto == OSPF
  }

  predicate HoldsCeilings(t: Chains, cs: seq<CeilingRow>) {
    forall i :: 0 <= i < |cs| ==> CeilChain(cs[i].zone) in t && t[CeilChain(cs[i].zone)] == Body(cs[i])
  }

  lemma WalkBody(t: Chains, c: CeilingRow, p: Packet, tokens: Tokens)
    ensures var chain := CeilChain(c.zone);
            Walk(t, chain, Body(c), p, tokens, 0) ==
            if Left(tokens, chain) > 0 then (Return, tokens[chain := Left(tokens, chain) - 1]) else (Drop, tokens)
  {
    var chain := CeilChain(c.zone);
    assert Body(c)[1..] == [DropAll];
    assert Walk(t, chain, [DropAll], p, tokens, 0) == (Drop, tokens);
  }

  /** Past the jump that takes it a packet meets no other. */
  lemma {:induction false} NoneTakes(t: Chains, cs: seq<CeilingRow>, p: Packet, tokens: Tokens)
    requires forall i :: 0 <= i < |cs| ==> !Subject(cs[i], p)
    ensures Walk(t, OUT_CHAIN, JumpRules(cs), p, tokens, 1) == (Return, tokens)
  {
    if cs != [] {
      NoneTakes(t, cs[1..], p, tokens);
      assert JumpRules(cs)[1..] == JumpRules(cs[1..]);
    }
  }

  lemma {:induction false} OneTakes(t: Chains, cs: seq<CeilingRow>, k: nat, p: Packet, tokens: Tokens)
    requires DistinctBonds(cs) && HoldsCeilings(t, cs) && k < |cs| && Subject(cs[k], p)
    ensures var chain := CeilChain(cs[k].zone);
            Walk(t, OUT_CHAIN, JumpRules(cs), p, tokens, 1) ==
            if Left(tokens, chain) > 0 then (Return, tokens[chain := Left(tokens, chain) - 1]) else (Drop, tokens)
    decreases k
  {
    assert JumpRules(cs)[1..] == JumpRules(cs[1..]);
    if k == 0 {
      WalkBody(t, cs[0], p, tokens);
      var chain := CeilChain(cs[0].zone);
      if Left(tokens, chain) > 0 {
        NoneTakes(t, cs[1..], p, tokens[chain := Left(tokens, chain) - 1]);
      }
    } else {
      assert !Subject(cs[0], p);
      OneTakes(t, cs[1..], k - 1, p, tokens);
    }
  }

  /**
   After the render is restored a packet is dropped exactly when it is OSPF leaving a bond whose own
   limiter is empty; one under the limit takes a token of that limiter and nothing else, and every
   other packet goes through and takes none.
   */
  lemma DropsOnlyOverTheLimit(t: Chains, cs: seq<CeilingRow>, p: Packet, tokens: Tokens)
    requires DistinctZones(cs) && DistinctBonds(cs)
    ensures OUT_CHAIN in Restored(t, cs)
    ensures var (v, left) := Policed(Restored(t, cs), p, tokens);
            && (v == Drop <==>
                 exists i :: 0 <= i < |cs| && Subject(cs[i], p) && Left(tokens, CeilChain(cs[i].zone)) == 0)
            && (v == Drop ==> left == tokens)
            && (forall i :: 0 <= i < |cs| && Subject(cs[i], p) && v == Return ==>
                  left == tokens[CeilChain(cs[i].zone) := Left(tokens, CeilChain(cs[i].zone)) - 1])
            && ((forall i :: 0 <= i < |cs| ==> !Subject(cs[i], p)) ==> v == Return && left == tokens)
  {
    RestoreFromAny(t, cs);
    hide Restored, Walk;
    var after := Restored(t, cs);
    if k: nat :| k < |cs| && Subject(cs[k], p) {
      OneTakes(after, cs, k, p, tokens);
      assert forall i :: 0 <= i < |cs| && Subject(cs[i], p) ==> i == k;
    } else {
      NoneTakes(after, cs, p, tokens);
    }
  }
}
