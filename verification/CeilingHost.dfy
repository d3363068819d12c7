/**
 Installing and removing the ceiling chains in a table shared with everybody else, one command at a
 time, any of which may fail.
 */
module CeilingHost {
  import opened Wrappers
  import opened Ceiling

  const HOOK: Rule := Jump(None, None, OUT_CHAIN)

  predicate Points(rules: seq<Rule>, chain: string) {
    exists r :: r in rules && r.Jump? && r.chain == chain
  }

  /** Some chain jumps to `chain`; the kernel then refuses to delete it. */
  predicate Referenced(t: Chains, chain: string) {
    exists n :: n in t && Points(t[n], chain)
  }

  /** Some chain that is not cfab's jumps to `chain`. */
  ghost predicate HeldByOthers(t: Chains, chain: string) {
    exists n :: n in t && !IsOurs(n) && Points(t[n], chain)
  }

  /** No rule jumps to a chain of cfab's that is not there. */
  ghost predicate Closed(t: Chains) {
    forall n, c :: n in t && IsOurs(c) && Points(t[n], c) ==> c in t
  }

  function DropFirst(rules: seq<Rule>, r: Rule): seq<Rule> {
    if rules == [] then []
    else if rules[0] == r then rules[1..]
    else [rules[0]] + DropFirst(rules[1..], r)
  }

  lemma {:induction false} DropFirstPoints(rules: seq<Rule>, r: Rule, chain: string)
    ensures Points(DropFirst(rules, r), chain) ==> Points(rules, chain)
  {
    if rules != [] {
      DropFirstPoints(rules[1..], r, chain);
    }
  }

  /** What a removal leaves of the chains that are not cfab's: one plain hook out of OUTPUT. */
  function Unhooked(t: Chains, n: string): seq<Rule>
    requires n in t
  {
    if n == OUTPUT then DropFirst(t[n], HOOK) else t[n]
  }

  /** The exact names of cfab's chains, each once. */
  ghost predicate Lists(t: Chains, dump: seq<string>) {
    && (forall c :: c in dump <==> c in t && IsOurs(c))
    && (forall i, j :: 0 <= i < j < |dump| ==> dump[i] != dump[j])
  }

  /** The chains that are not cfab's are as they were. */
  ghost predicate SameOthers(t: Chains, t': Chains) {
    forall n :: !IsOurs(n) ==> (n in t <==> n in t') && (n in t ==> t'[n] == t[n])
  }

  /** They are as they were but for one plain hook out of OUTPUT. */
  ghost predicate AllUnhooked(t: Chains, t': Chains) {
    forall n :: !IsOurs(n) ==> (n in t <==> n in t') && (n in t ==> t'[n] == Unhooked(t, n))
  }

  /** One of the two. */
  ghost predicate MaybeUnhooked(t: Chains, t': Chains) {
    SameOthers(t, t') || AllUnhooked(t, t')
  }

  lemma NothingUnhooked(t: Chains)
    ensures SameOthers(t, t) && MaybeUnhooked(t, t)
  {
  }

  lemma UnhookedOnce(t: Chains, mid: Chains, t': Chains)
    ensures SameOthers(t, mid) && SameOthers(mid, t') ==> SameOthers(t, t')
    ensures SameOthers(t, mid) && MaybeUnhooked(mid, t') ==> MaybeUnhooked(t, t')
    ensures SameOthers(t, mid) && AllUnhooked(mid, t') ==> AllUnhooked(t, t')
    ensures MaybeUnhooked(t, mid) && SameOthers(mid, t') ==> MaybeUnhooked(t, t')
    ensures AllUnhooked(t, mid) && SameOthers(mid, t') ==> AllUnhooked(t, t')
  {
    hide DropFirst, IsOurs;
  }

  class Mangle {
    /** Whether the n-th command takes effect when the kernel lets it. */
    const works: nat -> bool
    var chains: Chains
    var issued: nat

    constructor (works: nat -> bool, chains: Chains)
      ensures this.works == works && this.chains == chains && issued == 0
    {
      this.works, this.chains, issued := works, chains, 0;
    }

    ghost predicate AllWork(from: nat)
      reads this
    {
      forall n: nat :: n >= from ==> works(n)
    }

    method FlushChain(c: string)
      modifies this
      ensures issued == old(issued) + 1
      ensures chains == if works(old(issued)) && c in old(chains) then old(chains)[c := []] else old(chains)
    {
      if works(issued) && c in chains {
        chains := chains[c := []];
      }
      issued := issued + 1;
    }

    /** The kernel deletes a chain only when it is empty and nothing jumps to it. */
    method DeleteChain(c: string)
      modifies this
      ensures issued == old(issued) + 1
      ensures var t := old(chains);
              chains == if works(old(issued)) && c in t && t[c] == [] && !Referenced(t, c) then t - {c} else t
    {
      if works(issued) && c in chains && chains[c] == [] && !Referenced(chains, c) {
        chains := chains - {c};
      }
      issued := issued + 1;
    }

    /** `-D OUTPUT -j cfab-out`: the first plain hook. */
    method Unhook()
      modifies this
      ensures issued == old(issued) + 1
      ensures chains == if works(old(issued)) && OUTPUT in old(chains)
                        then old(chains)[OUTPUT := DropFirst(old(chains)[OUTPUT], HOOK)] else old(chains)
    {
      if works(issued) && OUTPUT in chains {
        chains := chains[OUTPUT := DropFirst(chains[OUTPUT], HOOK)];
      }
      issued := issued + 1;
    }

    /**
     Take the hook out, flush every chain of cfab's and then delete it: no chain that is still jumped
     to goes, no chain of anybody else changes but OUTPUT by its one hook, and when every command
     works what is left of cfab's is exactly what somebody else still jumps to.
     */
    method Remove(dump: seq<string>)
      requires Lists(chains, dump) && Closed(chains)
      modifies this
      ensures Closed(chains)
      ensures MaybeUnhooked(old(chains), chains)
      ensures forall n :: n in chains ==> n in old(chains)
      ensures AllWork(old(issued)) ==>
                forall n :: IsOurs(n) ==> (n in chains <==> n in old(chains) && HeldByOthers(chains, n))
      ensures AllWork(old(issued)) && OUT_CHAIN in old(chains) ==> AllUnhooked(old(chains), chains)
    {
      FlushAll(dump);
      DeleteAll(dump);
    }

    /**
     Restore the render, hook it into OUTPUT once, and sweep the ceilings of zones that lost theirs:
     afterwards the chains are exactly the rendered ones, and a stale one nobody jumped to is gone.
     */
    method Install(cs: seq<CeilingRow>, dump: seq<string>) returns (ok: bool)
      requires DistinctZones(cs) && OUTPUT in chains && Lists(Restored(chains, cs), dump)
      modifies this
      ensures !works(old(issued)) ==> !ok && chains == old(chains)
      ensures works(old(issued)) ==> (ok <==> HOOK in old(chains)[OUTPUT] || works(old(issued) + 1))
      ensures ok ==> OUT_CHAIN in chains && chains[OUT_CHAIN] == JumpRules(cs) && HoldsCeilings(chains, cs)
      ensures ok ==> OUTPUT in chains && chains[OUTPUT] ==
                     if HOOK in old(chains)[OUTPUT] then old(chains)[OUTPUT] else old(chains)[OUTPUT] + [HOOK]
      ensures forall n :: !IsOurs(n) && n != OUTPUT ==>
                (n in chains <==> n in old(chains)) && (n in chains ==> chains[n] == old(chains)[n])
      ensures ok && AllWork(old(issued)) ==>
                forall n :: n in chains && IsOurs(n) && n != OUT_CHAIN && !IsCeiling(cs, n) ==>
                  Referenced(Restored(old(chains), cs), n)
    {
      ok := RestoreAndHook(cs);
      RestoredHolds(old(chains), cs);
      HookedHolds(Restored(old(chains), cs), cs);
      hide IsCeiling, Restored, HoldsCeilings, JumpRules, Referenced, SweptBy, Hooked;
      if ok {
        ghost var hooked := chains;
        SweepStale(cs, dump);
        SweptLeaves(Restored(old(chains), cs), hooked, chains, cs, AllWork(old(issued)));
        SweptHolds(hooked, chains, cs);
      }
    }

    /** The render over what is there, and the hook. */
    method RestoreAndHook(cs: seq<CeilingRow>) returns (ok: bool)
      requires DistinctZones(cs) && OUTPUT in chains
      modifies this
      ensures !works(old(issued)) ==> !ok && chains == old(chains)
      ensures works(old(issued)) ==> (ok <==> HOOK in old(chains)[OUTPUT] || works(old(issued) + 1))
      ensures works(old(issued)) ==>
                chains == if ok then Hooked(Restored(old(chains), cs)) else Restored(old(chains), cs)
      ensures issued >= old(issued)
    {
      var lines := Generate(cs);
      if !works(issued) {
        issued := issued + 1;
        return false;
      }
      RestoredHolds(chains, cs);
      assert Restore(chains, lines) == Restored(chains, cs);
      hide Render, Restored, HoldsCeilings, Restore;
      chains, issued := Restore(chains, lines), issued + 1;
      ok := HookIn();
    }

    /** One plain hook in OUTPUT, added at its end when there is none. */
    method HookIn() returns (ok: bool)
      requires OUTPUT in chains
      modifies this
      ensures ok <==> HOOK in old(chains)[OUTPUT] || works(old(issued))
      ensures chains == if HOOK in old(chains)[OUTPUT] || !ok then old(chains)
                        else old(chains)[OUTPUT := old(chains)[OUTPUT] + [HOOK]]
      ensures issued >= old(issued)
    {
      if HOOK in chains[OUTPUT] {
        return true;
      }
      ok := works(issued);
      issued := issued + 1;
      if ok {
        chains := chains[OUTPUT := chains[OUTPUT] + [HOOK]];
      }
    }

    /** Flush and delete the listed chains that are not rendered, each by its exact name. */
    method SweepStale(cs: seq<CeilingRow>, dump: seq<string>)
      requires forall c :: c in dump ==> c in chains && IsOurs(c)
      requires forall c :: c in chains && IsOurs(c) ==> c in dump
      requires forall i, j :: 0 <= i < j < |dump| ==> dump[i] != dump[j]
      modifies this
      ensures SweptBy(old(chains), chains, cs, AllWork(old(issued)))
    {
      ghost var t, all := chains, AllWork(issued);
      hide IsCeiling, IsOurs, SweptTo;
      NothingSwept(t, cs, dump, all);
      for i := 0 to |dump|
        invariant issued >= old(issued) && SweptTo(t, chains, cs, dump, i, all)
      {
        ghost var before := chains;
        if dump[i] != OUT_CHAIN && !IsCeiling(cs, dump[i]) {
          SweepOne(dump[i]);
        }
        SweptOneMore(t, before, chains, cs, dump, i, all);
      }
      SweptAll(t, chains, cs, dump, all);
    }

    /** One stale chain emptied and, when nothing jumps to it, gone. */
    method SweepOne(c: string)
      modifies this
      ensures issued >= old(issued) && SweptChain(old(chains), chains, c)
      ensures AllWork(old(issued)) && c in chains ==> Referenced(old(chains), c)
    {
      FlushChain(c);
      ghost var flushed := chains;
      DeleteChain(c);
      FewerPoints(old(chains), flushed, c);
    }

    /** One chain emptied; the hook goes with `cfab-out`. */
    method FlushOne(c: string)
      requires c in chains && IsOurs(c) && Closed(chains)
      modifies this
      ensures issued >= old(issued) && Closed(chains) && chains.Keys == old(chains).Keys
      ensures if c == OUT_CHAIN then MaybeUnhooked(old(chains), chains) else SameOthers(old(chains), chains)
      ensures forall n :: n in chains && IsOurs(n) && n != c ==> chains[n] == old(chains)[n]
      ensures AllWork(old(issued)) ==> chains[c] == [] && (c == OUT_CHAIN ==> AllUnhooked(old(chains), chains))
    {
      OutputIsForeign([]);
      hide IsOurs, Points, DropFirst;
      if c == OUT_CHAIN {
        ghost var before := chains;
        Unhook();
        FewerPointsClosed(before, chains);
      }
      ghost var before := chains;
      FlushChain(c);
      FewerPointsClosed(before, chains);
    }

    method FlushAll(dump: seq<string>)
      requires Lists(chains, dump) && Closed(chains)
      modifies this
      ensures issued >= old(issued) && Closed(chains) && chains.Keys == old(chains).Keys
      ensures MaybeUnhooked(old(chains), chains)
      ensures AllWork(old(issued)) ==> forall n :: n in chains && IsOurs(n) ==> chains[n] == []
      ensures AllWork(old(issued)) && OUT_CHAIN in old(chains) ==> AllUnhooked(old(chains), chains)
    {
      hide Closed, IsOurs, MaybeUnhooked, SameOthers, AllUnhooked;
      NothingUnhooked(chains);
      for i := 0 to |dump|
        invariant issued >= old(issued) && Closed(chains) && chains.Keys == old(chains).Keys
        invariant if OUT_CHAIN in dump[..i] then MaybeUnhooked(old(chains), chains) else SameOthers(old(chains), chains)
        invariant AllWork(old(issued)) ==> forall j :: 0 <= j < i ==> chains[dump[j]] == []
        invariant AllWork(old(issued)) && OUT_CHAIN in dump[..i] ==> AllUnhooked(old(chains), chains)
      {
        var c := dump[i];
        assert c in dump && dump[..i + 1] == dump[..i] + [c];
        ghost var before := chains;
        FlushOne(c);
        UnhookedOnce(old(chains), before, chains);
        forall j | 0 <= j < i
          ensures dump[j] in chains && IsOurs(dump[j]) && dump[j] != c
        {
          assert dump[j] in dump;
        }
      }
      NothingUnhooked(chains);
      UnhookedOnce(old(chains), chains, chains);
      assert dump[..|dump|] == dump;
      OutputIsForeign([]);
      forall n | n in chains && IsOurs(n) && AllWork(old(issued))
        ensures chains[n] == []
      {
        assert n in old(chains) && n in dump;
      }
    }

    method DeleteAll(dump: seq<string>)
      requires Lists(chains, dump) && Closed(chains)
      modifies this
      ensures Closed(chains) && SameOthers(old(chains), chains)
      ensures forall n :: n in chains ==> n in old(chains) && chains[n] == old(chains)[n]
      ensures AllWork(old(issued)) && (forall n :: n in old(chains) && IsOurs(n) ==> old(chains)[n] == []) ==>
                forall n :: IsOurs(n) ==> (n in chains <==> n in old(chains) && HeldByOthers(chains, n))
    {
      for i := 0 to |dump|
        invariant issued >= old(issued) && Closed(chains) && SameOthers(old(chains), chains)
        invariant forall n :: n in chains ==> n in old(chains) && chains[n] == old(chains)[n]
        invariant forall n :: n in old(chains) && n !in chains ==> n in dump[..i]
        invariant AllWork(old(issued)) && (forall n :: n in old(chains) && IsOurs(n) ==> old(chains)[n] == []) ==>
                    forall j :: 0 <= j < i ==> (dump[j] in chains <==> HeldByOthers(chains, dump[j]))
      {
        var c := dump[i];
        assert c in dump && dump[..i + 1] == dump[..i] + [c];
        ghost var before := chains;
        DeleteChain(c);
        DeletedIsClosed(before, c, chains);
      }
      assert dump[..|dump|] == dump;
    }
  }

  lemma OutputIsForeign(cs: seq<CeilingRow>)
    ensures !IsOurs(OUTPUT) && !IsCeiling(cs, OUTPUT) && OUTPUT != OUT_CHAIN && IsOurs(OUT_CHAIN)
    ensures forall n :: IsCeiling(cs, n) ==> IsOurs(n)
  {
    assert OUTPUT[0] == 'O';
    forall n | IsCeiling(cs, n)
      ensures IsOurs(n)
    {
      var i :| 0 <= i < |cs| && CeilChain(cs[i].zone) == n;
      CeilChainTells(cs[i].zone, cs[i].zone);
    }
  }

  /** With the hook in OUTPUT, added at its end when there is none. */
  function Hooked(t: Chains): Chains {
    if OUTPUT !in t || HOOK in t[OUTPUT] then t else t[OUTPUT := t[OUTPUT] + [HOOK]]
  }

  /** Nothing rendered and nobody else's changes, and of the stale ones only what is jumped to is left. */
  ghost predicate SweptBy(t: Chains, t': Chains, cs: seq<CeilingRow>, all: bool) {
    && (forall n :: n in t' ==> n in t)
    && (forall n :: n in t && (!IsOurs(n) || n == OUT_CHAIN || IsCeiling(cs, n)) ==> n in t' && t'[n] == t[n])
    && (all ==> forall n :: n in t' && IsOurs(n) && n != OUT_CHAIN && !IsCeiling(cs, n) ==> Referenced(t, n))
  }

  /** Only chain `c` is touched: emptied, or gone. */
  ghost predicate SweptChain(t: Chains, t': Chains, c: string) {
    && (forall n :: n in t' ==> n in t && (t'[n] == t[n] || t'[n] == []))
    && (forall n :: n in t && n != c ==> n in t' && t'[n] == t[n])
  }

  /** The first `i` listed chains are swept. */
  ghost predicate SweptTo(t: Chains, t': Chains, cs: seq<CeilingRow>, dump: seq<string>, i: nat, all: bool)
    requires i <= |dump|
  {
    && (forall n :: n in t' ==> n in t && (t'[n] == t[n] || t'[n] == []))
    && (forall n :: n in t && (!IsOurs(n) || n == OUT_CHAIN || IsCeiling(cs, n)) ==> n in t' && t'[n] == t[n])
    && (all ==> forall j :: 0 <= j < i && dump[j] in t' && dump[j] != OUT_CHAIN && !IsCeiling(cs, dump[j]) ==>
                  Referenced(t, dump[j]))
  }

  lemma NothingSwept(t: Chains, cs: seq<CeilingRow>, dump: seq<string>, all: bool)
    ensures SweptTo(t, t, cs, dump, 0, all)
  {
  }

  lemma SweptOneMore(t: Chains, mid: Chains, t': Chains, cs: seq<CeilingRow>, dump: seq<string>, i: nat, all: bool)
    requires i < |dump| && SweptTo(t, mid, cs, dump, i, all) && IsOurs(dump[i])
    requires if dump[i] == OUT_CHAIN || IsCeiling(cs, dump[i]) then t' == mid
             else SweptChain(mid, t', dump[i]) && (all && dump[i] in t' ==> Referenced(mid, dump[i]))
    ensures SweptTo(t, t', cs, dump, i + 1, all)
  {
    FewerPoints(t, mid, dump[i]);
    hide IsOurs, IsCeiling, Referenced;
  }

  lemma SweptAll(t: Chains, t': Chains, cs: seq<CeilingRow>, dump: seq<string>, all: bool)
    requires SweptTo(t, t', cs, dump, |dump|, all)
    requires forall c :: c in t && IsOurs(c) ==> c in dump
    ensures SweptBy(t, t', cs, all)
  {
    hide IsOurs, IsCeiling, Referenced;
  }

  /** What the restored chains hold. */
  ghost predicate Holds(t: Chains, cs: seq<CeilingRow>) {
    OUT_CHAIN in t && t[OUT_CHAIN] == JumpRules(cs) && HoldsCeilings(t, cs)
  }

  lemma RestoredHolds(t: Chains, cs: seq<CeilingRow>)
    requires DistinctZones(cs) && OUTPUT in t
    ensures Holds(Restored(t, cs), cs)
    ensures OUTPUT in Restored(t, cs) && Restored(t, cs)[OUTPUT] == t[OUTPUT]
    ensures SameOthers(t, Restored(t, cs))
  {
    RestoreFromAny(t, cs);
    OutputIsForeign(cs);
    hide IsCeiling, Restored;
  }

  lemma HookedHolds(t: Chains, cs: seq<CeilingRow>)
    requires OUTPUT in t && Holds(t, cs)
    ensures Holds(Hooked(t), cs)
    ensures forall n :: n != OUTPUT ==> (n in Hooked(t) <==> n in t) && (n in t ==> Hooked(t)[n] == t[n])
    ensures OUTPUT in Hooked(t) && Hooked(t)[OUTPUT] == if HOOK in t[OUTPUT] then t[OUTPUT] else t[OUTPUT] + [HOOK]
    ensures forall c :: c != OUT_CHAIN && Referenced(Hooked(t), c) ==> Referenced(t, c)
    ensures !IsOurs(OUTPUT)
  {
    OutputIsForeign(cs);
    HookPointsOut(t, Hooked(t));
    hide Referenced;
    forall i | 0 <= i < |cs|
      ensures CeilChain(cs[i].zone) != OUTPUT
    {
      assert IsCeiling(cs, CeilChain(cs[i].zone));
    }
  }

  lemma SweptHolds(t: Chains, t': Chains, cs: seq<CeilingRow>)
    requires Holds(t, cs) && SweptBy(t, t', cs, false)
    ensures Holds(t', cs)
    ensures forall n :: !IsOurs(n) ==> (n in t' <==> n in t) && (n in t ==> t'[n] == t[n])
  {
    forall i | 0 <= i < |cs|
      ensures CeilChain(cs[i].zone) in t' && t'[CeilChain(cs[i].zone)] == Body(cs[i])
    {
      assert IsCeiling(cs, CeilChain(cs[i].zone));
    }
  }

  lemma SweptLeaves(restored: Chains, t: Chains, t': Chains, cs: seq<CeilingRow>, all: bool)
    requires SweptBy(t, t', cs, all)
    requires forall c :: c != OUT_CHAIN && Referenced(t, c) ==> Referenced(restored, c)
    ensures SweptBy(t, t', cs, false)
    ensures all ==> forall n :: n in t' && IsOurs(n) && n != OUT_CHAIN && !IsCeiling(cs, n) ==> Referenced(restored, n)
  {
    hide IsCeiling, Referenced, IsOurs;
  }

  /** The hook jumps to `cfab-out` and nowhere else. */
  lemma HookPointsOut(t: Chains, t': Chains)
    requires OUTPUT in t && (t' == t || t' == t[OUTPUT := t[OUTPUT] + [HOOK]])
    ensures forall c :: c != OUT_CHAIN && Referenced(t', c) ==> Referenced(t, c)
  {
    forall c | c != OUT_CHAIN && Referenced(t', c)
      ensures Referenced(t, c)
    {
      var n :| n in t' && Points(t'[n], c);
      assert Points(t[n], c);
    }
  }

  lemma FewerPoints(t: Chains, t': Chains, c: string)
    requires forall n :: n in t' ==> n in t && (t'[n] == t[n] || t'[n] == [])
    ensures Referenced(t', c) ==> Referenced(t, c)
  {
  }

  /** Fewer rules over the same chains jump to no chain that was not jumped to before. */
  lemma FewerPointsClosed(t: Chains, t': Chains)
    requires Closed(t) && t'.Keys == t.Keys
    requires forall n :: n in t ==> t'[n] == t[n] || t'[n] == [] || t'[n] == DropFirst(t[n], HOOK)
    ensures Closed(t')
  {
    forall n, c | n in t' && IsOurs(c) && Points(t'[n], c)
      ensures c in t'
    {
      DropFirstPoints(t[n], HOOK, c);
    }
  }

  /** Deleting an unreferenced chain leaves no rule behind that jumps to it. */
  lemma DeletedIsClosed(t: Chains, c: string, t': Chains)
    requires Closed(t) && (t' == t || (t' == t - {c} && !Referenced(t, c)))
    ensures Closed(t')
  {
  }
}
