/**
 The publishing side on the shared filesystem: the bounded lock loop, the two renames under the
 lock, the release that happens whatever failed, and the sweep of old acks. Every publish is proved
 to be a run of the publisher moves of ConfProtocol.
 */
module ConfPublish {
  import opened Wrappers
  import ConfMember
  import opened ConfProtocol
  import ConfInvariants
  import ConfSafety
  import ConfGuarantees
  import ConfRuns

  type Text = ConfMember.Text

  const LOCK_RETRY_ATTEMPTS: nat := 10

  /**
   What each attempt to lock finds: the store as the others left it, the time, whether the directory may
   be made, whether an existing one's age can be read, and whether an unlock request is honoured.
   */
  datatype LockAnswers = LockAnswers(
    store: nat -> Store,
    clock: nat -> nat,
    permitted: nat -> bool,
    readable: nat -> bool,
    honoured: nat -> bool)

  predicate IsStale(made: nat, now: nat) {
    made <= now && now - made > LOCK_EXPIRY
  }

  /** Which of the writes of a publish succeed, and what the ack directory lists. */
  datatype Answers = Answers(
    canRead: bool,
    canRenameConf: bool,
    canRenameGen: bool,
    canRelease: bool,
    listed: Option<seq<Option<nat>>>,
    canRemove: nat -> bool)

  /** The publisher moves in order, from publisher 0's side. */
  function PubRun(s: State, acts: seq<PubAct>): Option<State> {
    if acts == [] then Some(s)
    else match PubRun(s, acts[..|acts| - 1])
      case None => None
      case Some(t) => PubMove(t, 0, acts[|acts| - 1])
  }

  lemma PubRunSnoc(s: State, acts: seq<PubAct>, t: State, a: PubAct)
    requires PubRun(s, acts) == Some(t)
    ensures PubRun(s, acts + [a]) == PubMove(t, 0, a)
  {
    assert (acts + [a])[..|acts + [a]| - 1] == acts;
  }

  lemma {:induction false} PubRunConcat(s: State, a: seq<PubAct>, t: State, b: seq<PubAct>)
    requires PubRun(s, a) == Some(t)
    ensures PubRun(s, a + b) == PubRun(t, b)
    decreases |b|
  {
    if b == [] {
      assert a + b == a;
    } else {
      PubRunConcat(s, a, t, b[..|b| - 1]);
      assert (a + b)[..|a + b| - 1] == a + b[..|b| - 1];
    }
  }

  /** The sweep removes an ack exactly when its directory is listed, old enough and removable. */
  predicate Swept(e: Answers, generation: nat, entries: seq<Option<nat>>, k: (nat, string)) {
    Some(k.0) in entries && k.0 + 1 < generation && e.canRemove(k.0)
  }

  lemma SweptNext(e: Answers, generation: nat, entries: seq<Option<nat>>, i: nat)
    requires i < |entries|
    ensures forall k: (nat, string) :: Swept(e, generation, entries[..i + 1], k) <==>
              Swept(e, generation, entries[..i], k)
              || (entries[i] == Some(k.0) && k.0 + 1 < generation && e.canRemove(k.0))
  {
    assert entries[..i + 1] == entries[..i] + [entries[i]];
  }

  // ---- locking among the others --------------------------------------------------------------

  /** The store and the time of attempt `i` are those of the state it is made in, with publisher 0 outside. */
  ghost predicate TryFinds(w: LockAnswers, found: nat -> State, i: nat) {
    found(i).store == w.store(i) && found(i).now == w.clock(i) && 0 in found(i).pubs && found(i).pubs[0] == Out
  }

  /** The state an attempt leaves: the lock taken, a stale one broken, or nothing. */
  ghost function AfterTry(w: LockAnswers, s: State, i: nat): (t: State)
    requires 0 in s.pubs && s.pubs[0] == Out
  {
    match s.store.lock
    case None => if w.permitted(i) then PubMove(s, 0, MakeLock).value else s
    case Some(made) =>
      if w.readable(i) && IsStale(made, s.now) && w.honoured(i) then PubMove(s, 0, BreakLock).value else s
  }

  /** An attempt touches nothing but the lock. */
  lemma AfterTryStore(w: LockAnswers, s: State, i: nat)
    requires 0 in s.pubs && s.pubs[0] == Out
    ensures AfterTry(w, s, i).store ==
            if s.store.lock.None? && w.permitted(i) then s.store.(lock := Some(s.now))
            else if s.store.lock.Some? && w.readable(i) && IsStale(s.store.lock.value, s.now) && w.honoured(i)
            then s.store.(lock := None)
            else s.store
  {
  }

  predicate OfOthers(moves: seq<Move>) {
    forall move :: move in moves ==> !(move.Publisher? && move.i == 0)
  }

  /** The others take `s` to `t`. */
  ghost predicate OthersLead(c: Cluster, s: State, t: State) {
    exists moves :: After(c, s, moves) == Some(t) && OfOthers(moves)
  }

  /** Attempts up to `at`, each in the state it finds, and the others in between. */
  ghost predicate Attempts(c: Cluster, w: LockAnswers, found: nat -> State, at: nat) {
    forall i: nat :: i <= at ==>
      TryFinds(w, found, i) && (i < at ==> OthersLead(c, AfterTry(w, found(i), i), found(i + 1)))
  }

  /** The lock loop asks for an unlock exactly when the protocol allows the lock to be broken. */
  lemma StaleIsBreakable(s: State, i: nat)
    requires i in s.pubs && s.pubs[i] == Out && s.store.lock.Some?
    ensures IsStale(s.store.lock.value, s.now) <==> PubMove(s, i, BreakLock).Some?
  {
  }

  lemma TryIsReachable(c: Cluster, w: LockAnswers, s: State, i: nat)
    requires Reachable(c, s) && 0 in s.pubs && s.pubs[0] == Out
    ensures Reachable(c, AfterTry(w, s, i))
  {
    hide Reachable;
    if s.store.lock.None? && w.permitted(i) {
      ConfRuns.OneMore(c, s, Publisher(0, MakeLock), PubMove(s, 0, MakeLock).value);
    } else if s.store.lock.Some? && w.readable(i) && IsStale(s.store.lock.value, s.now) && w.honoured(i) {
      ConfRuns.OneMore(c, s, Publisher(0, BreakLock), PubMove(s, 0, BreakLock).value);
    }
  }

  /** The attempts, with whatever the others do between them, are a run of the protocol. */
  lemma {:induction false} TriesAreRun(c: Cluster, w: LockAnswers, found: nat -> State, at: nat)
    requires Reachable(c, found(0)) && Attempts(c, w, found, at)
    ensures Reachable(c, found(at)) && TryFinds(w, found, at) && Reachable(c, AfterTry(w, found(at), at))
  {
    hide Reachable;
    assert TryFinds(w, found, at);
    if at > 0 {
      TriesAreRun(c, w, found, at - 1);
      assert TryFinds(w, found, at - 1) && OthersLead(c, AfterTry(w, found(at - 1), at - 1), found(at - 1 + 1));
      var moves :| After(c, AfterTry(w, found(at - 1), at - 1), moves) == Some(found(at));
      ConfRuns.ReachOn(c, AfterTry(w, found(at - 1), at - 1), moves);
    }
    TryIsReachable(c, w, found(at), at);
  }

  /** So a lock that was made is held against every other publisher. */
  lemma LockExcludes(c: Cluster, w: LockAnswers, found: nat -> State, at: nat, j: nat)
    requires Reachable(c, found(0)) && Attempts(c, w, found, at)
    requires w.store(at).lock.None? && w.permitted(at)
    ensures TryFinds(w, found, at)
    ensures var t := AfterTry(w, found(at), at);
            Reachable(c, t) && t.pubs[0] == Entered(w.clock(at)) && (j in t.pubs && Inside(t.pubs[j]) ==> j == 0)
  {
    TriesAreRun(c, w, found, at);
    var t := AfterTry(w, found(at), at);
    if j in t.pubs && Inside(t.pubs[j]) {
      ConfGuarantees.OnePublisherInside(c, t, 0, j);
    }
  }

  // ---- publishing among the others -------------------------------------------------------------

  /** The publisher is where it would be on its own, and while it is inside so are counter, text and lock. */
  ghost predicate SameSection(s: State, t: State) {
    && 0 in s.pubs && 0 in t.pubs && t.pubs[0] == s.pubs[0]
    && (Inside(s.pubs[0]) ==>
          t.store.gen == s.store.gen && t.store.conf == s.store.conf && t.store.lock == s.store.lock)
  }

  /** The steps of a publish that has the lock. */
  predicate OfSection(acts: seq<PubAct>) {
    forall a :: a in acts ==> !a.MakeLock? && !a.BreakLock?
  }

  /** Each step in the state it finds, and the others in between. */
  ghost predicate Interleaved(c: Cluster, acts: seq<PubAct>, found: seq<State>) {
    && |found| == |acts| + 1
    && forall i :: 0 <= i < |acts| && PubMove(found[i], 0, acts[i]).Some? ==>
         OthersLead(c, PubMove(found[i], 0, acts[i]).value, found[i + 1])
  }

  lemma SectionStep(s: State, t: State, a: PubAct)
    requires SameSection(s, t) && PubMove(s, 0, a).Some? && !a.MakeLock? && !a.BreakLock?
    ensures PubMove(t, 0, a).Some? && SameSection(PubMove(s, 0, a).value, PubMove(t, 0, a).value)
  {
  }

  lemma OtherMoveLeaves(c: Cluster, s: State, move: Move)
    requires ConfInvariants.LockInv(s) && 0 in s.pubs && Next(c, s, move).Some?
    requires !(move.Publisher? && move.i == 0)
    ensures SameSection(s, Next(c, s, move).value)
  {
  }

  /** While a publisher is inside, nobody else moves the counter, the text or the lock. */
  lemma {:induction false} OthersLeaveSection(c: Cluster, s: State, moves: seq<Move>)
    requires Reachable(c, s) && 0 in s.pubs && After(c, s, moves).Some? && OfOthers(moves)
    ensures SameSection(s, After(c, s, moves).value)
  {
    hide Reachable, Next;
    if moves != [] {
      var init, move := moves[..|moves| - 1], moves[|moves| - 1];
      assert move in moves;
      OthersLeaveSection(c, s, init);
      ConfRuns.ReachOn(c, s, init);
      var t := After(c, s, init).value;
      ConfSafety.ReachableIsInv(c, t);
      OtherMoveLeaves(c, t, move);
    }
  }

  /**
   A publish among the others, whatever they do between its steps: every step it takes on its own is a
   move of the protocol where it stands, and up to the release the counter, the text and the lock are what
   it left, so what it releases is what it wrote.
   */
  lemma {:induction false} PublishIsProtocolRun(c: Cluster, s: State, acts: seq<PubAct>, found: seq<State>, k: nat)
    requires PubRun(s, acts).Some? && OfSection(acts) && k <= |acts|
    requires Interleaved(c, acts, found) && Reachable(c, found[0]) && SameSection(s, found[0])
    ensures Reachable(c, found[k])
    ensures PubRun(s, acts[..k]).Some? && SameSection(PubRun(s, acts[..k]).value, found[k])
    ensures k < |acts| ==> PubMove(found[k], 0, acts[k]).Some?
  {
    hide Reachable, PubMove, SameSection;
    PubRunPrefix(s, acts, k);
    if k == 0 {
      assert acts[..0] == [];
    } else {
      PublishIsProtocolRun(c, s, acts, found, k - 1);
      assert acts[..k][..k - 1] == acts[..k - 1] && acts[k - 1] in acts;
      var before, t := PubRun(s, acts[..k - 1]).value, PubMove(found[k - 1], 0, acts[k - 1]).value;
      SectionStep(before, found[k - 1], acts[k - 1]);
      ConfRuns.OneMore(c, found[k - 1], Publisher(0, acts[k - 1]), t);
      assert OthersLead(c, PubMove(found[k - 1], 0, acts[k - 1]).value, found[k - 1 + 1]);
      var moves :| After(c, t, moves) == Some(found[k]) && OfOthers(moves);
      ConfRuns.ReachOn(c, t, moves);
      HasPublisher(before, acts[k - 1], t);
      OthersLeaveSection(c, t, moves);
      SectionsChain(PubRun(s, acts[..k]).value, t, found[k]);
    }
    if k < |acts| {
      PubRunPrefix(s, acts, k + 1);
      assert acts[..k + 1][..k] == acts[..k] && acts[k] in acts;
      SectionStep(PubRun(s, acts[..k]).value, found[k], acts[k]);
    }
  }

  lemma HasPublisher(s: State, a: PubAct, t: State)
    requires PubMove(s, 0, a).Some? && SameSection(PubMove(s, 0, a).value, t)
    ensures 0 in t.pubs
  {
  }

  lemma SectionsChain(s: State, t: State, u: State)
    requires SameSection(s, t) && SameSection(t, u)
    ensures SameSection(s, u)
  {
  }

  lemma {:induction false} PubRunPrefix(s: State, acts: seq<PubAct>, k: nat)
    requires PubRun(s, acts).Some? && k <= |acts|
    ensures PubRun(s, acts[..k]).Some?
    decreases |acts|
  {
    if k == |acts| {
      assert acts[..k] == acts;
    } else {
      PubRunPrefix(s, acts[..|acts| - 1], k);
      assert acts[..|acts| - 1][..k] == acts[..k];
    }
  }

  /** Still inside, with that counter and text, and the lock made at `now`. */
  ghost predicate LeftInside(s: Option<State>, gen: nat, conf: Option<Text>, now: nat) {
    && s.Some? && 0 in s.value.pubs && Inside(s.value.pubs[0])
    && s.value.store.gen == gen && s.value.store.conf == conf && s.value.store.lock == Some(now)
  }

  class Pmxcfs {
    var gen: nat
    var conf: Option<Text>
    var lock: Option<nat>
    var acks: map<(nat, string), AckFile>

    constructor (s: Store)
      ensures Store(gen, conf, acks, lock) == s
    {
      gen, conf, acks, lock := s.gen, s.conf, s.acks, s.lock;
    }

    ghost function At(now: nat, h: History, p: Pub): State
      reads this
    {
      State(now, Store(gen, conf, acks, lock), map[0 := p], map[], h)
    }

    /** Up to ten tries; only a stale lock gets the unlock request, and only a free one is taken. */
    method Lock(w: LockAnswers, ghost found: nat -> State) returns (made: Option<nat>, ghost at: nat)
      requires forall i: nat :: i < LOCK_RETRY_ATTEMPTS ==> TryFinds(w, found, i)
      modifies this
      ensures at < LOCK_RETRY_ATTEMPTS && forall i :: 0 <= i < at ==> w.store(i).lock.Some?
      ensures TryFinds(w, found, at) && Store(gen, conf, acks, lock) == AfterTry(w, found(at), at).store
      ensures if w.store(at).lock.None? then made == (if w.permitted(at) then Some(w.clock(at)) else None)
              else made == None && at == LOCK_RETRY_ATTEMPTS - 1
    {
      hide AfterTry;
      at := 0;
      for i := 0 to LOCK_RETRY_ATTEMPTS
        invariant forall j :: 0 <= j < i ==> w.store(j).lock.Some?
        invariant i > 0 ==>
                    && at == i - 1 && TryFinds(w, found, at)
                    && Store(gen, conf, acks, lock) == AfterTry(w, found(at), at).store
      {
        at := i;
        assert TryFinds(w, found, i);
        AfterTryStore(w, found(i), i);
        gen, conf, acks, lock := w.store(i).gen, w.store(i).conf, w.store(i).acks, w.store(i).lock;
        if lock == None {
          if !w.permitted(i) {
            return None, at;
          }
          lock := Some(w.clock(i));
          return lock, at;
        }
        if w.readable(i) && IsStale(lock.value, w.clock(i)) && w.honoured(i) {
          lock := None;
        }
      }
      return None, at;
    }

    /** The two renames, in order, with nothing undone when the second fails. */
    method RenameBoth(e: Answers, text: Text, now: nat, ghost h: History)
        returns (r: Option<nat>, ghost acts: seq<PubAct>, ghost h': History, ghost p: Pub)
      modifies `gen, `conf
      ensures conf == if e.canRead && e.canRenameConf then Some(text) else old(conf)
      ensures gen == old(gen) + if e.canRead && e.canRenameConf && e.canRenameGen then 1 else 0
      ensures r == if e.canRead && e.canRenameConf && e.canRenameGen then Some(gen) else None
      ensures Inside(p) && (r.Some? ==> p == Bumped(now, gen)) && (p.Bumped? ==> r.Some?)
      ensures PubRun(old(At(now, h, Entered(now))), acts) == Some(At(now, h', p)) && OfSection(acts)
    {
      ghost var s := At(now, h, Entered(now));
      acts, h', p := [], h, Entered(now);
      if !e.canRead {
        return None, acts, h', p;
      }
      var generation := gen + 1;
      PubRunSnoc(s, acts, s, ReadCounter);
      acts, p := acts + [ReadCounter], Counted(now, generation);
      assert s.pubs[0 := p] == map[0 := p];
      if !e.canRenameConf {
        return None, acts, h', p;
      }
      PubRunSnoc(s, acts, At(now, h', p), RenameConf(text));
      conf := Some(text);
      h' := h'.(tag := generation, renames := h'.renames + {(text, generation)});
      acts, p := acts + [RenameConf(text)], Renamed(now, generation, text);
      assert map[0 := Counted(now, generation)][0 := p] == map[0 := p];
      if !e.canRenameGen {
        return None, acts, h', p;
      }
      PubRunSnoc(s, acts, At(now, h', p), RenameGen);
      gen := generation;
      h' := h'.(texts := h'.texts[generation := text]);
      acts, p := acts + [RenameGen], Bumped(now, generation);
      assert map[0 := Renamed(now, generation, text)][0 := p] == map[0 := p];
      return Some(generation), acts, h', p;
    }

    /** One listed directory. */
    method CleanEntry(e: Answers, generation: nat, entry: Option<nat>, now: nat, ghost h: History,
                      ghost s: State, ghost acts: seq<PubAct>) returns (ghost acts': seq<PubAct>)
      requires PubRun(s, acts) == Some(At(now, h, Cleaning(generation))) && OfSection(acts)
      modifies `acks
      ensures forall k: (nat, string) :: k in acks <==>
                k in old(acks) && !(entry == Some(k.0) && k.0 + 1 < generation && e.canRemove(k.0))
      ensures forall k :: k in acks ==> acks[k] == old(acks[k])
      ensures PubRun(s, acts') == Some(At(now, h, Cleaning(generation))) && OfSection(acts')
    {
      acts' := acts;
      if entry.Some? && entry.value + 1 < generation && e.canRemove(entry.value) {
        PubRunSnoc(s, acts, At(now, h, Cleaning(generation)), CleanAcks(entry.value));
        hide PubRun;
        acks := WithoutGen(acks, entry.value);
        acts' := acts + [CleanAcks(entry.value)];
      }
    }

    /** Remove the listed ack directories of generations before the previous one. */
    method CleanOldAcks(e: Answers, generation: nat, now: nat, ghost h: History) returns (ghost acts: seq<PubAct>)
      modifies `acks
      ensures forall k :: k in acks <==> k in old(acks) && !(e.listed.Some? && Swept(e, generation, e.listed.value, k))
      ensures forall k :: k in acks ==> acks[k] == old(acks[k])
      ensures PubRun(old(At(now, h, Cleaning(generation))), acts) == Some(At(now, h, Cleaning(generation)))
      ensures OfSection(acts)
    {
      acts := [];
      assert PubRun(At(now, h, Cleaning(generation)), acts) == Some(At(now, h, Cleaning(generation)));
      if e.listed.None? {
        return;
      }
      var entries := e.listed.value;
      assert forall k: (nat, string) :: !Swept(e, generation, entries[..0], k);
      hide PubRun, Swept;
      ghost var s := At(now, h, Cleaning(generation));
      for i := 0 to |entries|
        invariant forall k :: k in acks <==> k in old(acks) && !Swept(e, generation, entries[..i], k)
        invariant forall k :: k in acks ==> acks[k] == old(acks[k])
        invariant PubRun(s, acts) == Some(At(now, h, Cleaning(generation))) && OfSection(acts)
      {
        SweptNext(e, generation, entries, i);
        acts := CleanEntry(e, generation, entries[i], now, h, s, acts);
      }
      assert entries[..|entries|] == entries;
    }

    /** The critical section, the release whatever became of it, and the sweep. */
    method Publish(e: Answers, text: Text, now: nat, ghost h: History)
        returns (r: Option<nat>, ghost acts: seq<PubAct>, ghost h': History, ghost left: nat)
      requires lock == Some(now)
      modifies this
      ensures lock == if e.canRelease then None else old(lock)
      ensures conf == if e.canRead && e.canRenameConf then Some(text) else old(conf)
      ensures gen == old(gen) + if e.canRead && e.canRenameConf && e.canRenameGen then 1 else 0
      ensures r == if gen != old(gen) && e.canRelease then Some(gen) else None
      ensures forall k :: k in acks <==>
                k in old(acks) && !(r.Some? && e.listed.Some? && Swept(e, gen, e.listed.value, k))
      ensures forall k :: k in acks ==> acks[k] == old(acks[k])
      ensures PubRun(old(At(now, h, Entered(now))), acts) == Some(At(now, h', Out)) && OfSection(acts)
      ensures left < |acts| && acts[left] == if e.canRelease then ReleaseLock else Stop
      ensures LeftInside(PubRun(old(At(now, h, Entered(now))), acts[..left]), gen, conf, now)
    {
      hide PubRun;
      ghost var s := At(now, h, Entered(now));
      var published;
      ghost var p, sweep;
      published, acts, h', p := RenameBoth(e, text, now, h);
      left := |acts|;
      ghost var section := acts;
      assert LeftInside(PubRun(s, section), gen, conf, now);
      // A failed release is the end of the publish, with the lock left to its expiry.
      ghost var last := if e.canRelease then ReleaseLock else Stop;
      PubRunSnoc(s, acts, At(now, h', p), last);
      acts := acts + [last];
      if e.canRelease {
        lock := None;
      }
      ghost var q := p;
      p := if e.canRelease && published.Some? then Cleaning(gen) else Out;
      assert map[0 := q][0 := p] == map[0 := p];
      if published.None? || !e.canRelease {
        assert acts[..left] == section;
        return None, acts, h', left;
      }
      ghost var released := At(now, h', p);
      sweep := CleanOldAcks(e, gen, now, h');
      PubRunConcat(s, acts, released, sweep);
      acts := acts + sweep;
      PubRunSnoc(s, acts, At(now, h', Cleaning(gen)), Stop);
      assert map[0 := p][0 := Out] == map[0 := Out];
      assert (acts + [Stop])[..left] == section;
      return published, acts + [Stop], h', left;
    }
  }
}
