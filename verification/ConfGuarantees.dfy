/**
 What the configuration protocol guarantees in every reachable state of any number of members and
 publishers: where acks and commits come from, which text a generation stands for, and what a member's
 local file holds.
 */
module ConfGuarantees {
  import opened Wrappers
  import opened ConfMember
  import opened ConfProtocol
  import opened ConfInvariants
  import opened ConfSafety

  // ---- publishers ----------------------------------------------------------------------------

  /** Two publishers are never inside together, and the one inside holds the lock it made. */
  lemma OnePublisherInside(c: Cluster, s: State, i: nat, j: nat)
    requires Reachable(c, s)
    requires i in s.pubs && j in s.pubs && Inside(s.pubs[i]) && Inside(s.pubs[j])
    ensures i == j && s.store.lock == Some(s.pubs[i].since) && s.now <= s.pubs[i].since + LOCK_EXPIRY
  {
    ReachableIsInv(c, s);
  }

  /** The two renames: the text for the next generation, then the counter to it. */
  lemma RenamesStepTogether(s: State, i: nat, pa: PubAct)
    requires CounterInv(s) && TextInv(s) && PubMove(s, i, pa).Some?
    ensures var t := PubMove(s, i, pa).value;
            match pa
            case RenameConf(text) =>
              t.store.gen == s.store.gen && t.h.tag == s.store.gen + 1 && t.store.conf == Some(text)
            case RenameGen =>
              && t.store.gen == s.store.gen + 1 == s.h.tag == t.h.tag
              && t.store.gen in t.h.texts && t.store.conf == s.store.conf == Some(t.h.texts[t.store.gen])
            case _ => t.store.gen == s.store.gen && t.h.tag == s.h.tag && t.store.conf == s.store.conf
  {
  }

  /** The counter moves only when a publisher renames it, and then by exactly one. */
  lemma CounterMovesByOne(c: Cluster, s: State, move: Move, t: State)
    requires Reachable(c, s) && Next(c, s, move) == Some(t)
    ensures t.store.gen == s.store.gen || t.store.gen == s.store.gen + 1
    ensures t.store.gen != s.store.gen <==> move.Publisher? && move.pa.RenameGen?
    ensures t.store.gen != s.store.gen ==>
              t.store.gen in t.h.texts && t.store.conf == Some(t.h.texts[t.store.gen])
  {
    ReachableIsInv(c, s);
    assert CounterInv(s) && TextInv(s);
    hide Reachable, Inv, PubMove, CounterInv, TextInv, ConfMember.Step;
    if move.Publisher? {
      RenamesStepTogether(s, move.i, move.pa);
    }
  }

  // ---- what a commit rests on ----------------------------------------------------------------

  /**
   An ack for `g` by `p` is on the store only if `p` read a text for `g` through the gate and either
   held it byte for byte or had it applied and got a status of at most 1, the code in the ack.
   */
  lemma AckIsEarned(c: Cluster, s: State, g: nat, p: Name)
    requires Reachable(c, s) && (g, p) in s.store.acks
    ensures p in c.names && s.store.acks[(g, p)].code <= 1 && s.store.acks[(g, p)].at <= s.now
    ensures exists text :: WasRead(s.h.events, p, g, text) && c.valid(text, p)
              && (Event.Held(p, g, text) in s.h.events
                  || (Event.Handed(p, g, text) in s.h.events
                      && PassedWith(s.h.events, p, g, text, s.store.acks[(g, p)].code)))
  {
    ReachableIsInv(c, s);
    var ack := s.store.acks[(g, p)];
    assert AckOk(s, (g, p).0, (g, p).1, ack);
    var text :| (Event.Held(p, g, text) in s.h.events && ack.code == 0)
                || PassedWith(s.h.events, p, g, text, ack.code);
    if Event.Held(p, g, text) in s.h.events {
      assert EventOk(c, s, Event.Held(p, g, text));
    } else {
      var exit :| Event.Passed(p, g, text, exit) in s.h.events && StatusCode(exit) == ack.code;
      assert EventOk(c, s, Event.Passed(p, g, text, exit));
      assert EventOk(c, s, Event.Handed(p, g, text));
    }
    ReadIsGated(c, s, p, g, text);
  }

  lemma ReadIsGated(c: Cluster, s: State, p: Name, g: nat, text: Text)
    requires EventInv(c, s) && WasRead(s.h.events, p, g, text)
    ensures c.valid(text, p)
  {
    var tag :| Event.Read(p, g, text, tag) in s.h.events;
    assert EventOk(c, s, Event.Read(p, g, text, tag));
  }

  /** No text is handed to an applier that its member's gate refuses. */
  lemma AppliedIsGated(c: Cluster, s: State, p: Name, g: nat, text: Text)
    requires Reachable(c, s) && Event.Handed(p, g, text) in s.h.events
    ensures c.valid(text, p) && WasRead(s.h.events, p, g, text)
  {
    ReachableIsInv(c, s);
    assert EventOk(c, s, Event.Handed(p, g, text));
    ReadIsGated(c, s, p, g, text);
  }

  /**
   A commit by applying, in a cluster of two or more, rests on the committer's own pass and ack and
   on an ack of another member, fresh when it was seen, who held or passed a text of that generation.
   */
  lemma AppliedCommitIsWitnessed(c: Cluster, s: State, p: Name, g: nat, text: Text, how: Witness)
    requires Reachable(c, s) && Event.Committed(p, g, text, how) in s.h.events
    requires |c.names| >= 2 && how != NoApply
    ensures how.Peer? && how.name != p
    ensures DidPass(s.h.events, p, g, text) && Event.Acked(p, g) in s.h.events
    ensures Vouched(s.h.events, how.name, g)
    ensures exists at: nat, now: nat ::
              Event.Saw(p, g, how.name, at, now) in s.h.events && at <= now <= at + WITNESS_POLLS
  {
    ReachableIsInv(c, s);
    assert EventOk(c, s, Event.Committed(p, g, text, how));
    var at, now :| Event.Saw(p, g, how.name, at, now) in s.h.events;
    assert EventOk(c, s, Event.Saw(p, g, how.name, at, now));
  }

  /** A generation that no member but `p` held or passed is never committed by `p` by applying it. */
  lemma LoneApplierNeverCommits(c: Cluster, s: State, p: Name, g: nat)
    requires Reachable(c, s) && |c.names| >= 2
    requires forall q :: q in c.names && q != p ==> !Vouched(s.h.events, q, g)
    ensures forall text, how :: Event.Committed(p, g, text, how) in s.h.events ==> how == NoApply
  {
    forall text, how | Event.Committed(p, g, text, how) in s.h.events
      ensures how == NoApply
    {
      if how != NoApply {
        AppliedCommitIsWitnessed(c, s, p, g, text, how);
        WhoVouchesIsDeclared(c, s, how.name, g);
      }
    }
  }

  /** Only declared members ever vouch. */
  lemma WhoVouchesIsDeclared(c: Cluster, s: State, q: Name, g: nat)
    requires Reachable(c, s) && Vouched(s.h.events, q, g)
    ensures q in c.names
  {
    var s0, moves :| Init(c, s0) && After(c, s0, moves) == Some(s);
    VouchersAreDeclared(c, s0, moves, q, g);
  }

  lemma {:induction false} VouchersAreDeclared(c: Cluster, s0: State, moves: seq<Move>, q: Name, g: nat)
    requires Init(c, s0) && After(c, s0, moves).Some? && Vouched(After(c, s0, moves).value.h.events, q, g)
    ensures q in c.names
  {
    var s := After(c, s0, moves).value;
    var text :| Event.Held(q, g, text) in s.h.events || DidPass(s.h.events, q, g, text);
    if moves != [] {
      var before := After(c, s0, moves[..|moves| - 1]).value;
      InitIsInv(c, s0);
      AfterKeepsInv(c, s0, moves[..|moves| - 1]);
      if Event.Held(q, g, text) in before.h.events || DidPass(before.h.events, q, g, text) {
        VouchersAreDeclared(c, s0, moves[..|moves| - 1], q, g);
      } else {
        OnlyMembersMove(c, before, moves[|moves| - 1], s, q, g, text);
      }
    }
  }

  lemma OnlyMembersMove(c: Cluster, s: State, move: Move, t: State, q: Name, g: nat, text: Text)
    requires Next(c, s, move) == Some(t) && s.members.Keys == c.names
    requires Event.Held(q, g, text) in t.h.events || DidPass(t.h.events, q, g, text)
    requires !(Event.Held(q, g, text) in s.h.events || DidPass(s.h.events, q, g, text))
    ensures q in c.names
  {
    if Event.Held(q, g, text) in t.h.events {
    } else {
      var exit :| Event.Passed(q, g, text, exit) in t.h.events;
      assert Event.Passed(q, g, text, exit) !in s.h.events;
    }
  }

  // ---- which text a generation stands for ----------------------------------------------------

  /**
   The text a member handles for `g` was renamed in for some generation from `g` on, and is the text
   of `g` when it was renamed in for `g` itself.
   */
  lemma HandledTextIsNoOlder(c: Cluster, s: State, p: Name, g: nat, text: Text, tag: nat)
    requires Reachable(c, s) && Event.Read(p, g, text, tag) in s.h.events
    ensures 1 <= g <= s.store.gen && g <= tag <= s.store.gen + 1 && (text, tag) in s.h.renames
    ensures tag == g ==> g in s.h.texts && text == s.h.texts[g]
  {
    ReachableIsInv(c, s);
    assert EventOk(c, s, Event.Read(p, g, text, tag));
  }

  /**
   While the text on the store is the one of its generation, every member committed at that
   generation is between ticks and its local file is that text.
   */
  lemma SettledClusterAgrees(c: Cluster, s: State, p: Name)
    requires Reachable(c, s) && s.h.tag == s.store.gen > 0
    requires Joined(s, p) && s.members[p].committed == s.store.gen
    ensures s.members[p].pc == Idle && s.members[p].local == s.store.conf
    ensures s.store.gen in s.h.texts && s.store.conf == Some(s.h.texts[s.store.gen])
  {
    ReachableIsInv(c, s);
    assert MemberOk(c, s, p);
    var m := s.members[p];
    var text := s.h.last[p].value;
    var tag :| Event.Read(p, m.committed, text, tag) in s.h.events;
    assert EventOk(c, s, Event.Read(p, m.committed, text, tag));
  }

  /** The text and the generation part exactly at the first rename, and meet again at the second. */
  lemma OpenOnlyBetweenRenames(c: Cluster, s: State, move: Move, t: State)
    requires Reachable(c, s) && Next(c, s, move) == Some(t)
    ensures s.h.tag == s.store.gen ==>
              (t.h.tag != t.store.gen <==> move.Publisher? && move.pa.RenameConf?)
    ensures s.h.tag != s.store.gen ==>
              (t.h.tag == t.store.gen <==> move.Publisher? && move.pa.RenameGen?)
  {
    ReachableIsInv(c, s);
    assert CounterInv(s) && TextInv(s);
    assert s.h.tag == s.store.gen || s.h.tag == s.store.gen + 1;
    hide Reachable, Inv, PubMove, CounterInv, TextInv, ConfMember.Step;
    if move.Publisher? {
      RenamesStepTogether(s, move.i, move.pa);
    }
  }

  // ---- counters and the local file -----------------------------------------------------------

  lemma CountersAreOrdered(c: Cluster, s: State, p: Name)
    requires Reachable(c, s) && Joined(s, p)
    ensures s.members[p].committed <= s.members[p].attempted <= s.store.gen
    ensures s.members[p].committed > 0 ==>
              s.h.last[p].Some? && WasRead(s.h.events, p, s.members[p].committed, s.h.last[p].value)
  {
    ReachableIsInv(c, s);
    assert MemberOk(c, s, p);
  }

  /** Across crashes and restarts each generation is handed forward at most once, in order. */
  lemma HandedForwardOnce(c: Cluster, s: State, p: Name, i: nat, j: nat)
    requires Reachable(c, s) && Joined(s, p) && i < j < |s.h.handed[p]|
    ensures s.h.handed[p][i] < s.h.handed[p][j] <= s.members[p].attempted
  {
    ReachableIsInv(c, s);
    assert MemberOk(c, s, p);
  }

  /** Between ticks the local file is the last committed text, unless an attempt was left unsettled. */
  lemma LocalIsLastCommitted(c: Cluster, s: State, p: Name)
    requires Reachable(c, s) && Joined(s, p) && s.members[p].pc == Idle && p !in s.h.unsettled
    ensures s.members[p].local == s.h.last[p]
  {
    ReachableIsInv(c, s);
    assert MemberOk(c, s, p);
  }

  /** A member whose two counters agree has nothing unsettled. */
  lemma CommittedIsSettled(c: Cluster, s: State, p: Name)
    requires Reachable(c, s) && Joined(s, p) && s.members[p].committed == s.members[p].attempted
    ensures p !in s.h.unsettled && (s.members[p].pc == Idle ==> s.members[p].local == s.h.last[p])
  {
    ReachableIsInv(c, s);
    assert MemberOk(c, s, p);
  }
}
