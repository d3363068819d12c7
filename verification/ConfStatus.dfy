/**
 What a commit and an ack rest on, status by status: each generation gets at most one status from a
 member, and that status is a completed 0 or 1 exactly when the command was not killed. And where the
 text in a member's local file can have come from, settled or not.
 */
module ConfStatus {
  import opened Wrappers
  import opened ConfMember
  import opened ConfProtocol
  import opened ConfInvariants
  import opened ConfSafety
  import ConfGuarantees

  // ---- one status per generation -------------------------------------------------------------

  /** Before this tick's status, or past finding the text in place. */
  predicate NoStatusYet(pc: Pc) {
    NotHandedYet(pc) || pc.Applied? || (pc.Witnessed? && pc.how == NoApply)
  }

  /** On the way to apply, or not yet compared. */
  predicate NotFoundSame(pc: Pc) {
    pc.Recorded? || pc.Holding? || pc.Saved? || pc.Installed? || pc.Applied?
  }

  ghost predicate PassesOnce(es: set<Event>, p: Name, m: Member) {
    && (forall e :: e in es && e.Passed? && e.p == p ==>
          e.g <= m.attempted && (NoStatusYet(m.pc) ==> e.g < m.attempted))
    && (forall e, e' :: e in es && e' in es && e.Passed? && e'.Passed? && e.p == e'.p == p && e.g == e'.g ==> e == e')
  }

  ghost predicate HeldApart(es: set<Event>, p: Name, m: Member) {
    && (forall e :: e in es && e.Held? && e.p == p ==>
          e.g <= m.attempted && (NotFoundSame(m.pc) ==> e.g < m.attempted))
    && (forall e, e' :: e in es && e' in es && e.Held? && e'.Passed? && e.p == e'.p == p ==> e.g != e'.g)
  }

  /** A step comes to these points from one of them, or with a newer attempt. */
  lemma StepPhases(m: Member, a: Act, gen: nat)
    requires CountersOk(gen, m) && Step(m, a).Some?
    ensures var n := Step(m, a).value;
            && n.attempted >= m.attempted
            && (NoStatusYet(n.pc) ==> NoStatusYet(m.pc) || n.attempted > m.attempted)
            && (NotFoundSame(n.pc) ==> NotFoundSame(m.pc) || n.attempted > m.attempted)
  {
  }

  lemma StatusOrHeldEvent(s: State, p: Name, m: Member, a: Act, e: Event)
    requires Step(m, a).Some? && CountersOk(s.store.gen, m) && e in EventsOf(s, p, m, a) && (e.Passed? || e.Held?)
    ensures e.p == p && e.g == m.attempted && EventsOf(s, p, m, a) == {e}
    ensures e.Passed? ==> m.pc.Applied? && !NoStatusYet(Step(m, a).value.pc) && !NotFoundSame(Step(m, a).value.pc)
    ensures e.Held? ==> m.pc.Holding? && !NotFoundSame(Step(m, a).value.pc)
    ensures Step(m, a).value.attempted == m.attempted
  {
  }

  lemma MoreEvents(es: set<Event>, more: set<Event>, p: Name, m: Member, n: Member)
    requires PassesOnce(es, p, m) && HeldApart(es, p, m)
    requires n.attempted >= m.attempted
    requires NoStatusYet(n.pc) ==> NoStatusYet(m.pc) || n.attempted > m.attempted
    requires NotFoundSame(n.pc) ==> NotFoundSame(m.pc) || n.attempted > m.attempted
    requires forall e :: e in more && (e.Passed? || e.Held?) ==>
               && e.p == p && e.g == m.attempted == n.attempted && more == {e}
               && (e.Passed? ==> m.pc.Applied? && !NoStatusYet(n.pc) && !NotFoundSame(n.pc))
               && (e.Held? ==> m.pc.Holding? && !NotFoundSame(n.pc))
    ensures PassesOnce(es + more, p, n) && HeldApart(es + more, p, n)
  {
    if e :| e in more && e.Passed? {
      assert es + more == es + {e};
    } else if e :| e in more && e.Held? {
      assert es + more == es + {e};
    }
  }

  lemma StepKeepsStatus(c: Cluster, s: State, p: Name, a: Act)
    requires MemberMove(c, s, p, a).Some? && CountersOk(s.store.gen, s.members[p])
    requires PassesOnce(s.h.events, p, s.members[p]) && HeldApart(s.h.events, p, s.members[p])
    ensures var t := MemberMove(c, s, p, a).value;
            PassesOnce(t.h.events, p, t.members[p]) && HeldApart(t.h.events, p, t.members[p])
  {
    hide AcksAfter, UnsettledAfter, Allowed, Step, EventsOf, CountersOk, PassesOnce, HeldApart;
    hide NoStatusYet, NotFoundSame;
    var m, more := s.members[p], EventsOf(s, p, s.members[p], a);
    StepPhases(m, a, s.store.gen);
    forall e | e in more && (e.Passed? || e.Held?)
      ensures && e.p == p && e.g == m.attempted == Step(m, a).value.attempted && more == {e}
              && (e.Passed? ==>
                    m.pc.Applied? && !NoStatusYet(Step(m, a).value.pc) && !NotFoundSame(Step(m, a).value.pc))
              && (e.Held? ==> m.pc.Holding? && !NotFoundSame(Step(m, a).value.pc))
    {
      StatusOrHeldEvent(s, p, m, a, e);
    }
    MoreEvents(s.h.events, more, p, m, Step(m, a).value);
  }

  lemma OthersKeepStatus(c: Cluster, s: State, move: Move, p: Name)
    requires Next(c, s, move).Some? && p in s.members && p in Next(c, s, move).value.members
    requires !(move.Peer? && move.p == p)
    requires PassesOnce(s.h.events, p, s.members[p]) && HeldApart(s.h.events, p, s.members[p])
    ensures var t := Next(c, s, move).value;
            PassesOnce(t.h.events, p, t.members[p]) && HeldApart(t.h.events, p, t.members[p])
  {
    var t := Next(c, s, move).value;
    assert t.members[p] == s.members[p];
    assert forall e :: e in t.h.events && e.p == p ==> e in s.h.events;
  }

  lemma NextKeepsStatus(c: Cluster, s: State, move: Move, p: Name)
    requires Inv(c, s) && Next(c, s, move).Some? && p in s.members
    requires PassesOnce(s.h.events, p, s.members[p]) && HeldApart(s.h.events, p, s.members[p])
    ensures var t := Next(c, s, move).value;
            p in t.members && PassesOnce(t.h.events, p, t.members[p]) && HeldApart(t.h.events, p, t.members[p])
  {
    assert MemberOk(c, s, p) && CountersOk(s.store.gen, s.members[p]);
    hide Inv, MemberOk, PassesOnce, HeldApart, CountersOk;
    if move.Peer? && move.p == p {
      assert MemberMove(c, s, p, move.a) == Next(c, s, move);
      hide MemberMove;
      StepKeepsStatus(c, s, p, move.a);
      MembersStay(c, s, move);
    } else {
      MembersStay(c, s, move);
      OthersKeepStatus(c, s, move, p);
    }
  }

  lemma MembersStay(c: Cluster, s: State, move: Move)
    requires Next(c, s, move).Some?
    ensures Next(c, s, move).value.members.Keys == s.members.Keys
  {
  }

  lemma {:induction false} AfterKeepsStatus(c: Cluster, s0: State, moves: seq<Move>, p: Name)
    requires Init(c, s0) && After(c, s0, moves).Some? && p in c.names
    ensures var s := After(c, s0, moves).value;
            p in s.members && PassesOnce(s.h.events, p, s.members[p]) && HeldApart(s.h.events, p, s.members[p])
  {
    if moves != [] {
      var init, move := moves[..|moves| - 1], moves[|moves| - 1];
      AfterKeepsStatus(c, s0, init, p);
      InitIsInv(c, s0);
      AfterKeepsInv(c, s0, init);
      var s := After(c, s0, init).value;
      hide Inv, Init, Next, PassesOnce, HeldApart;
      NextKeepsStatus(c, s, move, p);
    }
  }

  lemma ReachableStatus(c: Cluster, s: State, p: Name)
    requires Reachable(c, s) && p in c.names
    ensures p in s.members && PassesOnce(s.h.events, p, s.members[p]) && HeldApart(s.h.events, p, s.members[p])
  {
    var s0, moves :| Init(c, s0) && After(c, s0, moves) == Some(s);
    AfterKeepsStatus(c, s0, moves, p);
  }

  lemma PasserIsDeclared(c: Cluster, s: State, p: Name, g: nat, text: Text, exit: Exit)
    requires Reachable(c, s) && Event.Passed(p, g, text, exit) in s.h.events
    ensures p in c.names && StatusCode(exit) <= 1
  {
    assert DidPass(s.h.events, p, g, text);
    ConfGuarantees.WhoVouchesIsDeclared(c, s, p, g);
    ReachableIsInv(c, s);
    assert EventOk(c, s, Event.Passed(p, g, text, exit));
  }

  /** A member's pass for a generation is one text and one status. */
  lemma PassIsOne(c: Cluster, s: State, p: Name, g: nat, text: Text, exit: Exit, text': Text, exit': Exit)
    requires Reachable(c, s)
    requires Event.Passed(p, g, text, exit) in s.h.events && Event.Passed(p, g, text', exit') in s.h.events
    ensures text == text' && exit == exit'
  {
    PasserIsDeclared(c, s, p, g, text, exit);
    ReachableStatus(c, s, p);
    assert Event.Passed(p, g, text, exit) == Event.Passed(p, g, text', exit');
  }

  /** The status a commit by applying rests on. */
  lemma CommitHasStatus(c: Cluster, s: State, p: Name, g: nat, text: Text, how: Witness) returns (exit: Exit)
    requires Reachable(c, s) && Event.Committed(p, g, text, how) in s.h.events && how != NoApply
    ensures Event.Passed(p, g, text, exit) in s.h.events && StatusCode(exit) <= 1
  {
    EventIsOk(c, s, Event.Committed(p, g, text, how));
    hide Reachable, WasRead;
    exit := GroundedPass(c, s.h.events, p, g, text, how);
    EventIsOk(c, s, Event.Passed(p, g, text, exit));
  }

  lemma EventIsOk(c: Cluster, s: State, e: Event)
    requires Reachable(c, s) && e in s.h.events
    ensures EventOk(c, s, e)
  {
    ReachableIsInv(c, s);
    hide EventOk, Reachable;
  }

  lemma GroundedPass(c: Cluster, es: set<Event>, p: Name, g: nat, text: Text, how: Witness) returns (exit: Exit)
    requires Grounded(c, es, p, g, text, how) && how != NoApply
    ensures Event.Passed(p, g, text, exit) in es
  {
    exit :| Event.Passed(p, g, text, exit) in es;
  }

  /**
   A commit by applying rests on one status of its generation, and that is a completed 0 or 1 exactly
   when the command was not killed.
   */
  lemma CommitRestsOnItsStatus(c: Cluster, s: State, p: Name, g: nat, text: Text, how: Witness)
    requires Reachable(c, s) && Event.Committed(p, g, text, how) in s.h.events && how != NoApply
    ensures exists exit ::
              && Event.Passed(p, g, text, exit) in s.h.events
              && (forall text', exit' :: Event.Passed(p, g, text', exit') in s.h.events ==>
                  text' == text && exit' == exit)
              && (exit == Exited(0) || exit == Exited(1) <==> exit != Killed)
  {
    var exit := CommitHasStatus(c, s, p, g, text, how);
    hide Reachable;
    forall text', exit' | Event.Passed(p, g, text', exit') in s.h.events
      ensures text' == text && exit' == exit
    {
      PassIsOne(c, s, p, g, text, exit, text', exit');
    }
    assert exit.Exited? ==> exit == Exited(0) || exit == Exited(1);
  }

  /** What an ack on the store was written for: a text in place, or the status it reports. */
  lemma AckHasSource(c: Cluster, s: State, g: nat, p: Name) returns (text: Text)
    requires Reachable(c, s) && (g, p) in s.store.acks
    ensures p in c.names && s.store.acks[(g, p)].code <= 1
    ensures (Event.Held(p, g, text) in s.h.events && s.store.acks[(g, p)].code == 0)
            || PassedWith(s.h.events, p, g, text, s.store.acks[(g, p)].code)
  {
    ReachableIsInv(c, s);
    var ack := s.store.acks[(g, p)];
    assert AckOk(s, (g, p).0, (g, p).1, ack);
    text :| (Event.Held(p, g, text) in s.h.events && ack.code == 0) || PassedWith(s.h.events, p, g, text, ack.code);
  }

  lemma HeldNeverPassed(c: Cluster, s: State, p: Name, g: nat, text: Text, text': Text, exit: Exit)
    requires Reachable(c, s) && p in c.names
    requires Event.Held(p, g, text) in s.h.events
    ensures Event.Passed(p, g, text', exit) !in s.h.events
  {
    ReachableStatus(c, s, p);
    hide Reachable, PassesOnce;
    var held := Event.Held(p, g, text);
    assert forall e :: e in s.h.events && e.Passed? && e.p == p ==> e.g != held.g;
  }

  /** An ack says -1 exactly when its member's status for that generation was killed, and else 0 or 1. */
  lemma AckTellsKilled(c: Cluster, s: State, g: nat, p: Name)
    requires Reachable(c, s) && (g, p) in s.store.acks
    ensures s.store.acks[(g, p)].code in {-1, 0, 1}
    ensures s.store.acks[(g, p)].code == -1 <==> exists text :: Event.Passed(p, g, text, Killed) in s.h.events
  {
    var text := AckHasSource(c, s, g, p);
    hide Reachable;
    var code := s.store.acks[(g, p)].code;
    if Event.Held(p, g, text) in s.h.events {
      forall text' | Event.Passed(p, g, text', Killed) in s.h.events
        ensures false
      {
        HeldNeverPassed(c, s, p, g, text, text', Killed);
      }
    }
    if exit :| Event.Passed(p, g, text, exit) in s.h.events && StatusCode(exit) == code {
      forall text' | Event.Passed(p, g, text', Killed) in s.h.events
        ensures exit == Killed
      {
        PassIsOne(c, s, p, g, text, exit, text', Killed);
      }
    }
  }

  // ---- where the local text comes from -------------------------------------------------------

  /** The text was there at the start, or `p` read it through its gate. */
  ghost predicate Sourced(start: Member, es: set<Event>, p: Name, text: Text) {
    start.local == Some(text) || start.prev == Some(text) || exists g :: WasRead(es, p, g, text)
  }

  ghost predicate FilesSourced(start: Member, es: set<Event>, p: Name, m: Member) {
    && (m.local.Some? ==> Sourced(start, es, p, m.local.value))
    && (m.prev.Some? ==> Sourced(start, es, p, m.prev.value))
  }

  lemma SourceStays(start: Member, es: set<Event>, es': set<Event>, p: Name, text: Text)
    requires es <= es' && Sourced(start, es, p, text)
    ensures Sourced(start, es', p, text)
  {
    if g :| WasRead(es, p, g, text) {
      ReadStays(es, es', p, g, text);
    }
  }

  lemma StepKeepsSources(c: Cluster, start: Member, es: set<Event>, p: Name, m: Member, a: Act)
    requires FilesSourced(start, es, p, m) && PcOk(c, es, p, m) && Step(m, a).Some?
    ensures FilesSourced(start, es, p, Step(m, a).value)
  {
    hide Sourced, WasRead, Grounded;
    if a.Install? {
      assert WasRead(es, p, m.pc.g, m.pc.text);
      ReadIsSource(start, es, p, m.pc.g, m.pc.text);
    }
  }

  lemma ReadIsSource(start: Member, es: set<Event>, p: Name, g: nat, text: Text)
    requires WasRead(es, p, g, text)
    ensures Sourced(start, es, p, text)
  {
  }

  lemma NextKeepsSources(c: Cluster, start: Member, s: State, move: Move, p: Name)
    requires Inv(c, s) && Next(c, s, move).Some? && p in s.members
    requires FilesSourced(start, s.h.events, p, s.members[p])
    ensures var t := Next(c, s, move).value;
            p in t.members && FilesSourced(start, t.h.events, p, t.members[p])
  {
    var t := Next(c, s, move).value;
    assert MemberOk(c, s, p) && PcOk(c, s.h.events, p, s.members[p]);
    MembersStay(c, s, move);
    EventsStay(c, s, move);
    if move.Peer? && move.p == p {
      StepKeepsSources(c, start, s.h.events, p, s.members[p], move.a);
      assert t.members[p] == Step(s.members[p], move.a).value;
    } else {
      assert t.members[p] == s.members[p];
    }
    hide Inv, Next, PcOk, MemberOk, Sourced, Step;
    var n := t.members[p];
    if n.local.Some? {
      SourceStays(start, s.h.events, t.h.events, p, n.local.value);
    }
    if n.prev.Some? {
      SourceStays(start, s.h.events, t.h.events, p, n.prev.value);
    }
  }

  lemma EventsStay(c: Cluster, s: State, move: Move)
    requires Next(c, s, move).Some?
    ensures s.h.events <= Next(c, s, move).value.h.events
  {
  }

  /**
   In every state of every run, settled or not, a member's local file is its first one, the saved one it
   started with, or a text it read for some generation, and none of the last kind failed its gate.
   */
  lemma {:induction false} LocalComesFrom(c: Cluster, s0: State, moves: seq<Move>, p: Name)
    requires Init(c, s0) && After(c, s0, moves).Some? && p in c.names
    ensures p in s0.members && p in After(c, s0, moves).value.members
    ensures var s := After(c, s0, moves).value; FilesSourced(s0.members[p], s.h.events, p, s.members[p])
    ensures forall g, text :: WasRead(After(c, s0, moves).value.h.events, p, g, text) ==> c.valid(text, p)
  {
    InitIsInv(c, s0);
    AfterKeepsInv(c, s0, moves);
    var t := After(c, s0, moves).value;
    forall g, text | WasRead(t.h.events, p, g, text)
      ensures c.valid(text, p)
    {
      ConfGuarantees.ReadIsGated(c, t, p, g, text);
    }
    if moves != [] {
      var init, move := moves[..|moves| - 1], moves[|moves| - 1];
      AfterKeepsInv(c, s0, init);
      LocalComesFrom(c, s0, init, p);
      hide Inv, Next, FilesSourced, WasRead;
      NextKeepsSources(c, s0.members[p], After(c, s0, init).value, move, p);
    }
  }
}
