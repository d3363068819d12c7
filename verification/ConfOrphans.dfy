/**
 When the members committed at the newest generation hold its text. A member commits the text it read,
 which is the generation's own unless the stored text had been replaced by then; so once no publisher moves
 any more, the members agree exactly when the stored text is the generation's own or nobody can commit it.
 */
module ConfOrphans {
  import opened Wrappers
  import opened ConfMember
  import opened ConfProtocol
  import opened ConfInvariants
  import opened ConfSafety
  import ConfGuarantees
  import opened ConfRuns

  // ---- a member reads once for a generation --------------------------------------------------

  ghost predicate ReadOk(s: State, e: Event) {
    e.Read? ==>
      && e.p in s.members && e.g <= s.members[e.p].attempted
      && (s.members[e.p].pc.Recorded? ==> e.g < s.members[e.p].attempted)
  }

  ghost predicate SameRead(e: Event, e': Event) {
    e.Read? && e'.Read? && e.p == e'.p && e.g == e'.g ==> e == e'
  }

  ghost predicate ReadInv(s: State) {
    && (forall e :: e in s.h.events ==> ReadOk(s, e))
    && (forall e, e' :: e in s.h.events && e' in s.h.events ==> SameRead(e, e'))
  }

  /** A step's own read, if it is one, is for the attempt under way. */
  lemma StepReads(s: State, p: Name, m: Member, a: Act, e: Event)
    requires Step(m, a).Some? && CountersOk(s.store.gen, m) && e in EventsOf(s, p, m, a) && e.Read?
    ensures m.pc.Recorded? && e.p == p && e.g == m.attempted == Step(m, a).value.attempted
    ensures !Step(m, a).value.pc.Recorded? && EventsOf(s, p, m, a) == {e}
  {
  }

  lemma StepMovesOn(m: Member, a: Act, gen: nat)
    requires CountersOk(gen, m) && Step(m, a).Some?
    ensures var n := Step(m, a).value;
            n.attempted >= m.attempted && (n.pc.Recorded? ==> n.attempted > m.attempted)
  {
  }

  lemma MemberMoveKeepsReads(c: Cluster, s: State, p: Name, a: Act)
    requires ReadInv(s) && MemberMove(c, s, p, a).Some? && CountersOk(s.store.gen, s.members[p])
    ensures ReadInv(MemberMove(c, s, p, a).value)
  {
    hide Step, EventsOf, AcksAfter, UnsettledAfter, Allowed, CountersOk;
    var m, t := s.members[p], MemberMove(c, s, p, a).value;
    var more := EventsOf(s, p, m, a);
    StepMovesOn(m, a, s.store.gen);
    forall e | e in more && e.Read?
      ensures more == {e} && ReadOk(t, e) && m.pc.Recorded? && e.p == p && e.g == m.attempted
    {
      StepReads(s, p, m, a, e);
    }
    assert forall e :: e in t.h.events <==> e in s.h.events || e in more;
  }

  lemma NextKeepsReads(c: Cluster, s: State, move: Move)
    requires ReadInv(s) && Inv(c, s) && Next(c, s, move).Some?
    ensures ReadInv(Next(c, s, move).value)
  {
    match move {
      case Peer(p, a) =>
        assert MemberOk(c, s, p);
        hide Inv, ReadInv, MemberMove;
        MemberMoveKeepsReads(c, s, p, a);
      case _ =>
        hide Inv;
        assert Next(c, s, move).value.h.events == s.h.events;
        assert Next(c, s, move).value.members == s.members;
        hide Next;
    }
  }

  lemma {:induction false} AfterKeepsReads(c: Cluster, s0: State, moves: seq<Move>)
    requires Init(c, s0) && After(c, s0, moves).Some?
    ensures ReadInv(After(c, s0, moves).value)
  {
    if moves != [] {
      var init := moves[..|moves| - 1];
      AfterKeepsReads(c, s0, init);
      InitIsInv(c, s0);
      AfterKeepsInv(c, s0, init);
      hide Init, Inv, Next, ReadInv;
      NextKeepsReads(c, After(c, s0, init).value, moves[|moves| - 1]);
    }
  }

  lemma ReachableReads(c: Cluster, s: State)
    requires Reachable(c, s)
    ensures ReadInv(s)
  {
    var s0, moves :| Init(c, s0) && After(c, s0, moves) == Some(s);
    AfterKeepsReads(c, s0, moves);
  }

  /** A member reads one text for a generation. */
  lemma ReadIsOne(c: Cluster, s: State, p: Name, g: nat, text: Text, text': Text)
    requires Reachable(c, s) && WasRead(s.h.events, p, g, text) && WasRead(s.h.events, p, g, text')
    ensures text == text'
  {
    ReachableReads(c, s);
    var tag :| Event.Read(p, g, text, tag) in s.h.events;
    var tag' :| Event.Read(p, g, text', tag') in s.h.events;
    assert SameRead(Event.Read(p, g, text, tag), Event.Read(p, g, text', tag'));
  }

  /** A member committed at the newest generation holds what it read for it. */
  lemma CommittedHoldsRead(c: Cluster, s: State, p: Name)
    requires Reachable(c, s) && Joined(s, p) && s.members[p].committed == s.store.gen > 0
    ensures s.members[p].pc == Idle && s.members[p].local.Some?
    ensures WasRead(s.h.events, p, s.store.gen, s.members[p].local.value)
  {
    ReachableIsInv(c, s);
    assert MemberOk(c, s, p);
  }

  /**
   A member committed at the newest generation holds that generation's text exactly when that is what
   was stored as it read.
   */
  lemma CommittedTextExactly(c: Cluster, s: State, p: Name)
    requires Reachable(c, s) && Joined(s, p) && s.members[p].committed == s.store.gen > 0
    ensures s.store.gen in s.h.texts
    ensures s.members[p].local == Some(s.h.texts[s.store.gen]) <==>
              WasRead(s.h.events, p, s.store.gen, s.h.texts[s.store.gen])
  {
    ReachableIsInv(c, s);
    assert TextInv(s);
    CommittedHoldsRead(c, s, p);
    hide Inv, Reachable;
    if WasRead(s.h.events, p, s.store.gen, s.h.texts[s.store.gen]) {
      ReadIsOne(c, s, p, s.store.gen, s.members[p].local.value, s.h.texts[s.store.gen]);
    }
  }

  // ---- what the members make of a stored text ------------------------------------------------

  /** Between ticks, and nobody has tried the newest generation. */
  ghost predicate Untried(s: State) {
    forall p :: p in s.members ==> s.members[p].pc == Idle && s.members[p].attempted < s.store.gen
  }

  /** Some member's gate passes the text, and it holds it already, is alone, or has another whose gate does. */
  ghost predicate CanCommit(c: Cluster, s: State, text: Text)
    requires s.members.Keys == c.names
  {
    exists p :: p in c.names && c.valid(text, p)
      && (s.members[p].local == Some(text) || |c.names| == 1 || exists q :: q in c.names && q != p && c.valid(text, q))
  }

  /** Every member committed at the newest generation holds its text. */
  ghost predicate Agreed(s: State) {
    forall p :: p in s.members && s.members[p].committed == s.store.gen ==>
      s.store.gen in s.h.texts && s.members[p].local == Some(s.h.texts[s.store.gen])
  }

  ghost predicate StaysAgreed(c: Cluster, s: State) {
    forall t :: MembersLead(c, s, t) ==> Agreed(t)
  }

  // -- from s on, as long as only members move --

  /** A member that had `local` before its first try of `gen` still does until the text is in place. */
  predicate FileSince(gen: nat, local: Option<Text>, m: Member) {
    && m.attempted <= gen
    && (m.attempted < gen ==> (m.pc.Idle? || m.pc == SawGen(gen)) && m.local == local)
    && (m.pc.Recorded? || m.pc.Holding? ==> m.local == local)
  }

  /** What became of member `p` since `s`. */
  ghost predicate Since(s: State, t: State, p: Name)
    requires p in s.members
  {
    && p in t.members && FileSince(s.store.gen, s.members[p].local, t.members[p])
    && (t.members[p].committed == s.store.gen ==>
          exists text, how :: Event.Committed(p, s.store.gen, text, how) in t.h.events)
  }

  lemma StepKeepsFile(gen: nat, local: Option<Text>, m: Member, a: Act)
    requires FileSince(gen, local, m) && Step(m, a).Some? && CountersOk(gen, m) && (a.SeeGen? ==> a.g == gen)
    ensures FileSince(gen, local, Step(m, a).value)
  {
  }

  /** What was read and held for the newest generation since `s`. */
  ghost predicate Heard(s: State, e: Event) {
    && (e.Read? && e.g == s.store.gen ==> s.store.conf == Some(e.text))
    && (e.Held? && e.g == s.store.gen ==> e.p in s.members && s.members[e.p].local == Some(e.text))
  }

  ghost predicate Quiet(s: State, t: State) {
    && t.store.gen == s.store.gen && t.store.conf == s.store.conf && t.h.texts == s.h.texts
    && t.members.Keys == s.members.Keys
    && (forall p :: p in s.members ==> Since(s, t, p))
    && (forall e :: e in t.h.events ==> Heard(s, e))
  }

  lemma UntriedIsQuiet(c: Cluster, s: State)
    requires Reachable(c, s) && Untried(s)
    ensures Quiet(s, s)
  {
    ReachableIsInv(c, s);
    ReachableReads(c, s);
    forall e | e in s.h.events
      ensures Heard(s, e)
    {
      assert ReadOk(s, e);
      if e.Held? {
        assert EventOk(c, s, e);
        var tag :| Event.Read(e.p, e.g, e.text, tag) in s.h.events;
        assert ReadOk(s, Event.Read(e.p, e.g, e.text, tag));
      }
    }
    forall p | p in s.members
      ensures Since(s, s, p)
    {
      assert MemberOk(c, s, p);
    }
  }

  lemma StepIsHeard(c: Cluster, s: State, t: State, p: Name, a: Act, e: Event)
    requires Quiet(s, t) && MemberMove(c, t, p, a).Some? && CountersOk(t.store.gen, t.members[p])
    requires e in EventsOf(t, p, t.members[p], a)
    ensures Heard(s, e)
  {
    assert Since(s, t, p);
  }

  lemma MoverSince(c: Cluster, s: State, t: State, p: Name, a: Act)
    requires Quiet(s, t) && MemberMove(c, t, p, a).Some? && CountersOk(t.store.gen, t.members[p])
    ensures Since(s, MemberMove(c, t, p, a).value, p)
  {
    assert Since(s, t, p);
    var m, u := t.members[p], MemberMove(c, t, p, a).value;
    StepKeepsFile(s.store.gen, s.members[p].local, m, a);
    hide FileSince, AcksAfter, UnsettledAfter;
    if a.Commit? {
      assert Event.Committed(p, m.pc.g, m.pc.text, m.pc.how) in u.h.events;
    } else if u.members[p].committed == s.store.gen {
      CommittedOnlyByCommit(m, a);
      var text, how :| Event.Committed(p, s.store.gen, text, how) in t.h.events;
      assert Event.Committed(p, s.store.gen, text, how) in u.h.events;
    }
  }

  lemma CommittedOnlyByCommit(m: Member, a: Act)
    requires Step(m, a).Some? && !a.Commit?
    ensures Step(m, a).value.committed == m.committed
  {
  }

  lemma OtherSince(s: State, t: State, u: State, p: Name)
    requires p in s.members && Since(s, t, p)
    requires p in u.members && u.members[p] == t.members[p] && t.h.events <= u.h.events
    ensures Since(s, u, p)
  {
    if u.members[p].committed == s.store.gen {
      var text, how :| Event.Committed(p, s.store.gen, text, how) in t.h.events;
      assert Event.Committed(p, s.store.gen, text, how) in u.h.events;
    }
  }

  /** A member's move adds its events and changes no other member. */
  lemma PeerGrows(c: Cluster, t: State, p: Name, a: Act)
    requires MemberMove(c, t, p, a).Some?
    ensures var u := MemberMove(c, t, p, a).value;
            && u.h.events == t.h.events + EventsOf(t, p, t.members[p], a)
            && u.store.gen == t.store.gen && u.store.conf == t.store.conf && u.h.texts == t.h.texts
            && u.members.Keys == t.members.Keys && forall q :: q in t.members && q != p ==> u.members[q] == t.members[q]
  {
  }

  lemma PeerKeepsQuiet(c: Cluster, s: State, t: State, p: Name, a: Act)
    requires Quiet(s, t) && Inv(c, t) && MemberMove(c, t, p, a).Some?
    ensures Quiet(s, MemberMove(c, t, p, a).value)
  {
    assert MemberOk(c, t, p);
    var u := MemberMove(c, t, p, a).value;
    PeerGrows(c, t, p, a);
    hide Inv, MemberMove, EventsOf, Since, Heard, CountersOk;
    forall q | q in s.members
      ensures Since(s, u, q)
    {
      if q == p {
        MoverSince(c, s, t, p, a);
      } else {
        OtherSince(s, t, u, q);
      }
    }
    forall e | e in u.h.events
      ensures Heard(s, e)
    {
      if e !in t.h.events {
        StepIsHeard(c, s, t, p, a, e);
      }
    }
  }

  lemma {:induction false} LeadKeepsQuiet(c: Cluster, s: State, moves: seq<Move>)
    requires Reachable(c, s) && Quiet(s, s) && After(c, s, moves).Some? && OfMembers(moves)
    ensures Quiet(s, After(c, s, moves).value)
  {
    if moves != [] {
      var init, move := moves[..|moves| - 1], moves[|moves| - 1];
      assert move in moves;
      LeadKeepsQuiet(c, s, init);
      ReachOn(c, s, init);
      var t := After(c, s, init).value;
      ReachableIsInv(c, t);
      hide Reachable, Inv;
      if move.Peer? {
        hide Quiet, MemberMove;
        PeerKeepsQuiet(c, s, t, move.p, move.a);
      } else {
        assert forall p :: p in s.members ==> Since(s, t, p) ==> Since(s, t.(now := t.now + 1), p);
      }
    }
  }

  // -- nobody can commit another text --

  lemma ReadIsStored(c: Cluster, s: State, t: State, p: Name, text: Text)
    requires Quiet(s, t) && EventInv(c, t) && WasRead(t.h.events, p, s.store.gen, text)
    ensures s.store.conf == Some(text) && c.valid(text, p)
  {
    var tag :| Event.Read(p, s.store.gen, text, tag) in t.h.events;
    assert Heard(s, Event.Read(p, s.store.gen, text, tag));
    assert EventOk(c, t, Event.Read(p, s.store.gen, text, tag));
  }

  lemma VoucherPasses(c: Cluster, s: State, t: State, q: Name)
    requires Quiet(s, t) && EventInv(c, t) && Vouched(t.h.events, q, s.store.gen)
    ensures s.store.conf.Some? && c.valid(s.store.conf.value, q)
  {
    var text :| Event.Held(q, s.store.gen, text) in t.h.events || DidPass(t.h.events, q, s.store.gen, text);
    if Event.Held(q, s.store.gen, text) in t.h.events {
      assert EventOk(c, t, Event.Held(q, s.store.gen, text));
    } else {
      var exit :| Event.Passed(q, s.store.gen, text, exit) in t.h.events;
      assert EventOk(c, t, Event.Passed(q, s.store.gen, text, exit));
      assert EventOk(c, t, Event.Handed(q, s.store.gen, text));
    }
    hide EventInv, Quiet, Vouched, WasRead;
    ReadIsStored(c, s, t, q, text);
  }

  /** A commit since `s` is one that `CanCommit` foresees. */
  lemma CommitWasPossible(c: Cluster, s: State, t: State, p: Name, text: Text, how: Witness)
    requires Reachable(c, t) && Quiet(s, t) && s.members.Keys == c.names
    requires Event.Committed(p, s.store.gen, text, how) in t.h.events && p in c.names
    ensures s.store.conf == Some(text) && CanCommit(c, s, text)
  {
    ReachableIsInv(c, t);
    assert EventOk(c, t, Event.Committed(p, s.store.gen, text, how));
    ReadIsStored(c, s, t, p, text);
    match how {
      case NoApply => assert Heard(s, Event.Held(p, s.store.gen, text));
      case Alone =>
      case Peer(q) =>
        var at, now :| Event.Saw(p, s.store.gen, q, at, now) in t.h.events;
        assert EventOk(c, t, Event.Saw(p, s.store.gen, q, at, now));
        VoucherPasses(c, s, t, q);
        ConfGuarantees.WhoVouchesIsDeclared(c, t, q, s.store.gen);
    }
  }

  lemma AgreedWhile(c: Cluster, s: State, t: State)
    requires Reachable(c, s) && Untried(s) && s.store.gen > 0 && MembersLead(c, s, t) && s.members.Keys == c.names
    requires s.store.gen in s.h.texts && s.store.conf.Some?
    requires s.store.conf == Some(s.h.texts[s.store.gen]) || !CanCommit(c, s, s.store.conf.value)
    ensures Agreed(t)
  {
    UntriedIsQuiet(c, s);
    var moves :| After(c, s, moves) == Some(t) && OfMembers(moves);
    LeadKeepsQuiet(c, s, moves);
    ReachOn(c, s, moves);
    ReachableIsInv(c, t);
    hide Reachable, CanCommit;
    forall p | p in t.members && t.members[p].committed == t.store.gen
      ensures t.members[p].local == Some(s.h.texts[s.store.gen])
    {
      assert Since(s, t, p);
      var text, how :| Event.Committed(p, s.store.gen, text, how) in t.h.events;
      CommitWasPossible(c, s, t, p, text, how);
      CommittedHoldsRead(c, t, p);
      ReadIsStored(c, s, t, p, t.members[p].local.value);
    }
  }

  // -- and if somebody can, there is a run in which it does --

  /** Somebody between ticks can read the text and holds it, is alone, or has another such member. */
  predicate CanTakeAndCommit(c: Cluster, s: State, p: Name, q: Name, text: Text) {
    CanRead(c, s, p, text)
    && (s.members[p].local == Some(text) || |c.names| == 1 || (q != p && CanRead(c, s, q, text)))
  }

  /**
   In any reachable state, whoever the other members are and wherever they stand: a stored text that one
   member can read and hold, or read alone, or read beside another, is committed at the newest generation in
   some run in which no publisher moves. When it is not that generation's text, the agreement is lost.
   */
  lemma TextCanBeCommitted(c: Cluster, s: State, p: Name, q: Name, text: Text) returns (t: State, who: Name)
    requires Reachable(c, s) && CanTakeAndCommit(c, s, p, q, text)
    ensures Reachable(c, t) && MembersLead(c, s, t) && t.pubs == s.pubs
    ensures t.store.gen == s.store.gen && t.h.texts == s.h.texts
    ensures Joined(t, who) && t.members[who].committed == s.store.gen && t.members[who].local == Some(text)
    ensures s.store.gen in s.h.texts && s.h.texts[s.store.gen] != text ==> !Agreed(t)
  {
    LeadNowhere(c, s);
    hide Reachable, MembersLead;
    who := p;
    if s.members[p].local == Some(text) {
      t := CommitHeld(c, s, s, p, text);
    } else if |c.names| == 1 {
      var s1 := TakeText(c, s, s, p, text);
      t := CommitAlone(c, s, s1, p, Exited(0));
    } else if s.members[q].local == Some(text) {
      t := CommitHeld(c, s, s, q, text);
      who := q;
    } else {
      var s1 := TakeText(c, s, s, p, text);
      var s2 := TakeText(c, s, s1, q, text);
      t := CommitWitnessed(c, s, s2, p, q);
    }
  }

  lemma SomebodyCommits(c: Cluster, s: State, text: Text) returns (t: State, who: Name)
    requires Reachable(c, s) && Untried(s) && s.members.Keys == c.names && s.store.conf == Some(text)
    requires forall q :: q in c.names ==> Joined(s, q) && s.members[q].committed < s.store.gen
    requires CanCommit(c, s, text) && s.store.gen in s.h.texts && s.h.texts[s.store.gen] != text
    ensures MembersLead(c, s, t) && !Agreed(t)
  {
    hide Reachable, MembersLead, Agreed;
    var p :| p in c.names && c.valid(text, p)
             && (s.members[p].local == Some(text) || |c.names| == 1
                 || exists q :: q in c.names && q != p && c.valid(text, q));
    if s.members[p].local == Some(text) || |c.names| == 1 {
      t, who := TextCanBeCommitted(c, s, p, p, text);
    } else {
      var q :| q in c.names && q != p && c.valid(text, q);
      t, who := TextCanBeCommitted(c, s, p, q, text);
    }
  }

  /**
   Before anybody has tried the newest generation, with no publisher to move any more: the members that
   commit it hold its text, in every run, exactly when the stored text is that text or nobody can commit
   the stored one.
   */
  lemma AgreementExactly(c: Cluster, s: State)
    requires Reachable(c, s) && Untried(s) && s.store.gen > 0
    ensures s.members.Keys == c.names && s.store.gen in s.h.texts && s.store.conf.Some?
    ensures StaysAgreed(c, s) <==>
              s.store.conf == Some(s.h.texts[s.store.gen]) || !CanCommit(c, s, s.store.conf.value)
  {
    ReachableIsInv(c, s);
    assert TextInv(s);
    forall q | q in c.names
      ensures Joined(s, q) && s.members[q].committed < s.store.gen
    {
      assert MemberOk(c, s, q);
    }
    hide Reachable, Inv, TextInv, CanCommit, MembersLead, Untried;
    if s.store.conf == Some(s.h.texts[s.store.gen]) || !CanCommit(c, s, s.store.conf.value) {
      forall t | MembersLead(c, s, t)
        ensures Agreed(t)
      {
        AgreedWhile(c, s, t);
      }
    } else {
      var t, who := SomebodyCommits(c, s, s.store.conf.value);
    }
  }
}
