/**
 Every move of a member, a publisher or the clock keeps the whole invariant, so every reachable state has it.
 */
module ConfSafety {
  import opened Wrappers
  import opened ConfMember
  import opened ConfProtocol
  import opened ConfInvariants

  // ---- the state only grows ------------------------------------------------------------------

  /** Nothing recorded is forgotten: generations, renames, published texts and events. */
  ghost predicate Grows(s: State, t: State) {
    && s.h.events <= t.h.events
    && s.now <= t.now && s.h.tag <= t.h.tag && s.h.renames <= t.h.renames && s.store.gen <= t.store.gen
    && (forall g :: g in s.h.texts ==> g in t.h.texts && t.h.texts[g] == s.h.texts[g])
  }

  lemma PubMoveGrows(s: State, i: nat, pa: PubAct)
    requires PubInv(s) && PubMove(s, i, pa).Some?
    ensures var t := PubMove(s, i, pa).value;
            && Grows(s, t) && t.now == s.now && t.members == s.members && t.h.events == s.h.events
            && t.h.handed == s.h.handed && t.h.last == s.h.last && t.h.unsettled == s.h.unsettled
            && (forall k :: k in t.store.acks ==> k in s.store.acks && t.store.acks[k] == s.store.acks[k])
  {
    if pa.RenameGen? {
      assert s.pubs[i].next == s.store.gen + 1;
      assert s.pubs[i].next !in s.h.texts;
    }
  }

  lemma OldEventsStay(c: Cluster, s: State, t: State)
    requires EventInv(c, s) && Grows(s, t)
    ensures forall e :: e in s.h.events ==> EventOk(c, t, e)
  {
    forall e | e in s.h.events
      ensures EventOk(c, t, e)
    {
      EventStays(c, s, t, e);
    }
  }

  lemma AckStays(s: State, t: State, g: nat, p: Name, ack: AckFile)
    requires AckOk(s, g, p, ack) && s.h.events <= t.h.events && s.now <= t.now
    requires s.members.Keys == t.members.Keys
    ensures AckOk(t, g, p, ack)
  {
    var text :| (Event.Held(p, g, text) in s.h.events && ack.code == 0)
                || PassedWith(s.h.events, p, g, text, ack.code);
    assert (Event.Held(p, g, text) in t.h.events && ack.code == 0)
           || PassedWith(t.h.events, p, g, text, ack.code);
  }

  lemma BystanderStays(c: Cluster, s: State, t: State, q: Name)
    requires q in s.members && q in s.h.handed && q in s.h.last && MemberOk(c, s, q)
    requires q in t.members && q in t.h.handed && q in t.h.last
    requires s.h.events <= t.h.events && s.store.gen <= t.store.gen
    requires t.members[q] == s.members[q] && t.h.handed[q] == s.h.handed[q] && t.h.last[q] == s.h.last[q]
    requires q in t.h.unsettled <==> q in s.h.unsettled
    ensures MemberOk(c, t, q)
  {
    var m := s.members[q];
    PcStays(c, s.h.events, t.h.events, q, m);
    if m.committed > 0 {
      ReadStays(s.h.events, t.h.events, q, m.committed, s.h.last[q].value);
    }
  }

  // ---- each kind of move keeps the invariant -------------------------------------------------

  lemma PubMoveKeepsInv(c: Cluster, s: State, i: nat, pa: PubAct)
    requires Inv(c, s) && PubMove(s, i, pa).Some?
    ensures Inv(c, PubMove(s, i, pa).value)
  {
    var t := PubMove(s, i, pa).value;
    PubMoveKeeps(s, i, pa);
    PubMoveGrows(s, i, pa);
    hide PubMove, PubInv;
    OldEventsStay(c, s, t);
    forall k | k in t.store.acks
      ensures AckOk(t, k.0, k.1, t.store.acks[k])
    {
      AckStays(s, t, k.0, k.1, s.store.acks[k]);
    }
    forall q | q in t.members
      ensures MemberOk(c, t, q)
    {
      BystanderStays(c, s, t, q);
    }
  }

  lemma TickKeepsInv(c: Cluster, s: State)
    requires Inv(c, s) && MayPass(s)
    ensures Inv(c, s.(now := s.now + 1))
  {
    var t := s.(now := s.now + 1);
    assert PubInv(t);
    OldEventsStay(c, s, t);
    forall k | k in t.store.acks
      ensures AckOk(t, k.0, k.1, t.store.acks[k])
    {
      AckStays(s, t, k.0, k.1, s.store.acks[k]);
    }
    forall q | q in t.members
      ensures MemberOk(c, t, q)
    {
      BystanderStays(c, s, t, q);
    }
  }

  /** What a member's step adds to the history is true when it is added. */
  lemma NewEventOk(c: Cluster, s: State, p: Name, a: Act, e: Event)
    requires TextInv(s) && AckInv(s) && MemberMove(c, s, p, a).Some? && MemberOk(c, s, p)
    requires e in EventsOf(s, p, s.members[p], a)
    ensures EventOk(c, MemberMove(c, s, p, a).value, e)
  {
    var m, t := s.members[p], MemberMove(c, s, p, a).value;
    match a {
      case ReadConf(text) => assert (text, s.h.tag) in s.h.renames;
      case FindSame => ReadStays(s.h.events, t.h.events, p, m.pc.g, m.pc.text);
      case Reapply(_) => ReadStays(s.h.events, t.h.events, p, m.pc.g, m.pc.text);
      case Status(_) => {}
      case WriteAck(_) =>
        assert Event.Passed(p, m.pc.g, m.pc.text, m.pc.exit) in t.h.events;
        assert DidPass(t.h.events, p, m.pc.g, m.pc.text);
      case FindPeer(q) =>
        AckVouches(s, m.pc.g, q);
        VouchStays(s.h.events, t.h.events, q, m.pc.g);
      case Commit =>
        ReadStays(s.h.events, t.h.events, p, m.pc.g, m.pc.text);
        GroundStays(c, s.h.events, t.h.events, p, m.pc.g, m.pc.text, m.pc.how);
      case _ =>
    }
  }

  /** An ack on the store means its member held the text or passed with it. */
  lemma AckVouches(s: State, g: nat, q: Name)
    requires AckInv(s) && (g, q) in s.store.acks
    ensures Vouched(s.h.events, q, g) && s.store.acks[(g, q)].at <= s.now
  {
    var ack := s.store.acks[(g, q)];
    assert AckOk(s, (g, q).0, (g, q).1, ack);
    var text :| (Event.Held(q, g, text) in s.h.events && ack.code == 0)
                || PassedWith(s.h.events, q, g, text, ack.code);
    assert Event.Held(q, g, text) in s.h.events || DidPass(s.h.events, q, g, text);
  }

  lemma MemberMoveKeepsAcks(c: Cluster, s: State, p: Name, a: Act)
    requires AckInv(s) && MemberMove(c, s, p, a).Some? && PcOk(c, s.h.events, p, s.members[p])
    ensures AckInv(MemberMove(c, s, p, a).value)
  {
    hide Grounded, WasRead, UnsettledAfter, EventsOf, Allowed;
    var m, t := s.members[p], MemberMove(c, s, p, a).value;
    assert t.members.Keys == s.members.Keys && s.h.events <= t.h.events;
    forall k | k in t.store.acks
      ensures AckOk(t, k.0, k.1, t.store.acks[k])
    {
      if k in s.store.acks && t.store.acks[k] == s.store.acks[k] {
        AckStays(s, t, k.0, k.1, s.store.acks[k]);
      } else {
        assert k == (m.pc.g, p) && (a.AckSame? || a.WriteAck?);
        if a.AckSame? {
          assert Event.Held(p, m.pc.g, m.pc.text) in t.h.events;
        } else {
          assert Event.Passed(p, m.pc.g, m.pc.text, m.pc.exit) in t.h.events;
          assert PassedWith(t.h.events, p, m.pc.g, m.pc.text, StatusCode(m.pc.exit));
        }
      }
    }
  }

  lemma MoverStays(c: Cluster, s: State, p: Name, a: Act)
    requires MemberMove(c, s, p, a).Some? && MemberOk(c, s, p)
    ensures MemberOk(c, MemberMove(c, s, p, a).value, p)
  {
    var m, t := s.members[p], MemberMove(c, s, p, a).value;
    hide PcOk, Step, LocalOk, LastOk, CountersOk, HandedOk, EventsOf, UnsettledAfter, AcksAfter;
    assert a.SeeGen? ==> a.g == s.store.gen;
    MoveKeepsCounters(s.store.gen, m, a);
    MoveKeepsPc(c, s, p, a);
    MoveKeepsHanded(m, a, s.h.handed[p], s.store.gen);
    PcIsInPlace(c, s.h.events, p, m);
    MoveKeepsLocal(c, s, p, a);
    MoveKeepsLast(c, s, p, a);
  }

  /** A member's step touches no other member. */
  lemma OthersStay(c: Cluster, s: State, p: Name, a: Act, q: Name)
    requires MemberMove(c, s, p, a).Some? && Joined(s, q) && q != p && MemberOk(c, s, q)
    ensures MemberOk(c, MemberMove(c, s, p, a).value, q)
  {
    hide MemberOk, ConfMember.Step, EventsOf, AcksAfter, Allowed;
    BystanderStays(c, s, MemberMove(c, s, p, a).value, q);
  }

  lemma MemberMoveKeepsMembers(c: Cluster, s: State, p: Name, a: Act)
    requires MemberInv(c, s) && MemberMove(c, s, p, a).Some?
    ensures MemberInv(c, MemberMove(c, s, p, a).value)
  {
    var t := MemberMove(c, s, p, a).value;
    assert t.members.Keys == s.members.Keys && t.h.handed.Keys == s.h.handed.Keys && t.h.last.Keys == s.h.last.Keys by {
      hide MemberOk, ConfMember.Step, EventsOf, AcksAfter, Allowed, UnsettledAfter;
    }
    hide MemberOk, MemberMove;
    forall q | q in t.members
      ensures MemberOk(c, t, q)
    {
      if q == p {
        MoverStays(c, s, p, a);
      } else {
        OthersStay(c, s, p, a, q);
      }
    }
  }

  lemma MemberMoveKeepsInv(c: Cluster, s: State, p: Name, a: Act)
    requires Inv(c, s) && MemberMove(c, s, p, a).Some?
    ensures Inv(c, MemberMove(c, s, p, a).value)
  {
    var t := MemberMove(c, s, p, a).value;
    assert PubInv(t);
    assert MemberOk(c, s, p);
    MemberMoveKeepsAcks(c, s, p, a);
    MemberMoveKeepsMembers(c, s, p, a);
    assert t.h.events == s.h.events + EventsOf(s, p, s.members[p], a);
    OldEventsStay(c, s, t);
    forall e | e in t.h.events
      ensures EventOk(c, t, e)
    {
      if e !in s.h.events {
        NewEventOk(c, s, p, a, e);
      }
    }
  }

  lemma NextKeepsInv(c: Cluster, s: State, move: Move)
    requires Inv(c, s) && Next(c, s, move).Some?
    ensures Inv(c, Next(c, s, move).value)
  {
    match move
    case Publisher(i, pa) => PubMoveKeepsInv(c, s, i, pa);
    case Peer(p, a) => MemberMoveKeepsInv(c, s, p, a);
    case Tick => TickKeepsInv(c, s);
  }

  lemma {:induction false} AfterKeepsInv(c: Cluster, s: State, moves: seq<Move>)
    requires Inv(c, s) && After(c, s, moves).Some?
    ensures Inv(c, After(c, s, moves).value)
  {
    if moves != [] {
      AfterKeepsInv(c, s, moves[..|moves| - 1]);
      NextKeepsInv(c, After(c, s, moves[..|moves| - 1]).value, moves[|moves| - 1]);
    }
  }

  lemma InitIsInv(c: Cluster, s: State)
    requires Init(c, s)
    ensures Inv(c, s)
  {
  }

  /** Every reachable state keeps the whole invariant. */
  lemma ReachableIsInv(c: Cluster, s: State)
    requires Reachable(c, s)
    ensures Inv(c, s)
  {
    var s0, moves :| Init(c, s0) && After(c, s0, moves) == Some(s);
    InitIsInv(c, s0);
    AfterKeepsInv(c, s0, moves);
  }
}
