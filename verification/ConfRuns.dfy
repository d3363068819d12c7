/**
 Concrete runs of the configuration protocol that show where the guarantees stop.
 */
module ConfRuns {
  import opened Wrappers
  import opened ConfMember
  import opened ConfProtocol

  lemma OneMore(c: Cluster, s: State, move: Move, t: State)
    requires Reachable(c, s) && Next(c, s, move) == Some(t)
    ensures Reachable(c, t)
  {
    var s0, moves :| Init(c, s0) && After(c, s0, moves) == Some(s);
    assert (moves + [move])[..|moves + [move]| - 1] == moves;
    assert After(c, s0, moves + [move]) == Some(t);
  }

  lemma {:induction false} ReachOn(c: Cluster, s: State, moves: seq<Move>)
    requires Reachable(c, s) && After(c, s, moves).Some?
    ensures Reachable(c, After(c, s, moves).value)
  {
    hide Reachable, Next;
    if moves != [] {
      ReachOn(c, s, moves[..|moves| - 1]);
      OneMore(c, After(c, s, moves[..|moves| - 1]).value, moves[|moves| - 1], After(c, s, moves).value);
    }
  }

  /** Members and time take `s` to `t`, and no publisher moves. */
  ghost predicate MembersLead(c: Cluster, s: State, t: State) {
    exists moves :: After(c, s, moves) == Some(t) && OfMembers(moves)
  }

  predicate OfMembers(moves: seq<Move>) {
    forall move :: move in moves ==> !move.Publisher?
  }

  lemma LeadNowhere(c: Cluster, s: State)
    ensures MembersLead(c, s, s)
  {
    assert After(c, s, []) == Some(s) && OfMembers([]);
  }

  lemma LeadOn(c: Cluster, s0: State, s: State, p: Name, a: Act, t: State)
    requires MembersLead(c, s0, s) && MemberMove(c, s, p, a) == Some(t)
    ensures MembersLead(c, s0, t)
  {
    var moves :| After(c, s0, moves) == Some(s) && OfMembers(moves);
    var more := moves + [Move.Peer(p, a)];
    assert more[..|more| - 1] == moves;
    assert After(c, s0, more) == Some(t);
  }

  /** A publisher up to its first rename. */
  lemma RenameIn(c: Cluster, s: State, i: nat, text: Text) returns (t: State)
    requires Reachable(c, s) && i in s.pubs && s.pubs[i] == Out && s.store.lock == None
    ensures Reachable(c, t)
    ensures var next := s.store.gen + 1;
            t == s.(store := s.store.(conf := Some(text), lock := Some(s.now)),
                    pubs := s.pubs[i := Renamed(s.now, next, text)],
                    h := s.h.(tag := next, renames := s.h.renames + {(text, next)}))
  {
    hide Reachable;
    var s1 := PubMove(s, i, MakeLock).value;
    OneMore(c, s, Publisher(i, MakeLock), s1);
    var s2 := PubMove(s1, i, ReadCounter).value;
    OneMore(c, s1, Publisher(i, ReadCounter), s2);
    t := PubMove(s2, i, RenameConf(text)).value;
    OneMore(c, s2, Publisher(i, RenameConf(text)), t);
    assert t.pubs == s.pubs[i := Renamed(s.now, s.store.gen + 1, text)];
  }

  /** A whole publish, up to the release. */
  lemma Publish(c: Cluster, s: State, i: nat, text: Text) returns (t: State)
    requires Reachable(c, s) && i in s.pubs && s.pubs[i] == Out && s.store.lock == None
    ensures Reachable(c, t)
    ensures var next := s.store.gen + 1;
            && t.store == s.store.(conf := Some(text), gen := next) && t.now == s.now
            && t.members == s.members && t.pubs == s.pubs[i := Cleaning(next)]
            && t.h == s.h.(tag := next, renames := s.h.renames + {(text, next)}, texts := s.h.texts[next := text])
  {
    hide Reachable;
    var s1 := RenameIn(c, s, i, text);
    var s2 := PubMove(s1, i, RenameGen).value;
    OneMore(c, s1, Publisher(i, RenameGen), s2);
    t := PubMove(s2, i, ReleaseLock).value;
    OneMore(c, s2, Publisher(i, ReleaseLock), t);
    assert t.pubs == s.pubs[i := Cleaning(s.store.gen + 1)];
  }

  /** What no step of `p` touches. */
  ghost predicate Beside(s: State, t: State, p: Name) {
    && t.now == s.now && t.pubs == s.pubs && t.store.gen == s.store.gen && t.store.conf == s.store.conf
    && t.h.texts == s.h.texts
    && forall q :: q != p && Joined(s, q) ==> Joined(t, q) && t.members[q] == s.members[q]
  }

  /** One step of member `p`, and what it leaves alone. */
  lemma MemberSteps(c: Cluster, s0: State, s: State, p: Name, a: Act) returns (t: State)
    requires Reachable(c, s) && MembersLead(c, s0, s)
    requires Joined(s, p) && Allowed(c, s, p, s.members[p], a) && Step(s.members[p], a).Some?
    ensures Reachable(c, t) && MembersLead(c, s0, t)
    ensures Joined(t, p) && t.members[p] == Step(s.members[p], a).value && Beside(s, t, p)
    ensures t.store.acks == AcksAfter(s, p, s.members[p], a)
    ensures !a.Commit? ==> t.h.last[p] == s.h.last[p]
    ensures t.h.unsettled == UnsettledAfter(s, p, s.members[p], a)
    ensures EventsOf(s, p, s.members[p], a) <= t.h.events
  {
    t := MemberMove(c, s, p, a).value;
    OneMore(c, s, Move.Peer(p, a), t);
    LeadOn(c, s0, s, p, a, t);
  }

  /** Member `p` may start a tick on the stored text and gets it through its gate. */
  predicate CanRead(c: Cluster, s: State, p: Name, text: Text) {
    && Joined(s, p) && s.members[p].pc == Idle
    && s.members[p].committed < s.store.gen && s.members[p].attempted < s.store.gen
    && s.store.conf == Some(text) && c.valid(text, p)
  }

  predicate CanTake(c: Cluster, s: State, p: Name, text: Text) {
    CanRead(c, s, p, text) && s.members[p].local != Some(text)
  }

  /** The first half of a tick: the text is installed and handed to the applier. */
  lemma TakeText(c: Cluster, s0: State, s: State, p: Name, text: Text) returns (t: State)
    requires Reachable(c, s) && MembersLead(c, s0, s) && CanTake(c, s, p, text)
    ensures Reachable(c, t) && MembersLead(c, s0, t)
    ensures Joined(t, p) && Beside(s, t, p) && t.store.acks == s.store.acks && t.h.last[p] == s.h.last[p]
    ensures var m, g := s.members[p], s.store.gen;
            t.members[p] ==
            Member(Some(text), if m.local.Some? then m.local else m.prev, g, m.committed, Applied(g, text))
  {
    hide Reachable, MembersLead, EventsOf;
    var s1 := MemberSteps(c, s0, s, p, SeeGen(s.store.gen));
    var s2 := MemberSteps(c, s0, s1, p, RecordAttempt);
    var s3 := MemberSteps(c, s0, s2, p, ReadConf(text));
    var s4 := MemberSteps(c, s0, s3, p, SavePrev);
    var s5 := MemberSteps(c, s0, s4, p, Install);
    t := MemberSteps(c, s0, s5, p, Reapply(true));
  }

  /** A whole tick of a member that holds the text already. */
  lemma CommitHeld(c: Cluster, s0: State, s: State, p: Name, text: Text) returns (t: State)
    requires Reachable(c, s) && MembersLead(c, s0, s)
    requires CanRead(c, s, p, text) && s.members[p].local == Some(text)
    ensures Reachable(c, t) && MembersLead(c, s0, t) && Joined(t, p) && Beside(s, t, p)
    ensures t.members[p].local == Some(text) && t.members[p].committed == s.store.gen
  {
    hide Reachable, MembersLead, EventsOf, AcksAfter, UnsettledAfter;
    var s1 := MemberSteps(c, s0, s, p, SeeGen(s.store.gen));
    var s2 := MemberSteps(c, s0, s1, p, RecordAttempt);
    var s3 := MemberSteps(c, s0, s2, p, ReadConf(text));
    var s4 := MemberSteps(c, s0, s3, p, FindSame);
    var s5 := MemberSteps(c, s0, s4, p, AckSame(false));
    t := MemberSteps(c, s0, s5, p, Commit);
  }

  /** A status that passes, and the ack. */
  lemma PassAndAck(c: Cluster, s0: State, s: State, p: Name, exit: Exit) returns (t: State)
    requires Reachable(c, s) && MembersLead(c, s0, s)
    requires Joined(s, p) && s.members[p].pc.Applied? && StatusCode(exit) <= 1
    ensures Reachable(c, t) && MembersLead(c, s0, t) && Joined(t, p) && Beside(s, t, p)
    ensures var g, text := s.members[p].pc.g, s.members[p].pc.text;
            && t.members[p] == s.members[p].(pc := Check(g, text, exit, WITNESS_POLLS, true))
            && t.store.acks == s.store.acks[(g, p) := AckFile(StatusCode(exit), s.now)]
  {
    hide Reachable, MembersLead;
    var s1 := MemberSteps(c, s0, s, p, Status(exit));
    t := MemberSteps(c, s0, s1, p, WriteAck(true));
  }

  /** The second half in a cluster of one: status, ack, commit. */
  lemma CommitAlone(c: Cluster, s0: State, s: State, p: Name, exit: Exit) returns (t: State)
    requires Reachable(c, s) && MembersLead(c, s0, s)
    requires Joined(s, p) && |c.names| == 1 && s.members[p].pc.Applied? && StatusCode(exit) <= 1
    ensures Reachable(c, t) && MembersLead(c, s0, t) && Joined(t, p) && Beside(s, t, p)
    ensures var g, text := s.members[p].pc.g, s.members[p].pc.text;
            && t.members[p] == s.members[p].(committed := g, pc := Idle)
            && (g, p) in t.store.acks && t.store.acks[(g, p)] == AckFile(StatusCode(exit), s.now)
            && Event.Committed(p, g, text, Alone) in t.h.events
  {
    hide Reachable, MembersLead;
    var s1 := PassAndAck(c, s0, s, p, exit);
    var s2 := MemberSteps(c, s0, s1, p, FindAlone);
    t := MemberSteps(c, s0, s2, p, Commit);
  }

  /** The second half beside another member who takes the same text and acks it first. */
  lemma CommitWitnessed(c: Cluster, s0: State, s: State, p: Name, q: Name) returns (t: State)
    requires Reachable(c, s) && MembersLead(c, s0, s) && Joined(s, p) && Joined(s, q) && p != q
    requires s.members[p].pc.Applied? && s.members[q].pc.Applied? && s.members[p].pc.g == s.members[q].pc.g
    ensures Reachable(c, t) && MembersLead(c, s0, t) && Joined(t, p)
    ensures t.pubs == s.pubs && t.store.gen == s.store.gen && t.store.conf == s.store.conf && t.h.texts == s.h.texts
    ensures t.members[p] == s.members[p].(committed := s.members[p].pc.g, pc := Idle)
  {
    hide Reachable, MembersLead, EventsOf, UnsettledAfter;
    var s1 := PassAndAck(c, s0, s, q, Exited(0));
    var s2 := PassAndAck(c, s0, s1, p, Exited(0));
    var s3 := MemberSteps(c, s0, s2, p, FindPeer(q));
    t := MemberSteps(c, s0, s3, p, Commit);
  }

  /** The second half when the status is bad and there is no file to go back to. */
  lemma FailWithNoTarget(c: Cluster, s0: State, s: State, p: Name, exit: Exit) returns (t: State)
    requires Reachable(c, s) && MembersLead(c, s0, s)
    requires Joined(s, p) && s.members[p].pc.Applied? && StatusCode(exit) > 1
    ensures Reachable(c, t) && MembersLead(c, s0, t) && Joined(t, p) && Beside(s, t, p)
    ensures t.h.last[p] == s.h.last[p] && t.members[p] == s.members[p].(pc := Idle)
  {
    hide Reachable, MembersLead, EventsOf, AcksAfter;
    var s1 := MemberSteps(c, s0, s, p, Status(exit));
    var s2 := MemberSteps(c, s0, s1, p, Retract(false));
    t := MemberSteps(c, s0, s2, p, NoTarget);
  }

  const HOST: Name := "host"
  const ONE_HOST: Cluster := Cluster({HOST}, (t, p) => true)

  function StartWith(local: Option<Text>): State {
    State(0, Store(0, None, map[], None), map[0 := Out, 1 := Out],
          map[HOST := Member(local, None, 0, 0, Idle)],
          History({}, {}, 0, map[], map[HOST := []], map[HOST := local], {}))
  }

  lemma StartIsReachable(local: Option<Text>)
    ensures Reachable(ONE_HOST, StartWith(local))
  {
    assert Init(ONE_HOST, StartWith(local));
    assert After(ONE_HOST, StartWith(local), []) == Some(StartWith(local));
  }

  /**
   A publisher that dies between its renames leaves a text of no generation, and a member still on
   its way to the generation before commits that text for it: its local file is then not the text
   of the generation it is committed at, and no publisher is there to come.
   */
  lemma OrphanTextIsCommitted()
    ensures exists c, s, p ::
              && Reachable(c, s) && p in s.members && s.members[p].pc == Idle
              && (forall i :: i in s.pubs ==> !Inside(s.pubs[i]))
              && s.members[p].committed == s.store.gen && s.store.gen in s.h.texts
              && s.members[p].local != Some(s.h.texts[s.store.gen])
  {
    hide Reachable, MembersLead, PubMove, MemberMove, After;
    StartIsReachable(Some("old"));
    var s1 := Publish(ONE_HOST, StartWith(Some("old")), 0, "new");
    var s2 := RenameIn(ONE_HOST, s1, 1, "orphan");
    var s3 := Die(ONE_HOST, s2, 1);
    LeadNowhere(ONE_HOST, s3);
    assert CanTake(ONE_HOST, s3, HOST, "orphan");
    var s4 := TakeText(ONE_HOST, s3, s3, HOST, "orphan");
    var s5 := CommitAlone(ONE_HOST, s3, s4, HOST, Exited(0));
    assert s5.members[HOST].local == Some("orphan");
  }

  /** A publisher that dies where it is. */
  lemma Die(c: Cluster, s: State, i: nat) returns (t: State)
    requires Reachable(c, s) && i in s.pubs
    ensures Reachable(c, t) && t == s.(pubs := s.pubs[i := Out])
  {
    t := PubMove(s, i, Stop).value;
    OneMore(c, s, Publisher(i, Stop), t);
  }

  /** A status command killed by a signal reports -1, which is at most 1: the text is committed. */
  lemma KilledStatusCommits()
    ensures exists c, s, p, g: nat, text ::
              && Reachable(c, s) && Event.Committed(p, g, text, Alone) in s.h.events
              && (g, p) in s.store.acks && s.store.acks[(g, p)].code == -1
  {
    hide Reachable, MembersLead, PubMove, MemberMove, After;
    StartIsReachable(None);
    var s1 := Publish(ONE_HOST, StartWith(None), 0, "new");
    LeadNowhere(ONE_HOST, s1);
    assert CanTake(ONE_HOST, s1, HOST, "new");
    var s2 := TakeText(ONE_HOST, s1, s1, HOST, "new");
    var s3 := CommitAlone(ONE_HOST, s1, s2, HOST, Killed);
    assert (1, HOST) in s3.store.acks;
  }

  /** With no file to go back to, a failed attempt leaves its text as the local file. */
  lemma NoRevertTargetKeepsFailedText()
    ensures exists c, s, p ::
              && Reachable(c, s) && p in s.members && p in s.h.last && s.members[p].pc == Idle
              && s.members[p].committed == 0 && s.h.last[p] == None && s.members[p].local == s.store.conf == Some("new")
  {
    hide Reachable, MembersLead, PubMove, MemberMove, After;
    StartIsReachable(None);
    var s1 := Publish(ONE_HOST, StartWith(None), 0, "new");
    LeadNowhere(ONE_HOST, s1);
    assert CanTake(ONE_HOST, s1, HOST, "new");
    var s2 := TakeText(ONE_HOST, s1, s1, HOST, "new");
    var s3 := FailWithNoTarget(ONE_HOST, s1, s2, HOST, Exited(2));
  }

  /**
   A crash after the install, or a status command that cannot be started, leaves an uncommitted text
   that no witness saw as the local file between ticks.
   */
  lemma CrashKeepsUnwitnessedText()
    ensures exists c, s, p ::
              && Reachable(c, s) && Joined(s, p) && s.members[p].pc == Idle && |c.names| == 2
              && s.members[p].committed == 0 && s.members[p].local == s.store.conf == Some("new")
              && s.members[p].prev == s.h.last[p] == Some("old") && p in s.h.unsettled && s.store.acks == map[]
  {
    hide Reachable, MembersLead, PubMove, MemberMove, After;
    PairIsReachable();
    var s1 := Publish(TWO_HOSTS, PAIR, 0, "new");
    LeadNowhere(TWO_HOSTS, s1);
    assert CanTake(TWO_HOSTS, s1, HOST, "new");
    var s2 := TakeText(TWO_HOSTS, s1, s1, HOST, "new");
    var s3 := MemberSteps(TWO_HOSTS, s1, s2, HOST, Abort);
  }

  const OTHER: Name := "other"
  const TWO_HOSTS: Cluster := Cluster({HOST, OTHER}, (t, p) => true)
  const PAIR: State :=
    State(0, Store(0, None, map[], None), map[0 := Out],
          map[HOST := Member(Some("old"), None, 0, 0, Idle), OTHER := Member(Some("old"), None, 0, 0, Idle)],
          History({}, {}, 0, map[], map[HOST := [], OTHER := []], map[HOST := Some("old"), OTHER := Some("old")], {}))

  lemma PairIsReachable()
    ensures Reachable(TWO_HOSTS, PAIR) && |TWO_HOSTS.names| == 2
  {
    assert HOST != OTHER by { assert HOST[0] == 'h' && OTHER[0] == 'o'; }
    assert Init(TWO_HOSTS, PAIR);
    assert After(TWO_HOSTS, PAIR, []) == Some(PAIR);
  }
}
