/**
 What every reachable state of the configuration protocol keeps: mutual exclusion of publishers,
 the tie between texts and generations, each member's counters, and where acks and commits come
 from.
 */
module ConfInvariants {
  import opened Wrappers
  import opened ConfMember
  import opened ConfProtocol

  // ---- publishers ----------------------------------------------------------------------------

  ghost predicate LockInv(s: State) {
    && (forall i :: i in s.pubs && Inside(s.pubs[i]) ==>
          s.store.lock == Some(s.pubs[i].since) && s.now <= s.pubs[i].since + LOCK_EXPIRY)
    && (forall i, j :: i in s.pubs && j in s.pubs && Inside(s.pubs[i]) && Inside(s.pubs[j]) ==> i == j)
  }

  ghost predicate CounterInv(s: State) {
    forall i :: i in s.pubs ==>
      match s.pubs[i]
      case Counted(_, next) => next == s.store.gen + 1
      case Renamed(_, next, text) => next == s.store.gen + 1 && s.h.tag == next && s.store.conf == Some(text)
      case Bumped(_, next) => next == s.store.gen
      case _ => true
  }

  /** The published texts, and the one renamed in for the generation to come. */
  ghost predicate TextInv(s: State) {
    && s.store.gen <= s.h.tag <= s.store.gen + 1
    && (forall g :: g in s.h.texts <==> 1 <= g <= s.store.gen)
    && (s.h.tag == s.store.gen >= 1 ==> s.store.conf == Some(s.h.texts[s.store.gen]))
    && (s.h.tag == 0 <==> s.store.conf == None)
    && (s.store.conf.Some? ==> (s.store.conf.value, s.h.tag) in s.h.renames)
    && (forall g :: g in s.h.texts ==> (s.h.texts[g], g) in s.h.renames)
    && (forall r :: r in s.h.renames ==> 1 <= r.1 <= s.h.tag)
  }

  ghost predicate PubInv(s: State) {
    LockInv(s) && CounterInv(s) && TextInv(s)
  }

  lemma PubMoveKeeps(s: State, i: nat, pa: PubAct)
    requires PubInv(s) && PubMove(s, i, pa).Some?
    ensures PubInv(PubMove(s, i, pa).value)
  {
    PubMoveKeepsLock(s, i, pa);
    PubMoveKeepsCounter(s, i, pa);
    PubMoveKeepsText(s, i, pa);
  }

  lemma PubMoveKeepsLock(s: State, i: nat, pa: PubAct)
    requires LockInv(s) && PubMove(s, i, pa).Some?
    ensures LockInv(PubMove(s, i, pa).value)
  {
    match pa
    case MakeLock => {}
    case BreakLock => {}
    case ReadCounter => {}
    case RenameConf(_) => {}
    case RenameGen => {}
    case ReleaseLock => {}
    case CleanAcks(_) => {}
    case Stop => {}
  }

  lemma PubMoveKeepsCounter(s: State, i: nat, pa: PubAct)
    requires LockInv(s) && CounterInv(s) && PubMove(s, i, pa).Some?
    ensures CounterInv(PubMove(s, i, pa).value)
  {
    match pa
    case MakeLock => {}
    case BreakLock => {}
    case ReadCounter => {}
    case RenameConf(_) => {}
    case RenameGen => {}
    case ReleaseLock => {}
    case CleanAcks(_) => {}
    case Stop => {}
  }

  lemma PubMoveKeepsText(s: State, i: nat, pa: PubAct)
    requires CounterInv(s) && TextInv(s) && PubMove(s, i, pa).Some?
    ensures TextInv(PubMove(s, i, pa).value)
  {
    var t := PubMove(s, i, pa).value;
    if pa.RenameGen? {
      var p := s.pubs[i];
      assert (p.text, p.next) in s.h.renames;
      forall g
        ensures g in t.h.texts <==> 1 <= g <= t.store.gen
      {
      }
    }
  }

  // ---- where acks and commits come from ------------------------------------------------------

  ghost predicate WasRead(es: set<Event>, p: Name, g: nat, text: Text) {
    exists tag :: Event.Read(p, g, text, tag) in es
  }

  ghost predicate DidPass(es: set<Event>, p: Name, g: nat, text: Text) {
    exists exit :: Event.Passed(p, g, text, exit) in es
  }

  /** The pass whose status reported `code`. */
  ghost predicate PassedWith(es: set<Event>, p: Name, g: nat, text: Text, code: int) {
    exists exit :: Event.Passed(p, g, text, exit) in es && StatusCode(exit) == code
  }

  /** Member `q` held some text of generation `g` already, or had it applied and passed. */
  ghost predicate Vouched(es: set<Event>, q: Name, g: nat) {
    exists text :: Event.Held(q, g, text) in es || DidPass(es, q, g, text)
  }

  ghost predicate DidSee(es: set<Event>, p: Name, g: nat, q: Name) {
    exists at, now :: Event.Saw(p, g, q, at, now) in es
  }

  /** What a commit rests on. */
  ghost predicate Grounded(c: Cluster, es: set<Event>, p: Name, g: nat, text: Text, how: Witness) {
    match how
    case NoApply => Event.Held(p, g, text) in es
    case Alone => |c.names| == 1 && DidPass(es, p, g, text) && Event.Acked(p, g) in es
    case Peer(q) => q != p && DidPass(es, p, g, text) && Event.Acked(p, g) in es && DidSee(es, p, g, q)
  }

  ghost predicate EventOk(c: Cluster, s: State, e: Event) {
    match e
    case Read(p, g, text, tag) =>
      && 1 <= g <= tag <= s.h.tag && g <= s.store.gen && (text, tag) in s.h.renames && c.valid(text, p)
      && (tag == g ==> g in s.h.texts && s.h.texts[g] == text)
    case Held(p, g, text) => WasRead(s.h.events, p, g, text)
    case Handed(p, g, text) => WasRead(s.h.events, p, g, text)
    case Passed(p, g, text, exit) => StatusCode(exit) <= 1 && Event.Handed(p, g, text) in s.h.events
    case Saw(p, g, q, at, now) => q != p && at <= now <= at + WITNESS_POLLS && now <= s.now && Vouched(s.h.events, q, g)
    case Acked(p, g) => Vouched(s.h.events, p, g)
    case Committed(p, g, text, how) =>
      WasRead(s.h.events, p, g, text) && Grounded(c, s.h.events, p, g, text, how)
  }

  ghost predicate EventInv(c: Cluster, s: State) {
    forall e :: e in s.h.events ==> EventOk(c, s, e)
  }

  ghost predicate AckOk(s: State, g: nat, p: Name, ack: AckFile) {
    && ack.code <= 1 && ack.at <= s.now && p in s.members
    && exists text :: (Event.Held(p, g, text) in s.h.events && ack.code == 0)
                      || PassedWith(s.h.events, p, g, text, ack.code)
  }

  ghost predicate AckInv(s: State) {
    forall k :: k in s.store.acks ==> AckOk(s, k.0, k.1, s.store.acks[k])
  }

  // ---- members -------------------------------------------------------------------------------

  ghost predicate CountersOk(gen: nat, m: Member) {
    && m.committed <= m.attempted <= gen
    && match m.pc
       case Idle => true
       case SawGen(g) => m.attempted < g <= gen
       case _ => m.pc.g == m.attempted && m.committed < m.attempted
  }

  ghost predicate PcOk(c: Cluster, es: set<Event>, p: Name, m: Member) {
    match m.pc
    case Idle => true
    case SawGen(_) => true
    case Recorded(_) => true
    case Holding(g, text) => WasRead(es, p, g, text)
    case Same(g, text) => m.local == Some(text) && WasRead(es, p, g, text) && Event.Held(p, g, text) in es
    case Saved(g, text) => WasRead(es, p, g, text)
    case Installed(g, text) => m.local == Some(text) && WasRead(es, p, g, text)
    case Applied(g, text) =>
      m.local == Some(text) && WasRead(es, p, g, text) && Event.Handed(p, g, text) in es
    case Poll(g, text, exit, acked, _) =>
      && m.local == Some(text) && WasRead(es, p, g, text)
      && StatusCode(exit) <= 1 && Event.Passed(p, g, text, exit) in es
      && (acked ==> Event.Acked(p, g) in es)
    case Check(g, text, exit, left, acked) =>
      && m.local == Some(text) && WasRead(es, p, g, text)
      && StatusCode(exit) <= 1 && Event.Passed(p, g, text, exit) in es
      && (acked ==> Event.Acked(p, g) in es)
    case Witnessed(g, text, how) =>
      m.local == Some(text) && WasRead(es, p, g, text) && Grounded(c, es, p, g, text, how)
    case Reverting(_) => true
    case Retracted(_) => true
    case Restored(_) => true
  }

  ghost predicate Increasing(gs: seq<nat>) {
    forall i, j :: 0 <= i < j < |gs| ==> gs[i] < gs[j]
  }

  /** Before this tick hands its text to the applier. */
  predicate NotHandedYet(pc: Pc) {
    pc.Recorded? || pc.Holding? || pc.Same? || pc.Saved? || pc.Installed?
  }

  ghost predicate HandedOk(m: Member, gs: seq<nat>) {
    && Increasing(gs)
    && (forall i :: 0 <= i < |gs| ==> gs[i] <= m.attempted && (NotHandedYet(m.pc) ==> gs[i] < m.attempted))
  }

  /** The local file against the last committed text; only an attempt not committed leaves it unsettled. */
  ghost predicate LocalOk(m: Member, last: Option<Text>, unsettled: bool) {
    if unsettled then m.committed < m.attempted
    else if Uncommitted(m.pc) then last.Some? && m.prev == last
    else m.local == last && (m.pc.Saved? ==> last.Some? && m.prev == last)
  }

  ghost predicate LastOk(es: set<Event>, p: Name, m: Member, last: Option<Text>) {
    m.committed > 0 ==> last.Some? && WasRead(es, p, m.committed, last.value)
  }

  ghost predicate MemberOk(c: Cluster, s: State, p: Name)
    requires p in s.members && p in s.h.handed && p in s.h.last
  {
    var m := s.members[p];
    && CountersOk(s.store.gen, m)
    && PcOk(c, s.h.events, p, m)
    && HandedOk(m, s.h.handed[p])
    && LocalOk(m, s.h.last[p], p in s.h.unsettled)
    && LastOk(s.h.events, p, m, s.h.last[p])
  }

  ghost predicate MemberInv(c: Cluster, s: State) {
    && s.members.Keys == c.names && s.h.handed.Keys == c.names && s.h.last.Keys == c.names
    && forall p :: p in s.members ==> MemberOk(c, s, p)
  }

  ghost predicate Inv(c: Cluster, s: State) {
    PubInv(s) && EventInv(c, s) && AckInv(s) && MemberInv(c, s)
  }

  // ---- member moves keep it ------------------------------------------------------------------

  lemma MoveKeepsCounters(gen: nat, m: Member, a: Act)
    requires CountersOk(gen, m) && Step(m, a).Some? && (a.SeeGen? ==> a.g == gen)
    ensures CountersOk(gen, Step(m, a).value)
  {
  }

  lemma MoveKeepsPc(c: Cluster, s: State, p: Name, a: Act)
    requires p in s.members && Allowed(c, s, p, s.members[p], a) && Step(s.members[p], a).Some?
    requires PcOk(c, s.h.events, p, s.members[p])
    ensures PcOk(c, s.h.events + EventsOf(s, p, s.members[p], a), p, Step(s.members[p], a).value)
  {
    var m := s.members[p];
    var es := s.h.events + EventsOf(s, p, m, a);
    match a {
      case ReadConf(text) => assert Event.Read(p, m.pc.g, text, s.h.tag) in es;
      case FindPeer(q) =>
        assert Event.Saw(p, m.pc.g, q, s.store.acks[(m.pc.g, q)].at, s.now) in es;
        assert Event.Passed(p, m.pc.g, m.pc.text, m.pc.exit) in es;
      case FindAlone => assert Event.Passed(p, m.pc.g, m.pc.text, m.pc.exit) in es;
      case _ =>
    }
  }

  lemma MoveKeepsHanded(m: Member, a: Act, gs: seq<nat>, gen: nat)
    requires HandedOk(m, gs) && CountersOk(gen, m) && Step(m, a).Some?
    ensures HandedOk(Step(m, a).value, if a.Reapply? && m.pc.Installed? then gs + [m.pc.g] else gs)
  {
  }

  /** Once the text is in place the local file is the tick's text. */
  predicate InPlace(m: Member) {
    m.pc.Same? || m.pc.Installed? || m.pc.Applied? || m.pc.Poll? || m.pc.Check? || m.pc.Witnessed?
    ==> m.local == Some(m.pc.text)
  }

  lemma PcIsInPlace(c: Cluster, es: set<Event>, p: Name, m: Member)
    requires PcOk(c, es, p, m)
    ensures InPlace(m)
  {
    hide WasRead, Grounded;
  }

  lemma MoveKeepsLocal(c: Cluster, s: State, p: Name, a: Act)
    requires p in s.members && p in s.h.handed && p in s.h.last
    requires Step(s.members[p], a).Some? && InPlace(s.members[p])
    requires CountersOk(s.store.gen, s.members[p])
    requires LocalOk(s.members[p], s.h.last[p], p in s.h.unsettled)
    ensures var h := HistoryAfter(s, p, s.members[p], a);
            LocalOk(Step(s.members[p], a).value, h.last[p], p in h.unsettled)
  {
    hide AcksAfter, EventsOf;
  }

  lemma MoveKeepsLast(c: Cluster, s: State, p: Name, a: Act)
    requires p in s.members && p in s.h.handed && p in s.h.last
    requires Step(s.members[p], a).Some? && PcOk(c, s.h.events, p, s.members[p])
    requires LastOk(s.h.events, p, s.members[p], s.h.last[p])
    ensures var h := HistoryAfter(s, p, s.members[p], a);
            LastOk(h.events, p, Step(s.members[p], a).value, h.last[p])
  {
    hide WasRead, Grounded, AcksAfter, UnsettledAfter;
    var es := s.h.events + EventsOf(s, p, s.members[p], a);
    if s.members[p].committed > 0 {
      ReadStays(s.h.events, es, p, s.members[p].committed, s.h.last[p].value);
    }
    if a.Commit? {
      ReadStays(s.h.events, es, p, s.members[p].pc.g, s.members[p].pc.text);
    }
  }

  lemma ReadStays(es: set<Event>, es': set<Event>, p: Name, g: nat, text: Text)
    requires es <= es' && WasRead(es, p, g, text)
    ensures WasRead(es', p, g, text)
  {
    var tag :| Event.Read(p, g, text, tag) in es;
    assert Event.Read(p, g, text, tag) in es';
  }

  /** More events leave what the older ones say. */
  lemma EventStays(c: Cluster, s: State, t: State, e: Event)
    requires EventOk(c, s, e) && s.h.events <= t.h.events
    requires s.now <= t.now && s.h.tag <= t.h.tag && s.h.renames <= t.h.renames && s.store.gen <= t.store.gen
    requires forall g :: g in s.h.texts ==> g in t.h.texts && t.h.texts[g] == s.h.texts[g]
    ensures EventOk(c, t, e)
  {
    match e
    case Read(p, g, text, tag) => {}
    case Held(p, g, text) => ReadStays(s.h.events, t.h.events, p, g, text);
    case Handed(p, g, text) => ReadStays(s.h.events, t.h.events, p, g, text);
    case Passed(p, g, text, exit) => {}
    case Saw(p, g, q, at, now) => VouchStays(s.h.events, t.h.events, q, g);
    case Acked(p, g) => VouchStays(s.h.events, t.h.events, p, g);
    case Committed(p, g, text, how) => {
      ReadStays(s.h.events, t.h.events, p, g, text);
      GroundStays(c, s.h.events, t.h.events, p, g, text, how);
    }
  }

  lemma VouchStays(es: set<Event>, es': set<Event>, q: Name, g: nat)
    requires es <= es' && Vouched(es, q, g)
    ensures Vouched(es', q, g)
  {
    var text :| Event.Held(q, g, text) in es || DidPass(es, q, g, text);
    assert Event.Held(q, g, text) in es' || DidPass(es', q, g, text);
  }

  lemma GroundStays(c: Cluster, es: set<Event>, es': set<Event>, p: Name, g: nat, text: Text, how: Witness)
    requires es <= es' && Grounded(c, es, p, g, text, how)
    ensures Grounded(c, es', p, g, text, how)
  {
    if !how.NoApply? {
      var exit :| Event.Passed(p, g, text, exit) in es;
      assert Event.Passed(p, g, text, exit) in es';
    }
    if how.Peer? {
      var at, now :| Event.Saw(p, g, how.name, at, now) in es;
      assert Event.Saw(p, g, how.name, at, now) in es';
    }
  }

  lemma PcStays(c: Cluster, es: set<Event>, es': set<Event>, p: Name, m: Member)
    requires es <= es' && PcOk(c, es, p, m)
    ensures PcOk(c, es', p, m)
  {
    match m.pc {
      case Holding(g, text) => ReadStays(es, es', p, g, text);
      case Same(g, text) => ReadStays(es, es', p, g, text);
      case Saved(g, text) => ReadStays(es, es', p, g, text);
      case Installed(g, text) => ReadStays(es, es', p, g, text);
      case Applied(g, text) => ReadStays(es, es', p, g, text);
      case Poll(g, text, _, _, _) => ReadStays(es, es', p, g, text);
      case Check(g, text, _, _, _) => ReadStays(es, es', p, g, text);
      case Witnessed(g, text, how) =>
        ReadStays(es, es', p, g, text);
        GroundStays(c, es, es', p, g, text, how);
      case _ =>
    }
  }
}
