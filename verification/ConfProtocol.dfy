/**
 The peer-witness configuration protocol: publishers under an expiring lock, N members running
 conf-sync over a shared store, a clock, and crashes at any step.
 */
module ConfProtocol {
  import opened Wrappers
  import opened ConfMember

  /** A lock older than this may be broken. */
  const LOCK_EXPIRY: nat := 120

  datatype AckFile = AckFile(code: int, at: nat)

  /** The shared filesystem. `lock` is the time the lock directory was made. */
  datatype Store = Store(gen: nat, conf: Option<Text>, acks: map<(nat, Name), AckFile>, lock: Option<nat>)

  /** Where one `conf publish` is: outside, or in its critical section since a time. */
  datatype Pub =
    | Out
    | Entered(since: nat)
    | Counted(since: nat, next: nat)
    | Renamed(since: nat, next: nat, text: Text)
    | Bumped(since: nat, next: nat)
    | Cleaning(next: nat)

  datatype PubAct =
    | MakeLock
    | BreakLock
    | ReadCounter
    | RenameConf(text: Text)
    | RenameGen
    | ReleaseLock
    | CleanAcks(g: nat)
    | Stop

  // ---- history -------------------------------------------------------------------------------

  datatype Event =
    | Read(p: Name, g: nat, text: Text, tag: nat)
    | Held(p: Name, g: nat, text: Text)
    | Handed(p: Name, g: nat, text: Text)
    | Passed(p: Name, g: nat, text: Text, exit: Exit)
    | Saw(p: Name, g: nat, peer: Name, at: nat, now: nat)
    | Acked(p: Name, g: nat)
    | Committed(p: Name, g: nat, text: Text, how: Witness)

  /**
   What happened so far. `tag` is the generation the current conf text was renamed in for,
   `texts` the text of each published generation, `handed` the generations each member passed
   forward to its applier, `last` each member's last committed text, and `unsettled` the members
   whose local file may hold an uncommitted text.
   */
  datatype History = History(
    events: set<Event>,
    renames: set<(Text, nat)>,
    tag: nat,
    texts: map<nat, Text>,
    handed: map<Name, seq<nat>>,
    last: map<Name, Option<Text>>,
    unsettled: set<Name>)

  datatype State = State(now: nat, store: Store, pubs: map<nat, Pub>, members: map<Name, Member>, h: History)

  /** The declared members and the gate each of them puts a published text through. */
  datatype Cluster = Cluster(names: set<Name>, valid: (Text, Name) -> bool)

  datatype Move = Publisher(i: nat, pa: PubAct) | Peer(p: Name, a: Act) | Tick

  // ---- member moves --------------------------------------------------------------------------

  /** The state knows member `p`, as it does every declared one. */
  predicate Joined(s: State, p: Name) {
    p in s.members && p in s.h.handed && p in s.h.last
  }

  /** Whether the store lets member `p` take `a`. */
  predicate Allowed(c: Cluster, s: State, p: Name, m: Member, a: Act) {
    match a
    case SeeGen(g) => g == s.store.gen
    case ReadConf(text) => s.store.conf == Some(text) && c.valid(text, p)
    case FindPeer(q) =>
      q != p && m.pc.Check? && (m.pc.g, q) in s.store.acks && Fresh(s.store.acks[(m.pc.g, q)], s.now)
    case FindAlone => |c.names| == 1
    case _ => true
  }

  /** No older than the witness window, and not from the future. */
  predicate Fresh(ack: AckFile, now: nat) {
    ack.at <= now <= ack.at + WITNESS_POLLS
  }

  function AcksAfter(s: State, p: Name, m: Member, a: Act): map<(nat, Name), AckFile> {
    match a
    case AckSame(written) =>
      if written && m.pc.Same? then s.store.acks[(m.pc.g, p) := AckFile(0, s.now)] else s.store.acks
    case WriteAck(written) =>
      if written && m.pc.Poll? then s.store.acks[(m.pc.g, p) := AckFile(StatusCode(m.pc.exit), s.now)] else s.store.acks
    case Retract(removed) =>
      if removed && m.pc.Reverting? then s.store.acks - {(m.pc.g, p)} else s.store.acks
    case _ => s.store.acks
  }

  function EventsOf(s: State, p: Name, m: Member, a: Act): set<Event> {
    match a
    case ReadConf(text) => if m.pc.Recorded? then {Read(p, m.pc.g, text, s.h.tag)} else {}
    case FindSame => if m.pc.Holding? then {Held(p, m.pc.g, m.pc.text)} else {}
    case Reapply(ok) => if m.pc.Installed? then {Handed(p, m.pc.g, m.pc.text)} else {}
    case Status(exit) => if m.pc.Applied? && StatusCode(exit) <= 1 then {Passed(p, m.pc.g, m.pc.text, exit)} else {}
    case WriteAck(written) => if written && m.pc.Poll? then {Acked(p, m.pc.g)} else {}
    case FindPeer(q) =>
      if m.pc.Check? && (m.pc.g, q) in s.store.acks
      then {Saw(p, m.pc.g, q, s.store.acks[(m.pc.g, q)].at, s.now)} else {}
    case Commit => if m.pc.Witnessed? then {Committed(p, m.pc.g, m.pc.text, m.pc.how)} else {}
    case _ => {}
  }

  /** The points of a tick at which the local file holds a text that is not committed. */
  predicate Uncommitted(pc: Pc) {
    pc.Installed? || pc.Applied? || pc.Poll? || pc.Check? || pc.Reverting? || pc.Retracted?
    || (pc.Witnessed? && pc.how != NoApply)
  }

  function UnsettledAfter(s: State, p: Name, m: Member, a: Act): set<Name> {
    match a
    case Commit => s.h.unsettled - {p}
    case SavePrev => if m.local.None? then s.h.unsettled + {p} else s.h.unsettled
    case NoTarget => s.h.unsettled + {p}
    case Abort => if Uncommitted(m.pc) then s.h.unsettled + {p} else s.h.unsettled
    case _ => s.h.unsettled
  }

  function HistoryAfter(s: State, p: Name, m: Member, a: Act): History
    requires p in s.h.handed && p in s.h.last
  {
    s.h.(
      events := s.h.events + EventsOf(s, p, m, a),
      handed := if a.Reapply? && m.pc.Installed? then s.h.handed[p := s.h.handed[p] + [m.pc.g]] else s.h.handed,
      last := if a.Commit? && m.pc.Witnessed? then s.h.last[p := Some(m.pc.text)] else s.h.last,
      unsettled := UnsettledAfter(s, p, m, a))
  }

  function MemberMove(c: Cluster, s: State, p: Name, a: Act): Option<State> {
    if !Joined(s, p) || !Allowed(c, s, p, s.members[p], a) then None
    else
      var m := s.members[p];
      match ConfMember.Step(m, a)
      case None => None
      case Some(n) =>
        Some(s.(store := s.store.(acks := AcksAfter(s, p, m, a)),
                members := s.members[p := n],
                h := HistoryAfter(s, p, m, a)))
  }

  // ---- publisher moves -----------------------------------------------------------------------

  /**
   Take the lock when there is none, break one that is older than the expiry, and inside it
   rename the text in and then the counter. `Stop` is a crash at any point; a release may also
   end a section that failed on the way.
   */
  function PubMove(s: State, i: nat, pa: PubAct): Option<State> {
    if i !in s.pubs then None
    else
      var p := s.pubs[i];
      match pa
      case MakeLock =>
        if p.Out? && s.store.lock.None?
        then Some(s.(store := s.store.(lock := Some(s.now)), pubs := s.pubs[i := Entered(s.now)]))
        else None
      case BreakLock =>
        if p.Out? && s.store.lock.Some? && s.now > s.store.lock.value + LOCK_EXPIRY
        then Some(s.(store := s.store.(lock := None)))
        else None
      case ReadCounter =>
        if p.Entered? then Some(s.(pubs := s.pubs[i := Counted(p.since, s.store.gen + 1)])) else None
      case RenameConf(text) =>
        if p.Counted?
        then Some(s.(store := s.store.(conf := Some(text)),
                     pubs := s.pubs[i := Renamed(p.since, p.next, text)],
                     h := s.h.(tag := p.next, renames := s.h.renames + {(text, p.next)})))
        else None
      case RenameGen =>
        if p.Renamed?
        then Some(s.(store := s.store.(gen := p.next),
                     pubs := s.pubs[i := Bumped(p.since, p.next)],
                     h := s.h.(texts := s.h.texts[p.next := p.text])))
        else None
      case ReleaseLock =>
        if Inside(p)
        then Some(s.(store := s.store.(lock := None),
                     pubs := s.pubs[i := if p.Bumped? then Cleaning(p.next) else Out]))
        else None
      case CleanAcks(g) =>
        if p.Cleaning? && g + 1 < p.next
        then Some(s.(store := s.store.(acks := WithoutGen(s.store.acks, g))))
        else None
      case Stop =>
        Some(s.(pubs := s.pubs[i := Out]))
  }

  predicate Inside(p: Pub) {
    p.Entered? || p.Counted? || p.Renamed? || p.Bumped?
  }

  function WithoutGen(acks: map<(nat, Name), AckFile>, g: nat): map<(nat, Name), AckFile> {
    map k | k in acks && k.0 != g :: acks[k]
  }

  /** Time passes, but never past the expiry of a publisher that is inside. */
  predicate MayPass(s: State) {
    forall i :: i in s.pubs && Inside(s.pubs[i]) ==> s.now + 1 <= s.pubs[i].since + LOCK_EXPIRY
  }

  function Next(c: Cluster, s: State, move: Move): Option<State> {
    match move
    case Publisher(i, pa) => PubMove(s, i, pa)
    case Peer(p, a) => MemberMove(c, s, p, a)
    case Tick => if MayPass(s) then Some(s.(now := s.now + 1)) else None
  }

  /** Nothing published, no ticks under way, and any local files. */
  ghost predicate Init(c: Cluster, s: State) {
    && s.store == Store(0, None, map[], None)
    && (forall i :: i in s.pubs ==> s.pubs[i] == Out)
    && s.members.Keys == c.names
    && (forall p :: p in s.members ==>
          s.members[p].attempted == 0 && s.members[p].committed == 0 && s.members[p].pc == Idle)
    && s.h.events == {} && s.h.renames == {} && s.h.tag == 0 && s.h.texts == map[] && s.h.unsettled == {}
    && s.h.handed.Keys == c.names && (forall p :: p in s.h.handed ==> s.h.handed[p] == [])
    && s.h.last.Keys == c.names && (forall p :: p in s.members ==> s.h.last[p] == s.members[p].local)
  }

  /** The state after the moves, if every one of them was possible. */
  function After(c: Cluster, s: State, moves: seq<Move>): Option<State> {
    if moves == [] then Some(s)
    else match After(c, s, moves[..|moves| - 1])
      case None => None
      case Some(t) => Next(c, t, moves[|moves| - 1])
  }

  ghost predicate Reachable(c: Cluster, s: State) {
    exists s0, moves :: Init(c, s0) && After(c, s0, moves) == Some(s)
  }
}
