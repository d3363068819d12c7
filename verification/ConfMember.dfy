/**
 One member's conf-sync tick, split into the steps other processes can see between: what each
 step changes in the member, and the order the steps come in. `None` is a step out of order.
 */
module ConfMember {
  import opened Wrappers

  type Text = string
  type Name = string

  /** Ack polls before a lone applier reverts; an ack is proof while it is no older than this. */
  const WITNESS_POLLS: nat := 60

  /** What a commit rests on: nothing applied, no peers declared, or a peer's ack. */
  datatype Witness = NoApply | Alone | Peer(name: Name)

  /** How the status command ended; one killed by a signal has no exit code and reports -1. */
  datatype Exit = Exited(code: nat) | Killed

  function StatusCode(e: Exit): int {
    match e
    case Exited(code) => code
    case Killed => -1
  }

  datatype Pc =
    | Idle
    | SawGen(g: nat)
    | Recorded(g: nat)
    | Holding(g: nat, text: Text)
    | Same(g: nat, text: Text)
    | Saved(g: nat, text: Text)
    | Installed(g: nat, text: Text)
    | Applied(g: nat, text: Text)
    | Poll(g: nat, text: Text, exit: Exit, acked: bool, left: nat)
    | Check(g: nat, text: Text, exit: Exit, left: nat, acked: bool)
    | Witnessed(g: nat, text: Text, how: Witness)
    | Reverting(g: nat)
    | Retracted(g: nat)
    | Restored(g: nat)

  /** The two cached files, the two counters on disk, and where the tick is. */
  datatype Member = Member(local: Option<Text>, prev: Option<Text>, attempted: nat, committed: nat, pc: Pc)

  datatype Act =
    | SeeGen(g: nat)
    | RecordAttempt
    | Refuse
    | ReadConf(text: Text)
    | FindSame
    | AckSame(written: bool)
    | SavePrev
    | Install
    | Reapply(ok: bool)
    | Status(exit: Exit)
    | WriteAck(written: bool)
    | KeepAck
    | FindPeer(name: Name)
    | FindAlone
    | FindNone
    | GiveUp
    | Commit
    | Retract(removed: bool)
    | Restore
    | NoTarget
    | ReapplyBack(ok: bool)
    | Abort

  /** The step of the member alone; what it reads from the store is in the action. */
  function Step(m: Member, a: Act): Option<Member> {
    match a
    case SeeGen(g) =>
      if m.pc.Idle? && g > m.committed && g != m.attempted then Some(m.(pc := SawGen(g))) else None
    case RecordAttempt =>
      if m.pc.SawGen? then Some(m.(attempted := m.pc.g, pc := Recorded(m.pc.g))) else None
    case Refuse =>
      if m.pc.Recorded? then Some(m.(pc := Idle)) else None
    case ReadConf(text) =>
      if m.pc.Recorded? then Some(m.(pc := Holding(m.pc.g, text))) else None
    case FindSame =>
      if m.pc.Holding? && m.local == Some(m.pc.text) then Some(m.(pc := Same(m.pc.g, m.pc.text))) else None
    case AckSame(written) =>
      if m.pc.Same? then Some(m.(pc := Witnessed(m.pc.g, m.pc.text, NoApply))) else None
    case SavePrev =>
      if m.pc.Holding? && m.local != Some(m.pc.text)
      then Some(m.(prev := if m.local.Some? then m.local else m.prev, pc := Saved(m.pc.g, m.pc.text)))
      else None
    case Install =>
      if m.pc.Saved? then Some(m.(local := Some(m.pc.text), pc := Installed(m.pc.g, m.pc.text))) else None
    case Reapply(ok) =>
      if m.pc.Installed?
      then Some(m.(pc := if ok then Applied(m.pc.g, m.pc.text) else Reverting(m.pc.g)))
      else None
    case Status(exit) =>
      if m.pc.Applied?
      then Some(m.(pc := if StatusCode(exit) > 1 then Reverting(m.pc.g)
                         else Poll(m.pc.g, m.pc.text, exit, false, WITNESS_POLLS)))
      else None
    case WriteAck(written) =>
      if m.pc.Poll? && m.pc.left > 0 && !m.pc.acked
      then Some(m.(pc := Check(m.pc.g, m.pc.text, m.pc.exit, m.pc.left, written)))
      else None
    case KeepAck =>
      if m.pc.Poll? && m.pc.left > 0 && m.pc.acked
      then Some(m.(pc := Check(m.pc.g, m.pc.text, m.pc.exit, m.pc.left, true)))
      else None
    case FindPeer(name) =>
      if m.pc.Check? && m.pc.acked then Some(m.(pc := Witnessed(m.pc.g, m.pc.text, Peer(name)))) else None
    case FindAlone =>
      if m.pc.Check? && m.pc.acked then Some(m.(pc := Witnessed(m.pc.g, m.pc.text, Alone))) else None
    case FindNone =>
      if m.pc.Check? && m.pc.left > 0
      then Some(m.(pc := Poll(m.pc.g, m.pc.text, m.pc.exit, m.pc.acked, m.pc.left - 1)))
      else None
    case GiveUp =>
      if m.pc.Poll? && m.pc.left == 0 then Some(m.(pc := Reverting(m.pc.g))) else None
    case Commit =>
      if m.pc.Witnessed? then Some(m.(committed := m.pc.g, pc := Idle)) else None
    case Retract(removed) =>
      if m.pc.Reverting? then Some(m.(pc := Retracted(m.pc.g))) else None
    case Restore =>
      if m.pc.Retracted? && m.prev.Some? then Some(m.(local := m.prev, pc := Restored(m.pc.g))) else None
    case NoTarget =>
      if m.pc.Retracted? then Some(m.(pc := Idle)) else None
    case ReapplyBack(ok) =>
      if m.pc.Restored? then Some(m.(pc := Idle)) else None
    case Abort =>
      if m.pc.Idle? then None else Some(m.(pc := Idle))
  }

  /** The steps of `acts`, in order. */
  function Run(m: Member, acts: seq<Act>): Option<Member> {
    if acts == [] then Some(m)
    else match Run(m, acts[..|acts| - 1])
      case None => None
      case Some(n) => Step(n, acts[|acts| - 1])
  }

  lemma RunSnoc(m: Member, acts: seq<Act>, a: Act)
    ensures Run(m, acts + [a]) == match Run(m, acts) case None => None case Some(n) => Step(n, a)
  {
    assert (acts + [a])[..|acts + [a]| - 1] == acts;
  }
}
