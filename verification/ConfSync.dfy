/**
 The conf-sync daemon of one member: `ConfSync` in its own form, with the answers it gets from the
 store, the applier and the status command as parameters. Every tick is proved to be a run of the
 member steps of ConfMember, and to leave exactly the files its outcome says.
 */
module ConfSync {
  import opened Wrappers
  import ConfMember
  import ConfProtocol

  type Text = ConfMember.Text
  type Name = ConfMember.Name
  type Act = ConfMember.Act
  type Micro = ConfMember.Member
  type Exit = ConfMember.Exit

  const WITNESS_POLLS := ConfMember.WITNESS_POLLS

  datatype Outcome =
    | NotQuorate
    | Idle
    | AlreadyAttempted(g: nat)
    | GenRegression(g: nat, committed: nat)
    | Refused(g: nat)
    | Committed(g: nat, applied: bool)
    | Reverted(g: nat)

  /** One entry of the ack directory: its name and, when it can be read, its mtime. */
  datatype Entry = Entry(name: Name, mtime: Option<nat>)

  /** What one tick is told from outside; `None` is a read that fails, `false` a write that fails. */
  datatype Answers = Answers(
    quorate: Option<bool>,
    gen: Option<nat>,
    canRecord: bool,
    conf: Option<Text>,
    gate: bool,
    canSavePrev: bool,
    canInstall: bool,
    reapply: bool,
    status: Option<Exit>,
    nodes: Option<nat>,
    canAck: nat -> bool,
    entries: nat -> Option<seq<Entry>>,
    clock: nat -> nat,
    canRecordCommit: bool,
    canRetract: bool,
    canRestore: bool,
    reapplyBack: bool)

  /** The member's two files, its two counters, its acks on the store, and how often it asked for a re-apply. */
  datatype Files = Files(
    local: Option<Text>,
    prev: Option<Text>,
    attempted: nat,
    committed: nat,
    acks: map<nat, int>,
    reapplies: nat)

  // ---- the witness ---------------------------------------------------------------------------

  /** Whether an ack with this mtime is proof at `now`: readable, not from the future, not too old. */
  predicate IsFresh(mtime: Option<nat>, now: nat) {
    mtime.Some? && mtime.value <= now && now - mtime.value <= WITNESS_POLLS
  }

  predicate Proof(e: Entry, now: nat, me: Name) {
    IsFresh(e.mtime, now) && !("." <= e.name) && e.name != me
  }

  /** The first fresh ack of another member. */
  function PeerAck(entries: seq<Entry>, now: nat, me: Name): (r: Option<Name>)
    ensures r.Some? <==> exists e :: e in entries && Proof(e, now, me)
    ensures r.Some? ==> exists e :: e in entries && Proof(e, now, me) && e.name == r.value
    decreases entries
  {
    if entries == [] then None
    else if Proof(entries[0], now, me) then
      assert entries[0] in entries;
      Some(entries[0].name)
    else
      assert forall e :: e in entries[1..] ==> e in entries;
      assert forall e :: e in entries ==> e == entries[0] || e in entries[1..];
      PeerAck(entries[1..], now, me)
  }

  /** The witness found at poll `i`, if any. */
  function PeerAt(e: Answers, me: Name, i: nat): Option<Name> {
    match e.entries(i)
    case None => None
    case Some(entries) => PeerAck(entries, e.clock(i), me)
  }

  /** Unreadable or empty member lists count as having peers. */
  function MemberCount(nodes: Option<nat>): nat {
    if nodes.Some? && nodes.value != 0 then nodes.value else 2
  }

  // ---- what a tick did -----------------------------------------------------------------------

  /** What a step of the trace says is what the tick was told. */
  ghost predicate Told(e: Answers, me: Name, a: Act) {
    match a
    case SeeGen(g) => e.gen == Some(g)
    case ReadConf(text) => e.conf == Some(text) && e.gate
    case Reapply(ok) => ok == e.reapply
    case Status(exit) => e.status == Some(exit)
    case FindAlone => MemberCount(e.nodes) == 1
    case FindPeer(q) => exists i: nat :: i < WITNESS_POLLS && PeerAt(e, me, i) == Some(q)
    case _ => true
  }

  ghost predicate AllTold(e: Answers, me: Name, acts: seq<Act>) {
    forall a :: a in acts ==> Told(e, me, a)
  }

  /** Some poll before `n` could write the ack. */
  ghost predicate AckedBy(e: Answers, n: nat) {
    exists i: nat :: i < n && e.canAck(i)
  }

  /** At poll `j` the own ack was written and a witness was there, or nobody else is declared. */
  ghost predicate WitnessAt(e: Answers, me: Name, j: nat) {
    AckedBy(e, j + 1) && (MemberCount(e.nodes) == 1 || PeerAt(e, me, j).Some?)
  }

  ghost predicate WitnessedBy(e: Answers, me: Name, n: nat) {
    exists j: nat :: j < n && WitnessAt(e, me, j)
  }

  /** The file after a new text is put over `f`. */
  function Installed(f: Files, g: nat, text: Text): Files {
    f.(local := Some(text), prev := if f.local.Some? then f.local else f.prev, attempted := g)
  }

  ghost predicate Passes(e: Answers) {
    e.reapply && e.status.Some? && ConfMember.StatusCode(e.status.value) <= 1
  }

  /** The outcome and the files a tick leaves, from what it was told and the files it found. */
  ghost predicate OutcomeOk(e: Answers, me: Name, f: Files, f': Files, o: Outcome) {
    && e.quorate.Some?
    && match o
       case NotQuorate => e.quorate == Some(false) && f' == f
       case Idle => e.gen == Some(f.committed) && f' == f
       case AlreadyAttempted(g) => e.gen == Some(g) && g > f.committed && g == f.attempted && f' == f
       case GenRegression(g, c) => e.gen == Some(g) && g < f.committed && c == f.committed && f' == f
       case Refused(g) => Handles(e, f, g) && (e.conf.None? || !e.gate) && f' == f.(attempted := g)
       case Committed(g, applied) =>
         && Handles(e, f, g) && e.conf.Some? && e.gate && (applied <==> f.local != e.conf)
         && if applied then AppliedOk(e, me, f, f', o, g)
            else f' == f.(attempted := g, committed := g, acks := if e.canAck(0) then f.acks[g := 0] else f.acks)
       case Reverted(g) =>
         Handles(e, f, g) && e.conf.Some? && e.gate && f.local != e.conf && AppliedOk(e, me, f, f', o, g)
  }

  /** The files after a text was put over `f` and then kept or put back. */
  ghost predicate AppliedOk(e: Answers, me: Name, f: Files, f': Files, o: Outcome, g: nat)
    requires e.conf.Some?
  {
    var placed := Installed(f, g, e.conf.value);
    if Passes(e) && WitnessedBy(e, me, WITNESS_POLLS) then
      && o == Committed(g, true)
      && f' == placed.(
                 committed := g,
                 acks := f.acks[g := ConfMember.StatusCode(e.status.value)],
                 reapplies := f.reapplies + 1)
    else
      && o == Reverted(g) && f'.attempted == g && f'.committed == f.committed && f'.prev == placed.prev
      && f'.local == (if placed.prev.Some? then placed.prev else e.conf)
      && f'.reapplies == f.reapplies + (if placed.prev.Some? then 2 else 1)
      && (if e.canRetract then f'.acks == f.acks - {g} else f'.acks - {g} == f.acks - {g})
  }

  /** The generation is new to the member, and the attempt is on record. */
  predicate Handles(e: Answers, f: Files, g: nat) {
    e.gen == Some(g) && g > f.committed && g != f.attempted && e.canRecord
  }

  /** Whether putting the published text over `f` ends in an error. */
  ghost predicate ApplyErrs(e: Answers, me: Name, f: Files, g: nat)
    requires e.conf.Some?
  {
    || (f.local.Some? && !e.canSavePrev)
    || !e.canInstall
    || (e.reapply && e.status.None?)
    || if Passes(e) && WitnessedBy(e, me, WITNESS_POLLS) then !e.canRecordCommit
       else Installed(f, g, e.conf.value).prev.Some? && !e.canRestore
  }

  /** The files such an error leaves: everything done up to it stays. */
  ghost predicate ApplyErrorOk(e: Answers, me: Name, f: Files, f': Files, g: nat)
    requires e.conf.Some?
  {
    var placed := Installed(f, g, e.conf.value);
    if f.local.Some? && !e.canSavePrev then f' == f.(attempted := g)
    else if !e.canInstall then f' == f.(attempted := g, prev := placed.prev)
    else if e.reapply && e.status.None? then f' == placed.(reapplies := f.reapplies + 1)
    else if Passes(e) && WitnessedBy(e, me, WITNESS_POLLS) then
      f' == placed.(acks := f.acks[g := ConfMember.StatusCode(e.status.value)], reapplies := f.reapplies + 1)
    else
      && f' == placed.(acks := f'.acks, reapplies := f.reapplies + 1)
      && (if e.canRetract then f'.acks == f.acks - {g} else f'.acks - {g} == f.acks - {g})
  }

  lemma NotPlacedErrs(e: Answers, me: Name, f: Files, f': Files, g: nat)
    requires e.conf.Some? && f.attempted == g && ((f.local.Some? && !e.canSavePrev) || !e.canInstall)
    requires f' == f.(prev := if f.local.Some? && e.canSavePrev then f.local else f.prev)
    ensures ApplyErrs(e, me, f, g) && ApplyErrorOk(e, me, f, f', g)
  {
  }

  /** The attempt on record before it is the attempt it records. */
  lemma AttemptIsAside(e: Answers, me: Name, f: Files, f': Files, o: Outcome, g: nat)
    requires e.conf.Some?
    ensures ApplyErrs(e, me, f.(attempted := g), g) <==> ApplyErrs(e, me, f, g)
    ensures ApplyErrorOk(e, me, f.(attempted := g), f', g) <==> ApplyErrorOk(e, me, f, f', g)
    ensures AppliedOk(e, me, f.(attempted := g), f', o, g) <==> AppliedOk(e, me, f, f', o, g)
    ensures AppliedOk(e, me, f, f', o, g) ==> o == Committed(g, true) || o == Reverted(g)
  {
    hide WitnessedBy;
  }

  /** The text got into place: no save, install or status to fail any more. */
  ghost predicate GotStatus(e: Answers, f: Files) {
    e.conf.Some? && !(f.local.Some? && !e.canSavePrev) && e.canInstall && !(e.reapply && e.status.None?)
  }

  lemma NoStatusErrs(e: Answers, me: Name, f: Files, f': Files, g: nat)
    requires e.conf.Some? && !(f.local.Some? && !e.canSavePrev) && e.canInstall && e.reapply && e.status.None?
    requires f' == Installed(f, g, e.conf.value).(reapplies := f.reapplies + 1)
    ensures ApplyErrs(e, me, f, g) && ApplyErrorOk(e, me, f, f', g)
  {
  }

  lemma KeepEnds(e: Answers, me: Name, f: Files, f': Files, g: nat)
    requires GotStatus(e, f) && Passes(e) && WitnessedBy(e, me, WITNESS_POLLS)
    requires f' == Installed(f, g, e.conf.value).(
                     committed := if e.canRecordCommit then g else f.committed,
                     acks := f.acks[g := ConfMember.StatusCode(e.status.value)], reapplies := f.reapplies + 1)
    ensures if e.canRecordCommit then !ApplyErrs(e, me, f, g) && AppliedOk(e, me, f, f', Committed(g, true), g)
            else ApplyErrs(e, me, f, g) && ApplyErrorOk(e, me, f, f', g)
  {
    hide WitnessedBy;
  }

  lemma BackEnds(e: Answers, me: Name, f: Files, f': Files, g: nat)
    requires GotStatus(e, f) && !(Passes(e) && WitnessedBy(e, me, WITNESS_POLLS))
    requires if e.canRetract then f'.acks == f.acks - {g} else f'.acks - {g} == f.acks - {g}
    requires var placed := Installed(f, g, e.conf.value);
             var restored := placed.prev.Some? && e.canRestore;
             f' == placed.(local := if restored then placed.prev else placed.local, acks := f'.acks,
                           reapplies := f.reapplies + if restored then 2 else 1)
    ensures if Installed(f, g, e.conf.value).prev.Some? && !e.canRestore
            then ApplyErrs(e, me, f, g) && ApplyErrorOk(e, me, f, f', g)
            else !ApplyErrs(e, me, f, g) && AppliedOk(e, me, f, f', Reverted(g), g)
  {
    hide WitnessedBy;
  }

  /** The generation is new to the member. */
  predicate NewTo(e: Answers, f: Files) {
    e.gen.Some? && e.gen.value > f.committed && e.gen.value != f.attempted
  }

  /** A tick ends in an error exactly then: a read or a write it cannot do without fails. */
  ghost predicate TickErrs(e: Answers, me: Name, f: Files) {
    || e.quorate.None?
    || (e.quorate == Some(true)
        && (e.gen.None?
            || (NewTo(e, f)
                && (!e.canRecord
                    || (e.conf.Some? && e.gate
                        && if f.local == e.conf then !e.canRecordCommit else ApplyErrs(e, me, f, e.gen.value))))))
  }

  /** The files an error leaves; `committed` is never among what it moved. */
  ghost predicate ErrorOk(e: Answers, me: Name, f: Files, f': Files) {
    if e.quorate.None? || e.gen.None? || !NewTo(e, f) || !e.canRecord then f' == f
    else
      var g := e.gen.value;
      if e.conf.None? || f.local == e.conf then
        f' == f.(attempted := g, acks := if e.canAck(0) then f.acks[g := 0] else f.acks)
      else ApplyErrorOk(e, me, f, f', g)
  }

  lemma NextPoll(e: Answers, me: Name, n: nat)
    ensures AckedBy(e, n + 1) <==> AckedBy(e, n) || e.canAck(n)
    ensures WitnessedBy(e, me, n + 1) <==> WitnessedBy(e, me, n) || WitnessAt(e, me, n)
  {
  }

  lemma NoPollYet(e: Answers, me: Name)
    ensures !AckedBy(e, 0) && !WitnessedBy(e, me, 0)
  {
  }

  lemma WitnessedLater(e: Answers, me: Name, n: nat)
    requires n <= WITNESS_POLLS
    ensures WitnessedBy(e, me, n) ==> WitnessedBy(e, me, WITNESS_POLLS)
    ensures AckedBy(e, n) ==> AckedBy(e, WITNESS_POLLS)
  {
  }

  /** What checking an installed text came to: commit it, put the old one back, or an error. */
  datatype Verdict = Keep | Back | Fail

  function AfterCheck(v: Verdict, g: nat, text: Text, how: ConfMember.Witness): ConfMember.Pc {
    match v
    case Keep => ConfMember.Witnessed(g, text, how)
    case Back => ConfMember.Reverting(g)
    case Fail => ConfMember.Idle
  }

  lemma {:induction false} RunConcat(m: Micro, a: seq<Act>, b: seq<Act>)
    requires ConfMember.Run(m, a).Some?
    ensures ConfMember.Run(m, a + b) == ConfMember.Run(ConfMember.Run(m, a).value, b)
    decreases |b|
  {
    if b == [] {
      assert a + b == a;
    } else {
      RunConcat(m, a, b[..|b| - 1]);
      assert (a + b)[..|a + b| - 1] == a + b[..|b| - 1];
    }
  }

  /** `acts` takes `m` to `n`, and says only what the tick was told. */
  ghost predicate Leads(e: Answers, me: Name, m: Micro, acts: seq<Act>, n: Micro) {
    ConfMember.Run(m, acts) == Some(n) && AllTold(e, me, acts)
  }

  lemma LeadsNowhere(e: Answers, me: Name, m: Micro)
    ensures Leads(e, me, m, [], m)
  {
  }

  lemma LeadsOn(e: Answers, me: Name, m: Micro, acts: seq<Act>, n: Micro, a: Act, n': Micro)
    requires Leads(e, me, m, acts, n) && ConfMember.Step(n, a) == Some(n') && Told(e, me, a)
    ensures Leads(e, me, m, acts + [a], n')
  {
    ConfMember.RunSnoc(m, acts, a);
  }

  lemma LeadsThrough(e: Answers, me: Name, m: Micro, a: seq<Act>, n: Micro, b: seq<Act>, n': Micro)
    requires Leads(e, me, m, a, n) && Leads(e, me, n, b, n')
    ensures Leads(e, me, m, a + b, n')
  {
    RunConcat(m, a, b);
  }

  class ConfSync {
    const member: Name
    var local: Option<Text>
    var prev: Option<Text>
    var attemptedFile: Option<nat>
    var committedFile: Option<nat>
    var attempted: nat
    var committed: nat
    var acks: map<nat, int>
    var reapplies: nat
    var regressionLogged: Option<nat>
    /** The outcomes reported so far. */
    ghost var reported: seq<Outcome>

    ghost function Logging(): (Option<nat>, seq<Outcome>)
      reads this
    {
      (regressionLogged, reported)
    }

    /** What is remembered is the last regression reported. */
    ghost predicate Reporting()
      reads this
    {
      regressionLogged == LastRegression(reported)
    }

    /** The counters in memory are the ones on disk; an absent file is 0. */
    predicate Valid()
      reads this
    {
      attempted == Counter(attemptedFile) && committed == Counter(committedFile)
    }

    static function Counter(file: Option<nat>): nat {
      if file.Some? then file.value else 0
    }

    ghost function View(): Files
      reads this
    {
      Files(local, prev, attempted, committed, acks, reapplies)
    }

    ghost function At(pc: ConfMember.Pc): Micro
      reads this
    {
      ConfMember.Member(local, prev, attempted, committed, pc)
    }

    /** A start, or a restart after a crash: the counters come back from their files. */
    constructor (member: Name, local: Option<Text>, prev: Option<Text>,
                 attemptedFile: Option<nat>, committedFile: Option<nat>, acks: map<nat, int>)
      ensures Valid() && this.member == member && reported == [] && Reporting()
      ensures View() == Files(local, prev, Counter(attemptedFile), Counter(committedFile), acks, 0)
    {
      this.member := member;
      this.local, this.prev := local, prev;
      this.attemptedFile, this.committedFile := attemptedFile, committedFile;
      this.attempted, this.committed := Counter(attemptedFile), Counter(committedFile);
      this.acks, this.reapplies, this.regressionLogged, this.reported := acks, 0, None, [];
    }

    method SetAttempted(g: nat, writable: bool) returns (ok: bool)
      requires Valid()
      modifies `attemptedFile, `attempted
      ensures Valid() && ok == writable && attempted == if writable then g else old(attempted)
    {
      if !writable {
        return false;
      }
      attemptedFile := Some(g);
      attempted := g;
      return true;
    }

    method SetCommitted(g: nat, writable: bool) returns (ok: bool)
      requires Valid()
      modifies `committedFile, `committed
      ensures Valid() && ok == writable && committed == if writable then g else old(committed)
    {
      if !writable {
        return false;
      }
      committedFile := Some(g);
      committed := g;
      return true;
    }

    method WriteAck(g: nat, code: int, writable: bool) returns (ok: bool)
      modifies `acks
      ensures ok == writable && acks == if writable then old(acks)[g := code] else old(acks)
    {
      if writable {
        acks := acks[g := code];
      }
      return writable;
    }

    /** The witness window: retry the own ack until it is written, then look for a witness. */
    method AwaitWitness(e: Answers, g: nat, text: Text, exit: Exit)
        returns (how: Option<ConfMember.Witness>, ghost acts: seq<Act>)
      modifies `acks
      ensures how.Some? <==> WitnessedBy(e, member, WITNESS_POLLS)
      ensures how.Some? ==> how.value != ConfMember.NoApply && acks == old(acks)[g := ConfMember.StatusCode(exit)]
      ensures acks == if AckedBy(e, WITNESS_POLLS) then old(acks)[g := ConfMember.StatusCode(exit)] else old(acks)
      ensures Leads(e, member, old(At(ConfMember.Poll(g, text, exit, false, WITNESS_POLLS))), acts,
                    At(if how.Some? then ConfMember.Witnessed(g, text, how.value) else ConfMember.Reverting(g)))
    {
      hide Leads, WitnessedBy, AckedBy, PeerAt;
      ghost var m := At(ConfMember.Poll(g, text, exit, false, WITNESS_POLLS));
      var single := MemberCount(e.nodes) == 1;
      var acked := false;
      acts := [];
      LeadsNowhere(e, member, m);
      NoPollYet(e, member);
      var i := 0;
      while i < WITNESS_POLLS
        invariant i <= WITNESS_POLLS
        invariant acked <==> AckedBy(e, i)
        invariant !WitnessedBy(e, member, i)
        invariant acks == if acked then old(acks)[g := ConfMember.StatusCode(exit)] else old(acks)
        invariant Leads(e, member, m, acts, At(ConfMember.Poll(g, text, exit, acked, WITNESS_POLLS - i)))
      {
        NextPoll(e, member, i);
        ghost var poll := At(ConfMember.Poll(g, text, exit, acked, WITNESS_POLLS - i));
        ghost var a: Act := if acked then ConfMember.KeepAck else ConfMember.WriteAck(e.canAck(i));
        if !acked {
          acked := WriteAck(g, ConfMember.StatusCode(exit), e.canAck(i));
        }
        ghost var check := At(ConfMember.Check(g, text, exit, WITNESS_POLLS - i, acked));
        LeadsOn(e, member, m, acts, poll, a, check);
        acts := acts + [a];
        if acked && single {
          LeadsOn(e, member, m, acts, check, ConfMember.FindAlone, At(ConfMember.Witnessed(g, text, ConfMember.Alone)));
          WitnessedLater(e, member, i + 1);
          return Some(ConfMember.Alone), acts + [ConfMember.FindAlone];
        }
        var peer := PeerAt(e, member, i);
        if acked && peer.Some? {
          var found := ConfMember.Peer(peer.value);
          LeadsOn(e, member, m, acts, check, ConfMember.FindPeer(peer.value), At(ConfMember.Witnessed(g, text, found)));
          WitnessedLater(e, member, i + 1);
          return Some(found), acts + [ConfMember.FindPeer(peer.value)];
        }
        i := i + 1;
        LeadsOn(e, member, m, acts, check, ConfMember.FindNone,
                At(ConfMember.Poll(g, text, exit, acked, WITNESS_POLLS - i)));
        acts := acts + [ConfMember.FindNone];
      }
      LeadsOn(e, member, m, acts, At(ConfMember.Poll(g, text, exit, acked, 0)), ConfMember.GiveUp,
              At(ConfMember.Reverting(g)));
      return None, acts + [ConfMember.GiveUp];
    }

    /** Withdraw the ack, put the saved text back, and ask for one more re-apply. */
    method Revert(e: Answers, g: nat) returns (r: Option<Outcome>, ghost acts: seq<Act>)
      requires Valid()
      modifies `acks, `local, `reapplies
      ensures Valid()
      ensures acks == if e.canRetract then old(acks) - {g} else old(acks)
      ensures local == if prev.Some? && e.canRestore then prev else old(local)
      ensures reapplies == old(reapplies) + if prev.Some? && e.canRestore then 1 else 0
      ensures r == if prev.Some? && !e.canRestore then None else Some(Reverted(g))
      ensures Leads(e, member, old(At(ConfMember.Reverting(g))), acts, At(ConfMember.Idle))
    {
      hide Leads;
      ghost var m := At(ConfMember.Reverting(g));
      LeadsNowhere(e, member, m);
      LeadsOn(e, member, m, [], m, ConfMember.Retract(e.canRetract), At(ConfMember.Retracted(g)));
      acts := [] + [ConfMember.Retract(e.canRetract)];
      if e.canRetract {
        acks := acks - {g};
      }
      if prev == None {
        LeadsOn(e, member, m, acts, At(ConfMember.Retracted(g)), ConfMember.NoTarget, At(ConfMember.Idle));
        acts := acts + [ConfMember.NoTarget];
        return Some(Reverted(g)), acts;
      }
      ghost var retracted := At(ConfMember.Retracted(g));
      if !e.canRestore {
        LeadsOn(e, member, m, acts, retracted, ConfMember.Abort, At(ConfMember.Idle));
        acts := acts + [ConfMember.Abort];
        return None, acts;
      }
      local := prev;
      ghost var restored := At(ConfMember.Restored(g));
      LeadsOn(e, member, m, acts, retracted, ConfMember.Restore, restored);
      acts := acts + [ConfMember.Restore];
      reapplies := reapplies + 1;
      LeadsOn(e, member, m, acts, restored, ConfMember.ReapplyBack(e.reapplyBack), At(ConfMember.Idle));
      acts := acts + [ConfMember.ReapplyBack(e.reapplyBack)];
      return Some(Reverted(g)), acts;
    }

    /** Cache the revert target and put the published text over the local file. */
    method Place(e: Answers, g: nat, text: Text) returns (ok: bool, ghost acts: seq<Act>)
      requires local != Some(text)
      modifies `prev, `local
      ensures local == if ok then Some(text) else old(local)
      ensures prev == if old(local).Some? && e.canSavePrev then old(local) else old(prev)
      ensures ok <==> !(old(local).Some? && !e.canSavePrev) && e.canInstall
      ensures Leads(e, member, old(At(ConfMember.Holding(g, text))), acts,
                    At(if ok then ConfMember.Installed(g, text) else ConfMember.Idle))
    {
      hide Leads;
      ghost var m := At(ConfMember.Holding(g, text));
      LeadsNowhere(e, member, m);
      if local.Some? {
        if !e.canSavePrev {
          LeadsOn(e, member, m, [], m, ConfMember.Abort, At(ConfMember.Idle));
          return false, [] + [ConfMember.Abort];
        }
        prev := local;
      }
      ghost var saved := At(ConfMember.Saved(g, text));
      LeadsOn(e, member, m, [], m, ConfMember.SavePrev, saved);
      acts := [] + [ConfMember.SavePrev];
      if !e.canInstall {
        LeadsOn(e, member, m, acts, saved, ConfMember.Abort, At(ConfMember.Idle));
        return false, acts + [ConfMember.Abort];
      }
      local := Some(text);
      LeadsOn(e, member, m, acts, saved, ConfMember.Install, At(ConfMember.Installed(g, text)));
      return true, acts + [ConfMember.Install];
    }

    /** Ask for the re-apply and the status, and wait for a witness. */
    method Check(e: Answers, g: nat, text: Text)
        returns (v: Verdict, ghost how: ConfMember.Witness, ghost acts: seq<Act>)
      modifies `acks, `reapplies
      ensures reapplies == old(reapplies) + 1
      ensures v == Keep <==> Passes(e) && WitnessedBy(e, member, WITNESS_POLLS)
      ensures v == Fail <==> e.reapply && e.status.None?
      ensures v == Keep ==> acks == old(acks)[g := ConfMember.StatusCode(e.status.value)]
      ensures v != Keep ==> acks - {g} == old(acks) - {g}
      ensures v == Fail ==> acks == old(acks)
      ensures Leads(e, member, old(At(ConfMember.Installed(g, text))), acts, At(AfterCheck(v, g, text, how)))
      ensures v == Keep ==> how != ConfMember.NoApply
    {
      hide Leads, WitnessedBy, AckedBy, PeerAt;
      ghost var m := At(ConfMember.Installed(g, text));
      ghost var reverting := At(ConfMember.Reverting(g));
      LeadsNowhere(e, member, m);
      how := ConfMember.NoApply;
      reapplies := reapplies + 1;
      ghost var applied := At(ConfMember.Applied(g, text));
      LeadsOn(e, member, m, [], m, ConfMember.Reapply(e.reapply), if e.reapply then applied else reverting);
      acts := [] + [ConfMember.Reapply(e.reapply)];
      if !e.reapply {
        return Back, how, acts;
      }
      if e.status.None? {
        LeadsOn(e, member, m, acts, applied, ConfMember.Abort, At(ConfMember.Idle));
        return Fail, how, acts + [ConfMember.Abort];
      }
      var exit := e.status.value;
      ghost var poll := At(ConfMember.Poll(g, text, exit, false, WITNESS_POLLS));
      LeadsOn(e, member, m, acts, applied, ConfMember.Status(exit),
              if ConfMember.StatusCode(exit) > 1 then reverting else poll);
      acts := acts + [ConfMember.Status(exit)];
      if ConfMember.StatusCode(exit) > 1 {
        return Back, how, acts;
      }
      ghost var wait: seq<Act>;
      var found;
      found, wait := AwaitWitness(e, g, text, exit);
      LeadsThrough(e, member, m, acts, poll, wait,
                   At(if found.Some? then ConfMember.Witnessed(g, text, found.value) else ConfMember.Reverting(g)));
      acts := acts + wait;
      if found.None? {
        return Back, how, acts;
      }
      return Keep, found.value, acts;
    }

    /** Install the published text, have it applied and checked, and keep it only when witnessed. */
    method Apply(e: Answers, g: nat, text: Text) returns (r: Option<Outcome>, ghost acts: seq<Act>)
      requires Valid() && attempted == g && committed < g && e.gen == Some(g) && e.conf == Some(text) && e.gate
      requires local != Some(text)
      modifies this
      ensures Valid() && Logging() == old(Logging())
      ensures Leads(e, member, old(At(ConfMember.Holding(g, text))), acts, At(ConfMember.Idle))
      ensures r.None? <==> ApplyErrs(e, member, old(View()), g)
      ensures r.Some? ==> AppliedOk(e, member, old(View()), View(), r.value, g)
      ensures r.None? ==> ApplyErrorOk(e, member, old(View()), View(), g)
    {
      hide Leads, WitnessedBy, AckedBy, PeerAt, ApplyErrs, ApplyErrorOk, AppliedOk, Told, AllTold;
      ghost var f := View();
      ghost var m := At(ConfMember.Holding(g, text));
      var ok;
      ok, acts := Place(e, g, text);
      if !ok {
        NotPlacedErrs(e, member, f, View(), g);
        return None, acts;
      }
      ghost var installed := At(ConfMember.Installed(g, text));
      var v;
      ghost var how, check;
      v, how, check := Check(e, g, text);
      LeadsThrough(e, member, m, acts, installed, check, At(AfterCheck(v, g, text, how)));
      acts := acts + check;
      match v
      case Fail =>
        NoStatusErrs(e, member, f, View(), g);
        return None, acts;
      case Back =>
        ghost var reverting := At(ConfMember.Reverting(g));
        ghost var back;
        r, back := Revert(e, g);
        LeadsThrough(e, member, m, acts, reverting, back, At(ConfMember.Idle));
        BackEnds(e, member, f, View(), g);
        return r, acts + back;
      case Keep =>
        ghost var witnessed := At(ConfMember.Witnessed(g, text, how));
        ok := SetCommitted(g, e.canRecordCommit);
        ghost var last: Act := if ok then ConfMember.Commit else ConfMember.Abort;
        LeadsOn(e, member, m, acts, witnessed, last, At(ConfMember.Idle));
        KeepEnds(e, member, f, View(), g);
        return if ok then Some(Committed(g, true)) else None, acts + [last];
    }

    /** A generation above the committed one, not attempted before. */
    method Handle(e: Answers, g: nat) returns (r: Option<Outcome>, ghost acts: seq<Act>)
      requires Valid() && e.quorate == Some(true) && e.gen == Some(g) && g > committed && g != attempted
      modifies this
      ensures Valid() && Logging() == old(Logging())
      ensures Leads(e, member, old(At(ConfMember.Idle)), acts, At(ConfMember.Idle))
      ensures r.None? <==> TickErrs(e, member, old(View()))
      ensures r.Some? ==> OutcomeOk(e, member, old(View()), View(), r.value)
      ensures r.None? ==> ErrorOk(e, member, old(View()), View())
    {
      hide Leads, WitnessedBy, AckedBy, PeerAt, ApplyErrs, ApplyErrorOk, AppliedOk;
      ghost var f := View();
      ghost var m := At(ConfMember.Idle);
      LeadsNowhere(e, member, m);
      ghost var saw := At(ConfMember.SawGen(g));
      LeadsOn(e, member, m, [], m, ConfMember.SeeGen(g), saw);
      acts := [] + [ConfMember.SeeGen(g)];
      // The attempt is on disk before anything is applied.
      var ok := SetAttempted(g, e.canRecord);
      ghost var recorded := At(ConfMember.Recorded(g));
      LeadsOn(e, member, m, acts, saw, if ok then ConfMember.RecordAttempt else ConfMember.Abort,
              if ok then recorded else m);
      acts := acts + [if ok then ConfMember.RecordAttempt else ConfMember.Abort];
      if !ok {
        return None, acts;
      }
      if e.conf.None? || !e.gate {
        LeadsOn(e, member, m, acts, recorded, ConfMember.Refuse, At(ConfMember.Idle));
        return Some(Refused(g)), acts + [ConfMember.Refuse];
      }
      var text := e.conf.value;
      ghost var holding := At(ConfMember.Holding(g, text));
      LeadsOn(e, member, m, acts, recorded, ConfMember.ReadConf(text), holding);
      acts := acts + [ConfMember.ReadConf(text)];
      ghost var rest: seq<Act>;
      if local == Some(text) {
        r, rest := CommitSame(e, g, text);
      } else {
        ghost var before := View();
        r, rest := Apply(e, g, text);
        AttemptIsAside(e, member, f, View(), if r.Some? then r.value else Outcome.Idle, g);
        assert before == f.(attempted := g);
      }
      LeadsThrough(e, member, m, acts, holding, rest, At(ConfMember.Idle));
      return r, acts + rest;
    }

    /** Byte-identical: ack and commit; an ack that cannot be written does not matter. */
    method CommitSame(e: Answers, g: nat, text: Text) returns (r: Option<Outcome>, ghost acts: seq<Act>)
      requires Valid() && local == Some(text)
      modifies `acks, `committed, `committedFile
      ensures Valid() && acks == if e.canAck(0) then old(acks)[g := 0] else old(acks)
      ensures if e.canRecordCommit then committed == g && r == Some(Committed(g, false))
              else committed == old(committed) && r == None
      ensures Leads(e, member, old(At(ConfMember.Holding(g, text))), acts, At(ConfMember.Idle))
    {
      hide Leads;
      ghost var m := At(ConfMember.Holding(g, text));
      LeadsNowhere(e, member, m);
      ghost var same := At(ConfMember.Same(g, text));
      LeadsOn(e, member, m, [], m, ConfMember.FindSame, same);
      acts := [] + [ConfMember.FindSame];
      var acked := WriteAck(g, 0, e.canAck(0));
      ghost var witnessed := At(ConfMember.Witnessed(g, text, ConfMember.NoApply));
      LeadsOn(e, member, m, acts, same, ConfMember.AckSame(acked), witnessed);
      acts := acts + [ConfMember.AckSame(acked)];
      var ok := SetCommitted(g, e.canRecordCommit);
      ghost var last: Act := if ok then ConfMember.Commit else ConfMember.Abort;
      LeadsOn(e, member, m, acts, witnessed, last, At(ConfMember.Idle));
      return if ok then Some(Committed(g, false)) else None, acts + [last];
    }

    /** One tick: a run of the member's steps, leaving exactly what its outcome says. */
    method Tick(e: Answers) returns (r: Option<Outcome>, ghost acts: seq<Act>)
      requires Valid()
      modifies this
      ensures Valid() && Logging() == old(Logging())
      ensures Leads(e, member, old(At(ConfMember.Idle)), acts, At(ConfMember.Idle))
      ensures r.None? <==> TickErrs(e, member, old(View()))
      ensures r.Some? ==> OutcomeOk(e, member, old(View()), View(), r.value)
      ensures r.None? ==> ErrorOk(e, member, old(View()), View())
    {
      acts := [];
      LeadsNowhere(e, member, At(ConfMember.Idle));
      hide Leads, PeerAt, AppliedOk;
      if e.quorate.None? {
        return None, acts;
      }
      if !e.quorate.value {
        return Some(NotQuorate), acts;
      }
      if e.gen.None? {
        return None, acts;
      }
      var g := e.gen.value;
      if g == committed {
        return Some(Outcome.Idle), acts;
      }
      if g < committed {
        return Some(GenRegression(g, committed)), acts;
      }
      if g == attempted {
        return Some(AlreadyAttempted(g)), acts;
      }
      r, acts := Handle(e, g);
    }

    /** One outcome of a run of ticks, logged or not. */
    method Report(o: Outcome) returns (logged: bool)
      requires Reporting()
      modifies `regressionLogged, `reported
      ensures Reporting() && reported == old(reported) + [o]
      ensures logged <==> Logs(old(reported), o)
    {
      match o {
        case NotQuorate => logged := false;
        case Idle => logged := false;
        case AlreadyAttempted(_) => logged := false;
        case GenRegression(g, _) =>
          logged := regressionLogged != Some(g);
          if logged {
            regressionLogged := Some(g);
          }
        case _ => logged := true;
      }
      LastOfMore(reported, o);
      reported := reported + [o];
    }
  }

  // ---- what is logged over a run -------------------------------------------------------------

  /** The generation of the last regression among the outcomes. */
  function LastRegression(os: seq<Outcome>): Option<nat> {
    if os == [] then None
    else if os[|os| - 1].GenRegression? then Some(os[|os| - 1].g)
    else LastRegression(os[..|os| - 1])
  }

  /** Whether `o` is logged after the outcomes `os`: the quiet ones never, a regression when it is a new one. */
  predicate Logs(os: seq<Outcome>, o: Outcome) {
    match o
    case NotQuorate => false
    case Idle => false
    case AlreadyAttempted(_) => false
    case GenRegression(g, _) => LastRegression(os) != Some(g)
    case _ => true
  }

  lemma LastOfMore(os: seq<Outcome>, o: Outcome)
    ensures LastRegression(os + [o]) == if o.GenRegression? then Some(o.g) else LastRegression(os)
  {
    assert (os + [o])[..|os + [o]| - 1] == os;
  }

  /** The last regression among the outcomes is at `i`, and is to `g`. */
  ghost predicate LastIs(os: seq<Outcome>, i: nat, g: nat) {
    i < |os| && os[i].GenRegression? && os[i].g == g && forall k :: i < k < |os| ==> !os[k].GenRegression?
  }

  lemma {:induction false} LastRegressionIs(os: seq<Outcome>, g: nat)
    ensures LastRegression(os) == Some(g) <==> exists i :: LastIs(os, i, g)
  {
    if os != [] {
      var init, last := os[..|os| - 1], os[|os| - 1];
      LastRegressionIs(init, g);
      if last.GenRegression? {
        OnlyTheLast(os);
        if last.g == g {
          assert LastIs(os, |os| - 1, g);
        }
      } else {
        forall i: nat
          ensures LastIs(os, i, g) <==> LastIs(init, i, g)
        {
          LastOfInit(os, i, g);
        }
      }
    }
  }

  lemma OnlyTheLast(os: seq<Outcome>)
    requires os != [] && os[|os| - 1].GenRegression?
    ensures forall i, g :: LastIs(os, i, g) ==> g == os[|os| - 1].g
  {
  }

  lemma LastOfInit(os: seq<Outcome>, i: nat, g: nat)
    requires os != [] && !os[|os| - 1].GenRegression?
    ensures LastIs(os, i, g) <==> LastIs(os[..|os| - 1], i, g)
  {
    var init := os[..|os| - 1];
    if LastIs(init, i, g) {
      assert init[i] == os[i];
    }
    if LastIs(os, i, g) {
      assert init[i] == os[i];
      assert forall k :: i < k < |init| ==> init[k] == os[k];
    }
  }

  /**
   Over a run of ticks a regression to `g` is logged exactly when the regression before it, if any, was to
   another generation: once per stretch, and again after a different one.
   */
  lemma RegressionLoggedPerStretch(os: seq<Outcome>, j: nat)
    requires j < |os| && os[j].GenRegression?
    ensures Logs(os[..j], os[j]) <==> !exists i :: LastIs(os[..j], i, os[j].g)
  {
    LastRegressionIs(os[..j], os[j].g);
  }

  // ---- what that means for the files ---------------------------------------------------------

  /** At poll `i` the directory can be read and lists another member's finished ack at most 60 seconds old. */
  ghost predicate ListsWitness(e: Answers, me: Name, i: nat) {
    && e.entries(i).Some?
    && exists x :: x in e.entries(i).value
         && x.name != me && !("." <= x.name)
         && x.mtime.Some? && x.mtime.value <= e.clock(i) <= x.mtime.value + 60
  }

  lemma ListsWitnessIsPeer(e: Answers, me: Name, i: nat)
    ensures ListsWitness(e, me, i) <==> PeerAt(e, me, i).Some?
  {
    if e.entries(i).Some? {
      var entries := e.entries(i).value;
      if x :| x in entries && x.name != me && !("." <= x.name)
              && x.mtime.Some? && x.mtime.value <= e.clock(i) <= x.mtime.value + 60 {
        assert Proof(x, e.clock(i), me);
      }
    }
  }

  /** The own ack was written at poll `i` or before, and a witness is listed there. */
  ghost predicate SeenAt(e: Answers, me: Name, i: nat) {
    AckedBy(e, i + 1) && ListsWitness(e, me, i)
  }

  /**
   A new text that was put in place is committed exactly when its re-apply worked, its status was 0, 1 or a
   kill, the ack was written within 60 polls, and by then a witness is listed at a poll, or the member list
   can be read and has one member. An unreadable or an empty list never does without the witness.
   */
  lemma AppliedCommitsExactly(e: Answers, me: Name, f: Files, f': Files, o: Outcome)
    requires OutcomeOk(e, me, f, f', o) && (o.Reverted? || (o.Committed? && o.applied))
    ensures o.Committed? <==>
              && e.reapply && e.status in {Some(Exit.Exited(0)), Some(Exit.Exited(1)), Some(Exit.Killed)}
              && if e.nodes == Some(1) then AckedBy(e, 60)
                 else exists i: nat :: i < 60 && SeenAt(e, me, i)
  {
    hide PeerAt, ListsWitness, AckedBy;
    forall i: nat
      ensures WitnessAt(e, me, i) <==> AckedBy(e, i + 1) && (e.nodes == Some(1) || ListsWitness(e, me, i))
    {
      ListsWitnessIsPeer(e, me, i);
    }
    if e.nodes == Some(1) {
      AloneByAck(e, me);
    } else {
      assert forall i: nat :: WitnessAt(e, me, i) <==> SeenAt(e, me, i);
    }
  }

  lemma AloneByAck(e: Answers, me: Name)
    requires forall i: nat :: WitnessAt(e, me, i) <==> AckedBy(e, i + 1)
    ensures WitnessedBy(e, me, WITNESS_POLLS) <==> AckedBy(e, 60)
  {
    hide WitnessAt;
    if AckedBy(e, 60) {
      assert WitnessAt(e, me, 59);
    }
    if j: nat :| j < WITNESS_POLLS && WitnessAt(e, me, j) {
      var i: nat :| i < j + 1 && e.canAck(i);
    }
  }

  /**
   A reverted tick puts the bytes back that were there before it exactly when there were any, leaves
   the committed counter and asks for exactly one more re-apply than the attempt itself did.
   */
  lemma RevertedRestores(e: Answers, me: Name, f: Files, f': Files, g: nat)
    requires OutcomeOk(e, me, f, f', Reverted(g))
    ensures f'.local == f.local <==> f.local.Some?
    ensures f'.committed == f.committed && f'.attempted == g
    ensures f.local.Some? ==> f'.prev == f.local && f'.reapplies == f.reapplies + 2
    ensures f.local.None? && f.prev.Some? ==> f'.local == f.prev && f'.reapplies == f.reapplies + 2
    ensures f.local.None? && f.prev.None? ==> f'.local == e.conf && f'.reapplies == f.reapplies + 1
    ensures e.canRetract ==> g !in f'.acks
  {
    hide PeerAt, WitnessedBy;
  }

  /** Only a generation handled forward changes anything, and only a commit moves `committed`. */
  lemma WhatOutcomesChange(e: Answers, me: Name, f: Files, f': Files, o: Outcome)
    requires OutcomeOk(e, me, f, f', o)
    ensures f' != f ==> o.Refused? || o.Committed? || o.Reverted?
    ensures o.Refused? ==> f' == f.(attempted := o.g)
    ensures f'.committed != f.committed <==> o.Committed?
    ensures o.Committed? ==> f'.committed == f'.attempted == o.g && f'.local == e.conf
    ensures o.Committed? ==> f.committed < f'.committed
    ensures f'.reapplies > f.reapplies <==> (o.Committed? && o.applied) || o.Reverted?
  {
    hide PeerAt, WitnessedBy;
  }

  /** The generation just attempted is not attempted again while the counter stays there. */
  lemma AttemptedOnce(e: Answers, me: Name, f: Files, f': Files, o: Outcome, e': Answers, f'': Files, o': Outcome)
    requires OutcomeOk(e, me, f, f', o) && OutcomeOk(e', me, f', f'', o')
    requires o.Refused? || o.Committed? || o.Reverted?
    requires e'.gen == e.gen
    ensures f'' == f' && (o'.NotQuorate? || o'.Idle? || o'.AlreadyAttempted?)
    ensures o'.Idle? ==> o.Committed?
  {
    hide PeerAt, WitnessedBy;
  }

  // ---- a tick among the others ---------------------------------------------------------------

  /** The state the tick finds at a step is what it is told of it. */
  ghost predicate Finds(c: ConfProtocol.Cluster, s: ConfProtocol.State, e: Answers, me: Name, g: nat, a: Act) {
    match a
    case SeeGen(_) => e.gen == Some(s.store.gen)
    case ReadConf(text) => e.conf == s.store.conf && (e.gate <==> c.valid(text, me))
    case FindAlone => MemberCount(e.nodes) == |c.names|
    case FindPeer(q) =>
      forall i: nat :: PeerAt(e, me, i) == Some(q) ==>
        e.clock(i) == s.now && e.entries(i).Some? && Lists(s.store.acks, g, e.entries(i).value)
    case _ => true
  }

  /** A step a tick takes on what it is told is a step the protocol allows where it is true. */
  lemma ToldIsAllowed(c: ConfProtocol.Cluster, s: ConfProtocol.State, e: Answers, me: Name, m: Micro, a: Act)
    requires Told(e, me, a) && ConfMember.Step(m, a).Some?
    requires Finds(c, s, e, me, if m.pc.Idle? then 0 else m.pc.g, a)
    requires forall k :: k in s.store.acks ==> !("." <= k.1)
    ensures ConfProtocol.Allowed(c, s, me, m, a)
  {
    if a.FindPeer? {
      var i: nat :| i < WITNESS_POLLS && PeerAt(e, me, i) == Some(a.name);
      PeerAckIsAllowed(s, m.pc.g, e.entries(i).value, me);
    }
  }

  /**
   A whole tick among the others' moves: where each of its steps finds what the tick is told, every one
   of them is a move of the protocol, from the member the step before left to the member the next one
   finds.
   */
  lemma TickIsProtocolMoves(c: ConfProtocol.Cluster, e: Answers, me: Name, m: Micro, acts: seq<Act>,
                            found: seq<ConfProtocol.State>, k: nat)
    requires AllTold(e, me, acts) && |found| == |acts| && k < |acts|
    requires ConfMember.Run(m, acts).Some? && m.pc == ConfMember.Idle
    requires ConfProtocol.Joined(found[k], me) && ConfMember.Run(m, acts[..k]) == Some(found[k].members[me])
    requires forall n :: n in found[k].store.acks ==> !("." <= n.1)
    requires var pc := found[k].members[me].pc;
             Finds(c, found[k], e, me, if pc.Idle? then 0 else pc.g, acts[k])
    ensures ConfProtocol.MemberMove(c, found[k], me, acts[k]).Some?
    ensures var t := ConfProtocol.MemberMove(c, found[k], me, acts[k]).value;
            me in t.members && ConfMember.Run(m, acts[..k + 1]) == Some(t.members[me])
  {
    var n := found[k].members[me];
    RunPrefix(m, acts, k + 1);
    assert acts[..k + 1] == acts[..k] + [acts[k]];
    ConfMember.RunSnoc(m, acts[..k], acts[k]);
    assert acts[k] in acts && ConfMember.Step(n, acts[k]).Some?;
    hide ConfMember.Run, ConfMember.Step, Told, Finds, ConfProtocol.Allowed;
    ToldIsAllowed(c, found[k], e, me, n, acts[k]);
  }

  lemma {:induction false} RunPrefix(m: Micro, acts: seq<Act>, k: nat)
    requires k <= |acts| && ConfMember.Run(m, acts).Some?
    ensures ConfMember.Run(m, acts[..k]).Some?
    decreases |acts|
  {
    if k == |acts| {
      assert acts[..k] == acts;
    } else {
      var init := acts[..|acts| - 1];
      RunPrefix(m, init, k);
      assert init[..k] == acts[..k];
    }
  }

  /** `entries` is the directory of the acks for `g`, with the temporary files of writes under way. */
  ghost predicate Lists(acks: map<(nat, Name), ConfProtocol.AckFile>, g: nat, entries: seq<Entry>) {
    && (forall e :: e in entries && !("." <= e.name) ==>
          (g, e.name) in acks && (e.mtime.Some? ==> e.mtime.value == acks[(g, e.name)].at))
    && (forall k :: k in acks && k.0 == g && !("." <= k.1) ==> Entry(k.1, Some(acks[k].at)) in entries)
  }

  /**
   Over the store's own ack directory, the scan finds a peer exactly when the protocol allows some
   `FindPeer` step, and the peer it finds is one the protocol allows.
   */
  lemma PeerAckIsAllowed(s: ConfProtocol.State, g: nat, entries: seq<Entry>, me: Name)
    requires Lists(s.store.acks, g, entries)
    requires forall k :: k in s.store.acks ==> !("." <= k.1)
    ensures PeerAck(entries, s.now, me).Some? <==>
              exists q :: q != me && (g, q) in s.store.acks && ConfProtocol.Fresh(s.store.acks[(g, q)], s.now)
    ensures var r := PeerAck(entries, s.now, me);
            r.Some? ==> r.value != me && (g, r.value) in s.store.acks
                        && ConfProtocol.Fresh(s.store.acks[(g, r.value)], s.now)
  {
    var r := PeerAck(entries, s.now, me);
    if r.Some? {
      var e :| e in entries && Proof(e, s.now, me) && e.name == r.value;
      assert (g, e.name) in s.store.acks;
    }
    forall q | q != me && (g, q) in s.store.acks && ConfProtocol.Fresh(s.store.acks[(g, q)], s.now)
      ensures r.Some?
    {
      var k := (g, q);
      assert k in s.store.acks && !("." <= k.1);
      assert Proof(Entry(q, Some(s.store.acks[k].at)), s.now, me);
    }
  }
}
