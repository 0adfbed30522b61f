/** Any number of concurrent zonctl processes on one host, each of which may die anywhere. */
module DispatchProtocol {
  import opened Text
  import opened Lifecycle

  /** How far a process has come. A dry run takes no lock. `settled` says that no record of it can be in progress. */
  datatype Stage =
    | Start
    | Opened(inode: nat)
    | Locked(lock: Option<nat>)
    | Cleared(lock: Option<nat>, seen: Option<Record>, prior: bool)
    | Running(lock: Option<nat>)
    | Finished(lock: Option<nat>, settled: bool)
    | Gone(settled: bool)

  datatype Process = Process(command: string, dryRun: bool, stage: Stage)

  /** `path` is the inode that the lock's path names now; `held` maps locked inodes to their holders.
      A process's transaction identifier is its own number.
      A factory reset removes the directory, so that the path names a new file from then on. */
  datatype Machine = Machine(procs: map<Pid, Process>, journal: Option<Record>, path: nat, held: map<nat, Pid>)

  datatype Event =
    | Open(pid: Pid)
    | Flock(pid: Pid)
    | Refuse(pid: Pid)
    | Gate(pid: Pid)
    | Begin(pid: Pid)
    | Wipe(pid: Pid)
    | Finish(pid: Pid, status: Status, recorded: bool)
    | Exit(pid: Pid)
    | Die(pid: Pid)

  function LockOf(s: Stage): Option<nat> {
    if s.Locked? || s.Cleared? || s.Running? || s.Finished? then s.lock else None
  }

  function At(m: Machine, p: Pid, s: Stage): Machine
    requires p in m.procs
  {
    m.(procs := m.procs[p := m.procs[p].(stage := s)])
  }

  /** The process lets go of its lock, as the kernel does for a dead one. */
  function Leave(m: Machine, p: Pid, settled: bool): Machine
    requires p in m.procs
  {
    var lock := LockOf(m.procs[p].stage);
    At(m, p, Gone(settled)).(held := if lock.Some? then m.held - {lock.value} else m.held)
  }

  function OwnRecord(m: Machine, p: Pid, status: Status): Record
    requires p in m.procs
  {
    Record(p, m.procs[p].command, status, 0, if status == InProgress then None else Some(0))
  }

  /** The next state, when the event is possible. */
  function Next(m: Machine, e: Event): Option<Machine> {
    if e.pid !in m.procs then None
    else
      var p := e.pid;
      var proc := m.procs[p];
      match (e, proc.stage)
      case (Open(_), Start) =>
        Some(At(m, p, if proc.dryRun then Locked(None) else Opened(m.path)))
      case (Flock(_), Opened(inode)) =>
        if inode in m.held then None
        else Some(At(m, p, Locked(Some(inode))).(held := m.held[inode := p]))
      case (Refuse(_), s) =>
        if s.Running? || s.Finished? || s.Gone? then None else Some(Leave(m, p, true))
      case (Gate(_), Locked(lock)) =>
        if MayProceed(proc.command, m.journal)
        then Some(At(m, p, Cleared(lock, m.journal, PriorInstallAttempted(m.journal)))) else None
      case (Begin(_), Cleared(lock, _, _)) =>
        var next := At(m, p, Running(lock));
        Some(if proc.dryRun then next else next.(journal := Some(OwnRecord(m, p, InProgress))))
      case (Wipe(_), Running(_)) =>
        if proc.command == "factory-reset" && !proc.dryRun then Some(m.(journal := None, path := m.path + 1)) else None
      case (Finish(_, status, recorded), Running(lock)) =>
        if status == InProgress then None
        else if proc.dryRun then Some(At(m, p, Finished(lock, true)))
        else
          var next := At(m, p, Finished(lock, recorded));
          Some(if recorded then next.(journal := Some(OwnRecord(m, p, status))) else next)
      case (Exit(_), Finished(_, settled)) => Some(Leave(m, p, settled))
      case (Die(_), s) =>
        if s.Gone? then None else Some(Leave(m, p, !s.Running? && (s.Finished? ==> s.settled)))
      case _ => None
  }

  ghost predicate Step(m: Machine, e: Event, m': Machine) { Next(m, e) == Some(m') }

  predicate Init(m: Machine) {
    && (forall p | p in m.procs :: m.procs[p].stage == Start)
    && m.held == map[]
    && (m.journal.Some? ==> m.journal.value.status != InProgress)
  }

  // ---- The invariant ---------------------------------------------------------------------------

  /** The lock table is exactly what the processes hold. */
  ghost predicate HeldSound(m: Machine) {
    && (forall i | i in m.held :: m.held[i] in m.procs && LockOf(m.procs[m.held[i]].stage) == Some(i))
    && (forall p | p in m.procs && LockOf(m.procs[p].stage).Some? ::
          LockOf(m.procs[p].stage).value in m.held && m.held[LockOf(m.procs[p].stage).value] == p)
  }

  /** Only dry runs go on without a lock. */
  ghost predicate DryRunsSound(m: Machine) {
    forall p | p in m.procs ::
      && (PastLock(m.procs[p].stage) ==> (LockOf(m.procs[p].stage).None? <==> m.procs[p].dryRun))
      && (m.procs[p].stage.Opened? ==> !m.procs[p].dryRun)
  }

  ghost predicate LocksSound(m: Machine) { HeldSound(m) && DryRunsSound(m) }

  /** An unfinished record is that of a running process, or of one that went without recording its outcome. */
  predicate OwnedBy(m: Machine, r: Record) {
    && r.id in m.procs && !m.procs[r.id].dryRun && r.kind == m.procs[r.id].command
    && match m.procs[r.id].stage
       case Running(_) => true
       case Finished(_, settled) => !settled
       case Gone(settled) => !settled
       case _ => false
  }

  ghost predicate GateSound(m: Machine) {
    forall p | p in m.procs && m.procs[p].stage.Cleared? ::
      && MayProceed(m.procs[p].command, m.procs[p].stage.seen)
      && m.procs[p].stage.prior == PriorInstallAttempted(m.procs[p].stage.seen)
  }

  ghost predicate Inv(m: Machine) {
    && LocksSound(m)
    && (Interrupted(m.journal) ==> OwnedBy(m, m.journal.value))
    && GateSound(m)
  }

  lemma InitInv(m: Machine)
    requires Init(m)
    ensures Inv(m)
  {
  }

  /** What a step may do about locks: keep them, take the one it opened, or let go of its own. */
  ghost predicate LockMove(m: Machine, p: Pid, m': Machine) {
    && p in m.procs && p in m'.procs
    && m'.procs == m.procs[p := m.procs[p].(stage := m'.procs[p].stage)]
    && var s, s' := m.procs[p].stage, m'.procs[p].stage;
       || (m'.held == m.held && LockOf(s') == LockOf(s) && PastLock(s) && PastLock(s'))
       || (m'.held == m.held && LockOf(s') == LockOf(s) && !PastLock(s') && (s'.Opened? ==> !m.procs[p].dryRun))
       || (m'.held == m.held && s' == Locked(None) && m.procs[p].dryRun && LockOf(s).None?)
       || (s.Opened? && s.inode !in m.held && m'.held == m.held[s.inode := p] && s' == Locked(Some(s.inode)))
       || (LockOf(s).Some? && m'.held == m.held - {LockOf(s).value} && s'.Gone?)
  }

  predicate PastLock(s: Stage) { s.Locked? || s.Cleared? || s.Running? || s.Finished? }

  lemma StepMovesLocks(m: Machine, e: Event, m': Machine)
    requires Step(m, e, m')
    ensures LockMove(m, e.pid, m')
  {
    hide MayProceed, PriorInstallAttempted;
  }

  lemma StepKeepsLocks(m: Machine, e: Event, m': Machine)
    requires LocksSound(m) && Step(m, e, m')
    ensures LocksSound(m')
  {
    hide *;
    StepMovesLocks(m, e, m');
    assert HeldSound(m) && DryRunsSound(m) by { LocksSoundParts(m); }
    MoveKeepsHeld(m, e.pid, m');
    MoveKeepsDryRuns(m, e.pid, m');
    LocksSoundParts(m');
  }

  lemma LocksSoundParts(m: Machine)
    ensures LocksSound(m) <==> HeldSound(m) && DryRunsSound(m)
  {
  }

  lemma MoveKeepsHeld(m: Machine, p: Pid, m': Machine)
    requires HeldSound(m) && DryRunsSound(m) && LockMove(m, p, m')
    ensures HeldSound(m')
  {
    assert forall q | q in m.procs && q != p :: m'.procs[q] == m.procs[q];
  }

  lemma MoveKeepsDryRuns(m: Machine, p: Pid, m': Machine)
    requires DryRunsSound(m) && LockMove(m, p, m')
    ensures DryRunsSound(m')
  {
    assert forall q | q in m.procs && q != p :: m'.procs[q] == m.procs[q];
  }

  lemma StepKeepsRecord(m: Machine, e: Event, m': Machine)
    requires LocksSound(m) && Step(m, e, m')
    requires Interrupted(m.journal) ==> OwnedBy(m, m.journal.value)
    ensures Interrupted(m'.journal) ==> OwnedBy(m', m'.journal.value)
  {
    hide MayProceed, PriorInstallAttempted;
  }

  lemma StepKeepsGate(m: Machine, e: Event, m': Machine)
    requires GateSound(m) && Step(m, e, m')
    ensures GateSound(m')
  {
    hide MayProceed, PriorInstallAttempted;
    assert forall q | q in m.procs && q != e.pid :: m'.procs[q] == m.procs[q];
  }

  lemma StepKeepsInv(m: Machine, e: Event, m': Machine)
    requires Inv(m) && Step(m, e, m')
    ensures Inv(m')
  {
    hide LocksSound, OwnedBy, GateSound, MayProceed;
    StepKeepsLocks(m, e, m');
    StepKeepsRecord(m, e, m');
    StepKeepsGate(m, e, m');
  }

  // ---- Whole runs ------------------------------------------------------------------------------

  ghost predicate Behaviour(states: seq<Machine>, events: seq<Event>) {
    && |states| == |events| + 1
    && Init(states[0])
    && forall i | 0 <= i < |events| :: Step(states[i], events[i], states[i + 1])
  }

  lemma {:induction false} EveryStateSound(states: seq<Machine>, events: seq<Event>, i: nat)
    requires Behaviour(states, events) && i < |states|
    ensures Inv(states[i])
  {
    hide Inv, Step, Init;
    if i == 0 {
      InitInv(states[0]);
    } else {
      EveryStateSound(states, events, i - 1);
      StepKeepsInv(states[i - 1], events[i - 1], states[i]);
    }
  }

  /** In any reachable state an unfinished record belongs to a process that holds a lock, or that went without recording an outcome. */
  lemma UnfinishedRecordsHaveOwners(states: seq<Machine>, events: seq<Event>, i: nat)
    requires Behaviour(states, events) && i < |states| && Interrupted(states[i].journal)
    ensures OwnedBy(states[i], states[i].journal.value)
    ensures !states[i].procs[states[i].journal.value.id].stage.Gone? ==>
              exists inode | inode in states[i].held :: states[i].held[inode] == states[i].journal.value.id
  {
    EveryStateSound(states, events, i);
    hide Behaviour;
    var m := states[i];
    var q := m.journal.value.id;
    if !m.procs[q].stage.Gone? {
      var inode := LockOf(m.procs[q].stage).value;
      assert inode in m.held && m.held[inode] == q;
    }
  }

  /** A dry run changes neither the journal nor any lock. */
  lemma DryRunsChangeNothing(m: Machine, e: Event, m': Machine)
    requires Inv(m) && Step(m, e, m') && m.procs[e.pid].dryRun
    ensures m'.journal == m.journal && m'.held == m.held && m'.path == m.path
  {
    hide MayProceed, PriorInstallAttempted;
  }

  /** Whatever else runs or dies, an installation is dispatched as if no installation had been attempted before. */
  lemma InstallIsNeverASecondAttempt(states: seq<Machine>, events: seq<Event>, i: nat, p: Pid)
    requires Behaviour(states, events) && i < |states| && p in states[i].procs
    requires states[i].procs[p].command == "install" && states[i].procs[p].stage.Cleared?
    ensures !states[i].procs[p].stage.prior
  {
    EveryStateSound(states, events, i);
    InstallNeverSeesPriorAttempt(states[i].procs[p].command, states[i].procs[p].stage.seen);
  }
}
