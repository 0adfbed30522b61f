/** When the host-wide lock excludes, and how a factory reset, which removes the lock file, takes part. */
module DispatchExclusion {
  import opened Text
  import opened Lifecycle
  import opened DispatchProtocol

  /** The lock file that a process has open, locked or not. */
  function FileOf(s: Stage): Option<nat> { if s.Opened? then Some(s.inode) else LockOf(s) }

  ghost predicate HasOpen(m: Machine, p: Pid, inode: nat) { p in m.procs && FileOf(m.procs[p].stage) == Some(inode) }

  /** Two processes have different lock files open. */
  ghost predicate Exposed(m: Machine) {
    exists p, q, i, j | HasOpen(m, p, i) && HasOpen(m, q, j) :: i != j
  }

  /** Two processes are past the lock. */
  ghost predicate Broken(m: Machine) {
    exists p, q | p in m.procs && q in m.procs && p != q :: LockOf(m.procs[p].stage).Some? && LockOf(m.procs[q].stage).Some?
  }

  /** Every open lock file is the one that the path names. */
  ghost predicate OneLockFile(m: Machine) { forall p, i | HasOpen(m, p, i) :: i == m.path }

  // ---- Exposure is what breaks exclusion -------------------------------------------------------

  lemma SameFileSameHolder(m: Machine, p: Pid, q: Pid)
    requires LocksSound(m) && !Exposed(m) && p in m.procs && q in m.procs
    requires LockOf(m.procs[p].stage).Some? && LockOf(m.procs[q].stage).Some?
    ensures p == q
  {
    assert HasOpen(m, p, LockOf(m.procs[p].stage).value) && HasOpen(m, q, LockOf(m.procs[q].stage).value);
  }

  ghost predicate RunFrom(m: Machine, states: seq<Machine>, events: seq<Event>) {
    && |states| == |events| + 1 && states[0] == m
    && forall i | 0 <= i < |events| :: Step(states[i], events[i], states[i + 1])
  }

  /** Nothing but lock calls. */
  ghost predicate Flocks(events: seq<Event>) { forall i | 0 <= i < |events| :: events[i].Flock? }

  /** Someone gets past the lock of a file that is open: its holder is, or the process that has it open takes it. */
  lemma TakeLock(m: Machine, p: Pid, inode: nat) returns (h: Pid, states: seq<Machine>, events: seq<Event>)
    requires LocksSound(m) && HasOpen(m, p, inode)
    ensures RunFrom(m, states, events) && Flocks(events) && LocksSound(states[|events|])
    ensures HasOpen(states[|events|], h, inode) && LockOf(states[|events|].procs[h].stage) == Some(inode)
    ensures forall q, i :: HasOpen(m, q, i) <==> HasOpen(states[|events|], q, i)
    ensures forall q | q in m.procs && LockOf(m.procs[q].stage).Some? ::
              q in states[|events|].procs && states[|events|].procs[q] == m.procs[q]
  {
    if inode in m.held {
      h, states, events := m.held[inode], [m], [];
    } else {
      assert m.procs[p].stage == Opened(inode);
      var next := Next(m, Flock(p)).value;
      h, states, events := p, [m, next], [Flock(p)];
      StepKeepsLocks(m, Flock(p), next);
      assert states[|events|] == next;
    }
  }

  lemma FlockKeepsFiles(m: Machine, e: Event, m': Machine)
    requires Step(m, e, m') && e.Flock?
    ensures forall q, i :: HasOpen(m, q, i) <==> HasOpen(m', q, i)
  {
    hide MayProceed, PriorInstallAttempted;
  }

  lemma {:induction false} FlocksKeepFiles(m: Machine, states: seq<Machine>, events: seq<Event>, k: nat)
    requires RunFrom(m, states, events) && Flocks(events) && k <= |events|
    ensures forall q, i :: HasOpen(m, q, i) <==> HasOpen(states[k], q, i)
    decreases k
  {
    if k > 0 {
      FlocksKeepFiles(m, states, events, k - 1);
      assert Step(states[k - 1], events[k - 1], states[k]);
      FlockKeepsFiles(states[k - 1], events[k - 1], states[k]);
    }
  }

  ghost predicate LocksCanBreak(m: Machine) {
    exists states: seq<Machine>, events: seq<Event> :: RunFrom(m, states, events) && Flocks(events) && Broken(states[|events|])
  }

  /** Exclusion is broken, or lock calls of processes that have a lock file open can break it, exactly when two have
      different files open. */
  lemma ExposedIffLocksCanBreak(m: Machine)
    requires LocksSound(m)
    ensures Exposed(m) <==> LocksCanBreak(m)
  {
    if Exposed(m) { ExposedCanBreak(m); }
    forall states: seq<Machine>, events: seq<Event> | RunFrom(m, states, events) && Flocks(events) && Broken(states[|events|]) ensures Exposed(m) {
      FlocksKeepLocks(m, states, events, |events|);
      FlocksKeepFiles(m, states, events, |events|);
      BrokenIsExposed(states[|events|]);
    }
  }

  lemma BrokenIsExposed(m: Machine)
    requires LocksSound(m) && Broken(m)
    ensures Exposed(m)
  {
    var p, q :| p in m.procs && q in m.procs && p != q && LockOf(m.procs[p].stage).Some? && LockOf(m.procs[q].stage).Some?;
    if !Exposed(m) { SameFileSameHolder(m, p, q); }
  }

  lemma {:induction false} FlocksKeepLocks(m: Machine, states: seq<Machine>, events: seq<Event>, k: nat)
    requires LocksSound(m) && RunFrom(m, states, events) && k <= |events|
    ensures LocksSound(states[k])
    decreases k
  {
    if k > 0 {
      FlocksKeepLocks(m, states, events, k - 1);
      StepKeepsLocks(states[k - 1], events[k - 1], states[k]);
    }
  }

  lemma ExposedCanBreak(m: Machine)
    requires LocksSound(m) && Exposed(m)
    ensures LocksCanBreak(m)
  {
    var p, q, i, j :| HasOpen(m, p, i) && HasOpen(m, q, j) && i != j;
    var h, states, events := TakeLock(m, p, i);
    var mid := states[|events|];
    var g, more, moreEvents := TakeLock(mid, q, j);
    var last := more[|moreEvents|];
    hide Step, LocksSound, LocksCanBreak;
    assert last.procs[h] == mid.procs[h];
    assert Broken(last);
    RunsJoin(m, states, events, more, moreEvents);
  }

  lemma RunsJoin(m: Machine, states: seq<Machine>, events: seq<Event>, more: seq<Machine>, moreEvents: seq<Event>)
    requires RunFrom(m, states, events) && Flocks(events)
    requires RunFrom(states[|events|], more, moreEvents) && Flocks(moreEvents) && Broken(more[|moreEvents|])
    ensures LocksCanBreak(m)
  {
    hide Step, Broken;
    var all, both := states + more[1..], events + moreEvents;
    forall k | 0 <= k < |both| ensures Step(all[k], both[k], all[k + 1]) {
      if k < |events| { assert Step(states[k], events[k], states[k + 1]); }
      else { assert Step(more[k - |events|], moreEvents[k - |events|], more[k - |events| + 1]); }
    }
    assert all[|both|] == more[|moreEvents|];
    assert RunFrom(m, all, both) && Flocks(both);
  }

  /** In any reachable state in which all open lock files are one, at most one process is past the lock. */
  lemma MutualExclusion(states: seq<Machine>, events: seq<Event>, i: nat, p: Pid, q: Pid)
    requires Behaviour(states, events) && i < |states| && !Exposed(states[i])
    requires p in states[i].procs && q in states[i].procs
    requires LockOf(states[i].procs[p].stage).Some? && LockOf(states[i].procs[q].stage).Some?
    ensures p == q
  {
    EveryStateSound(states, events, i);
    SameFileSameHolder(states[i], p, q);
  }

  // ---- Who may replace an unfinished record ----------------------------------------------------

  /** One process's step replaces another one's unfinished record without its command being one that may. */
  ghost predicate Tramples(m: Machine, e: Event, m': Machine) {
    && Interrupted(m.journal) && m'.journal != m.journal
    && e.pid != m.journal.value.id
    && e.pid in m.procs && !MayProceed(m.procs[e.pid].command, m.journal)
  }

  /** The journal is as the process knows it: as it was at its gate, or its own record, or removed by itself. */
  predicate KnowsJournal(m: Machine, p: Pid) {
    p in m.procs && !m.procs[p].dryRun ==>
      && (m.procs[p].stage.Cleared? ==> m.journal == m.procs[p].stage.seen)
      && (m.procs[p].stage.Running? ==> m.journal == Some(OwnRecord(m, p, InProgress)) || m.journal == None)
  }

  lemma StepKeepsKnowledge(m: Machine, e: Event, m': Machine, p: Pid)
    requires LocksSound(m) && !Exposed(m) && KnowsJournal(m, p) && Step(m, e, m')
    ensures KnowsJournal(m', p)
  {
    hide MayProceed, PriorInstallAttempted;
    if e.pid != p && p in m.procs && m'.journal != m.journal && (m.procs[p].stage.Cleared? || m.procs[p].stage.Running?) && !m.procs[p].dryRun {
      SameFileSameHolder(m, p, e.pid);
    }
  }

  lemma {:induction false} KnowsSinceLock(states: seq<Machine>, events: seq<Event>, g: nat, i: nat, p: Pid)
    requires Behaviour(states, events) && g <= i < |states| && p in states[g].procs && !PastLock(states[g].procs[p].stage)
    requires forall j | g <= j <= i :: !Exposed(states[j])
    ensures KnowsJournal(states[i], p)
    decreases i
  {
    if i > g {
      KnowsSinceLock(states, events, g, i - 1, p);
      EveryStateSound(states, events, i - 1);
      StepKeepsKnowledge(states[i - 1], events[i - 1], states[i], p);
    }
  }

  /** A process that took its lock while all open lock files were one, and acts before that changes, replaces another one's
      unfinished record only by a command that the gate lets through. */
  lemma OnlyPermittedReplacement(states: seq<Machine>, events: seq<Event>, g: nat, i: nat)
    requires Behaviour(states, events) && g <= i < |events| && events[i].pid in states[g].procs
    requires !PastLock(states[g].procs[events[i].pid].stage)
    requires forall j | g <= j <= i :: !Exposed(states[j])
    ensures !Tramples(states[i], events[i], states[i + 1])
  {
    KnowsSinceLock(states, events, g, i, events[i].pid);
    EveryStateSound(states, events, i);
    assert Step(states[i], events[i], states[i + 1]);
    hide Behaviour, MayProceed;
  }

  /** The gate opens for a process exactly if no unfinished record is there or its command is one of those named here. */
  lemma GateOpensIff(m: Machine, p: Pid)
    requires p in m.procs && m.procs[p].stage.Locked?
    ensures Next(m, Gate(p)).Some?
       <==> || m.journal.None? || m.journal.value.status != InProgress
            || m.procs[p].command in {"repair", "uninstall", "factory-reset"}
            || (m.procs[p].command == m.journal.value.kind && m.procs[p].command in {"cluster-server-stage", "cluster-finalize"})
  {
    MayProceedIff(m.procs[p].command, m.journal);
    hide MayProceed, PriorInstallAttempted;
  }

  /** So under the conditions above it is one of these commands that changes or removes another one's unfinished record. */
  lemma ReplacersAreNamed(states: seq<Machine>, events: seq<Event>, g: nat, i: nat)
    requires Behaviour(states, events) && g <= i < |events| && events[i].pid in states[g].procs
    requires !PastLock(states[g].procs[events[i].pid].stage)
    requires forall j | g <= j <= i :: !Exposed(states[j])
    requires states[i].journal.Some? && states[i].journal.value.status == InProgress
    requires states[i].journal.value.id != events[i].pid && states[i + 1].journal != states[i].journal
    ensures events[i].pid in states[i].procs
    ensures var command := states[i].procs[events[i].pid].command;
            || command in {"repair", "uninstall", "factory-reset"}
            || (command == states[i].journal.value.kind && command in {"cluster-server-stage", "cluster-finalize"})
  {
    assert Step(states[i], events[i], states[i + 1]);
    StepHasActor(states[i], events[i], states[i + 1]);
    OnlyPermittedReplacement(states, events, g, i);
    MayProceedIff(states[i].procs[events[i].pid].command, states[i].journal);
    hide Behaviour, MayProceed, Exposed, PastLock, Step;
  }

  lemma StepHasActor(m: Machine, e: Event, m': Machine)
    requires Step(m, e, m')
    ensures e.pid in m.procs
  {
  }

  // ---- One factory reset -----------------------------------------------------------------------

  /** What a step does to open lock files, as long as it does not remove the directory. */
  lemma StepFiles(m: Machine, e: Event, m': Machine)
    requires Step(m, e, m') && !e.Wipe?
    ensures m'.path == m.path && m'.procs.Keys == m.procs.Keys
    ensures forall s, i | HasOpen(m', s, i) :: HasOpen(m, s, i) || (Opens(m, e) && s == e.pid && i == m.path)
    ensures forall s, i | HasOpen(m, s, i) && s != e.pid :: HasOpen(m', s, i)
    ensures Opens(m, e) ==> HasOpen(m', e.pid, m.path) && forall i :: !HasOpen(m, e.pid, i)
  {
    hide MayProceed, PriorInstallAttempted;
  }

  /** A command that is no dry run opens the lock file. */
  predicate Opens(m: Machine, e: Event) { e.Open? && e.pid in m.procs && !m.procs[e.pid].dryRun && m.procs[e.pid].stage == Start }

  /** It does so while some process still has another lock file open. */
  ghost predicate OpensBeside(m: Machine, e: Event) { Opens(m, e) && exists s, i | HasOpen(m, s, i) :: i != m.path }

  /** From `w` on there is a reset, with all open lock files one at its start, and no further one up to `n`. */
  ghost predicate OneReset(states: seq<Machine>, events: seq<Event>, w: nat, n: nat) {
    && Behaviour(states, events) && w < n <= |events|
    && events[w].Wipe? && OneLockFile(states[w])
    && forall k | w < k < n :: !events[k].Wipe?
  }

  /** Two files at most are open: the removed one, by those who had it open at the reset, and the one that took its place. */
  lemma {:induction false} TwoFiles(states: seq<Machine>, events: seq<Event>, w: nat, n: nat, j: nat)
    requires OneReset(states, events, w, n) && w < j <= n
    ensures states[j].path == states[w].path + 1
    ensures forall s, i | HasOpen(states[j], s, i) :: i == states[j].path || (i == states[w].path && HasOpen(states[w], s, i))
    decreases j
  {
    if j == w + 1 {
      WipeMovesPath(states[w], events[w], states[w + 1]);
    } else {
      TwoFiles(states, events, w, n, j - 1);
      StepFiles(states[j - 1], events[j - 1], states[j]);
    }
  }

  lemma WipeMovesPath(m: Machine, e: Event, m': Machine)
    requires Step(m, e, m') && e.Wipe?
    ensures m'.path == m.path + 1 && m'.procs == m.procs
    ensures forall s, i :: HasOpen(m', s, i) <==> HasOpen(m, s, i)
    ensures e.pid in m.procs && m.procs[e.pid].stage.Running?
  {
  }

  /** Who still has the removed file open had it open all along. */
  lemma {:induction false} OldFileKept(states: seq<Machine>, events: seq<Event>, w: nat, n: nat, k: nat, j: nat, s: Pid)
    requires OneReset(states, events, w, n) && w < k <= j <= n && HasOpen(states[j], s, states[w].path)
    ensures HasOpen(states[k], s, states[w].path)
    decreases j
  {
    if k < j {
      TwoFiles(states, events, w, n, j - 1);
      StepFiles(states[j - 1], events[j - 1], states[j]);
      OldFileKept(states, events, w, n, k, j - 1, s);
    }
  }

  /** Who has the new file open opened it after the reset. */
  lemma {:induction false} NewFileOpened(states: seq<Machine>, events: seq<Event>, w: nat, n: nat, j: nat, r: Pid) returns (k: nat)
    requires OneReset(states, events, w, n) && w < j <= n && HasOpen(states[j], r, states[w].path + 1)
    ensures w < k < j && Opens(states[k], events[k])
    decreases j
  {
    if j == w + 1 {
      WipeMovesPath(states[w], events[w], states[w + 1]);
      assert false;
    } else {
      TwoFiles(states, events, w, n, j - 1);
      StepFiles(states[j - 1], events[j - 1], states[j]);
      if HasOpen(states[j - 1], r, states[w].path + 1) {
        k := NewFileOpened(states, events, w, n, j - 1, r);
      } else {
        k := j - 1;
      }
    }
  }

  /** A reset lets exclusion be broken exactly when some command opens the new lock file while the removed one is still open
      somewhere: in the reset itself, or in a process that had opened it before. */
  lemma ResetExposesIff(states: seq<Machine>, events: seq<Event>, w: nat, n: nat)
    requires OneReset(states, events, w, n)
    ensures (exists j | w < j <= n :: Exposed(states[j])) <==> (exists k | w < k < n :: OpensBeside(states[k], events[k]))
  {
    if j :| w < j <= n && Exposed(states[j]) {
      var k := ExposureHasOpening(states, events, w, n, j);
    }
    if k :| w < k < n && OpensBeside(states[k], events[k]) {
      OpeningExposes(states[k], events[k], states[k + 1]);
    }
  }

  lemma OpeningExposes(m: Machine, e: Event, m': Machine)
    requires Step(m, e, m') && OpensBeside(m, e)
    ensures Exposed(m')
  {
    StepFiles(m, e, m');
    hide Step;
    var s, i :| HasOpen(m, s, i) && i != m.path;
    assert HasOpen(m', s, i) && HasOpen(m', e.pid, m.path);
  }

  lemma ExposureHasOpening(states: seq<Machine>, events: seq<Event>, w: nat, n: nat, j: nat) returns (k: nat)
    requires OneReset(states, events, w, n) && w < j <= n && Exposed(states[j])
    ensures w < k < n && OpensBeside(states[k], events[k])
  {
    TwoFiles(states, events, w, n, j);
    var p, q, a, b :| HasOpen(states[j], p, a) && HasOpen(states[j], q, b) && a != b;
    var early, late := if a == states[w].path then p else q, if a == states[w].path then q else p;
    assert HasOpen(states[j], early, states[w].path) && HasOpen(states[j], late, states[w].path + 1);
    k := NewFileOpened(states, events, w, n, j, late);
    TwoFiles(states, events, w, n, k);
    OldFileKept(states, events, w, n, k, j, early);
  }

  /** The removed file stays open only in the reset, past the lock, or in a process that had opened and not yet locked it. */
  lemma OldFileHolders(states: seq<Machine>, events: seq<Event>, w: nat, n: nat, j: nat, s: Pid)
    requires OneReset(states, events, w, n) && w < j <= n && HasOpen(states[j], s, states[w].path)
    ensures s == events[w].pid || (s in states[w].procs && states[w].procs[s].stage == Opened(states[w].path))
  {
    OldFileKept(states, events, w, n, w + 1, j, s);
    WipeMovesPath(states[w], events[w], states[w + 1]);
    EveryStateSound(states, events, w);
    var p := events[w].pid;
    if s != p && !states[w].procs[s].stage.Opened? { ResetHoldsLock(states[w], events[w], states[w + 1], s); }
  }

  lemma ResetHoldsLock(m: Machine, e: Event, m': Machine, s: Pid)
    requires LocksSound(m) && OneLockFile(m) && Step(m, e, m') && e.Wipe?
    requires s in m.procs && LockOf(m.procs[s].stage).Some?
    ensures s == e.pid
  {
    assert HasOpen(m, s, LockOf(m.procs[s].stage).value);
    assert HasOpen(m, e.pid, LockOf(m.procs[e.pid].stage).value);
  }

  /** Once nobody has the removed file open any more, all open lock files are one again. */
  lemma ExclusionReturns(states: seq<Machine>, events: seq<Event>, w: nat, n: nat)
    requires OneReset(states, events, w, n) && forall s :: !HasOpen(states[n], s, states[w].path)
    ensures OneLockFile(states[n]) && !Exposed(states[n])
  {
    TwoFiles(states, events, w, n, n);
  }

  /** Without any reset all open lock files are one in every state. */
  lemma {:induction false} NoResetNoExposure(states: seq<Machine>, events: seq<Event>, i: nat)
    requires Behaviour(states, events) && i < |states| && forall k | 0 <= k < i :: !events[k].Wipe?
    ensures OneLockFile(states[i]) && !Exposed(states[i])
  {
    if i > 0 {
      NoResetNoExposure(states, events, i - 1);
      StepFiles(states[i - 1], events[i - 1], states[i]);
    }
  }
}
