/** Two runs in which a factory reset lets two commands past the lock at once. */
module DispatchWitness {
  import opened Text
  import opened Lifecycle
  import opened DispatchProtocol
  import opened DispatchExclusion

  function Racers(reset: Stage, install: Stage, backup: Stage): map<Pid, Process> {
    map[0 := Process("factory-reset", false, reset), 1 := Process("install", false, install), 2 := Process("backup", false, backup)]
  }

  lemma Racing(m: Machine, a: Stage, b: Stage, c: Stage, s: Stage)
    requires m.procs == Racers(a, b, c)
    ensures m.procs.Keys == {0, 1, 2}
    ensures At(m, 0, s) == m.(procs := Racers(s, b, c))
    ensures At(m, 1, s) == m.(procs := Racers(a, s, c))
    ensures At(m, 2, s) == m.(procs := Racers(a, b, s))
    ensures m.procs[0] == Process("factory-reset", false, a)
    ensures m.procs[1] == Process("install", false, b)
    ensures m.procs[2] == Process("backup", false, c)
  {
  }

  lemma RacerOpens(m: Machine, p: Pid)
    requires p in m.procs && m.procs[p].stage == Start && !m.procs[p].dryRun
    ensures Next(m, Open(p)) == Some(At(m, p, Opened(m.path)))
  {
  }

  lemma RacerLocks(m: Machine, p: Pid, inode: nat)
    requires p in m.procs && m.procs[p].stage == Opened(inode) && inode !in m.held
    ensures Next(m, Flock(p)) == Some(At(m, p, Locked(Some(inode))).(held := m.held[inode := p]))
  {
  }

  lemma RacerClears(m: Machine, p: Pid, lock: Option<nat>)
    requires p in m.procs && m.procs[p].stage == Locked(lock) && !Interrupted(m.journal)
    ensures Next(m, Gate(p)) == Some(At(m, p, Cleared(lock, m.journal, false)))
  {
  }

  lemma RacerBegins(m: Machine, p: Pid, lock: Option<nat>, seen: Option<Record>)
    requires p in m.procs && m.procs[p].stage == Cleared(lock, seen, false) && !m.procs[p].dryRun
    ensures Next(m, Begin(p)) == Some(At(m, p, Running(lock)).(journal := Some(OwnRecord(m, p, InProgress))))
  {
  }

  lemma RacerEnds(m: Machine, p: Pid, inode: nat)
    requires p in m.procs && m.procs[p].stage == Running(Some(inode)) && !m.procs[p].dryRun
    ensures Next(m, Finish(p, Completed, true)) == Some(At(m, p, Finished(Some(inode), true)).(journal := Some(OwnRecord(m, p, Completed))))
    ensures m.procs[p].command == "factory-reset" ==>
              Next(m, Wipe(p)) == Some(m.(journal := None, path := m.path + 1))
  {
  }

  lemma RacerLeaves(m: Machine, p: Pid, inode: nat)
    requires p in m.procs && m.procs[p].stage == Finished(Some(inode), true)
    ensures Next(m, Exit(p)) == Some(At(m, p, Gone(true)).(held := m.held - {inode}))
  {
  }

  /** A factory reset up to its start. */
  lemma StartPart() returns (states: seq<Machine>, events: seq<Event>)
    ensures |states| == |events| + 1 && states[0] == Machine(Racers(Start, Start, Start), None, 0, map[])
    ensures states[|events|]
         == Machine(Racers(Running(Some(0)), Start, Start), Some(Record(0, "factory-reset", InProgress, 0, None)), 0, map[0 := 0])
    ensures forall i | 0 <= i < |events| :: Step(states[i], events[i], states[i + 1])
  {
    hide Racers, Next, At;
    var m0 := Machine(Racers(Start, Start, Start), None, 0, map[]);
    Racing(m0, Start, Start, Start, Opened(0));
    var m1 := m0.(procs := Racers(Opened(0), Start, Start));
    Racing(m1, Opened(0), Start, Start, Locked(Some(0)));
    var m2 := m1.(procs := Racers(Locked(Some(0)), Start, Start), held := map[0 := 0]);
    Racing(m2, Locked(Some(0)), Start, Start, Cleared(Some(0), None, false));
    var m3 := m2.(procs := Racers(Cleared(Some(0), None, false), Start, Start));
    Racing(m3, Cleared(Some(0), None, false), Start, Start, Running(Some(0)));
    var m4 := m3.(procs := Racers(Running(Some(0)), Start, Start), journal := Some(Record(0, "factory-reset", InProgress, 0, None)));
    RacerOpens(m0, 0);
    RacerLocks(m1, 0, 0);
    RacerClears(m2, 0, Some(0));
    RacerBegins(m3, 0, Some(0), None);
    RacerRecord(m3, 0);
    states, events := [m0, m1, m2, m3, m4], [Open(0), Flock(0), Gate(0), Begin(0)];
  }

  /** An installation opens the old lock file; the reset removes it and exits. */
  lemma ResetPart(done: Record) returns (states: seq<Machine>, events: seq<Event>)
    requires done == Record(0, "factory-reset", Completed, 0, Some(0))
    ensures |states| == |events| + 1
    ensures states[0]
         == Machine(Racers(Running(Some(0)), Start, Start), Some(Record(0, "factory-reset", InProgress, 0, None)), 0, map[0 := 0])
    ensures states[|events|] == Machine(Racers(Gone(true), Opened(0), Start), Some(done), 1, map[])
    ensures forall i | 0 <= i < |events| :: Step(states[i], events[i], states[i + 1])
  {
    hide Racers, Next, At;
    var m4 := Machine(Racers(Running(Some(0)), Start, Start), Some(Record(0, "factory-reset", InProgress, 0, None)), 0, map[0 := 0]);
    Racing(m4, Running(Some(0)), Start, Start, Opened(0));
    var m5 := m4.(procs := Racers(Running(Some(0)), Opened(0), Start));
    Racing(m5, Running(Some(0)), Opened(0), Start, Start);
    var m6 := m5.(journal := None, path := 1);
    Racing(m6, Running(Some(0)), Opened(0), Start, Finished(Some(0), true));
    var m7 := m6.(procs := Racers(Finished(Some(0), true), Opened(0), Start), journal := Some(done));
    Racing(m7, Finished(Some(0), true), Opened(0), Start, Gone(true));
    var m8 := m7.(procs := Racers(Gone(true), Opened(0), Start), held := map[]);
    assert map[0 := 0] - {0} == map[];
    RacerOpens(m4, 1);
    RacerEnds(m5, 0, 0);
    RacerEnds(m6, 0, 0);
    RacerLeaves(m7, 0, 0);
    states, events := [m4, m5, m6, m7, m8], [Open(1), Wipe(0), Finish(0, Completed, true), Exit(0)];
  }

  /** The reset removes the lock file; an installation opens and locks the new one while the reset still runs. */
  lemma BesidePart() returns (states: seq<Machine>, events: seq<Event>)
    ensures |states| == |events| + 1
    ensures states[0]
         == Machine(Racers(Running(Some(0)), Start, Start), Some(Record(0, "factory-reset", InProgress, 0, None)), 0, map[0 := 0])
    ensures states[|events|] == Machine(Racers(Running(Some(0)), Locked(Some(1)), Start), None, 1, map[0 := 0, 1 := 1])
    ensures forall i | 0 <= i < |events| :: Step(states[i], events[i], states[i + 1])
  {
    hide Racers, Next, At;
    var m4 := Machine(Racers(Running(Some(0)), Start, Start), Some(Record(0, "factory-reset", InProgress, 0, None)), 0, map[0 := 0]);
    Racing(m4, Running(Some(0)), Start, Start, Start);
    var m5 := m4.(journal := None, path := 1);
    Racing(m5, Running(Some(0)), Start, Start, Opened(1));
    var m6 := m5.(procs := Racers(Running(Some(0)), Opened(1), Start));
    Racing(m6, Running(Some(0)), Opened(1), Start, Locked(Some(1)));
    var m7 := m6.(procs := Racers(Running(Some(0)), Locked(Some(1)), Start), held := map[0 := 0, 1 := 1]);
    RacerEnds(m4, 0, 0);
    RacerOpens(m5, 1);
    RacerLocks(m6, 1, 1);
    states, events := [m4, m5, m6, m7], [Wipe(0), Open(1), Flock(1)];
  }

  lemma RacerRecord(m: Machine, p: Pid)
    requires p in m.procs
    ensures OwnRecord(m, p, InProgress) == Record(p, m.procs[p].command, InProgress, 0, None)
  {
  }

  lemma InstallTramplesBackup(m: Machine, m': Machine)
    requires m.journal == Some(Record(2, "backup", InProgress, 0, None)) && m'.journal != m.journal
    requires 1 in m.procs && m.procs[1].command == "install"
    ensures Tramples(m, Begin(1), m')
  {
  }

  /** The installation locks the file that is gone; a backup opens the new one. */
  lemma RacePart(done: Record) returns (states: seq<Machine>, events: seq<Event>)
    requires done == Record(0, "factory-reset", Completed, 0, Some(0))
    ensures |states| == |events| + 1
    ensures states[0] == Machine(Racers(Gone(true), Opened(0), Start), Some(done), 1, map[])
    ensures states[|events|] == Machine(Racers(Gone(true), Cleared(Some(0), Some(done), false), Opened(1)), Some(done), 1, map[0 := 1])
    ensures forall i | 0 <= i < |events| :: Step(states[i], events[i], states[i + 1])
  {
    hide Racers, Next, At, MayProceed, OwnRecord;
    var gone, cleared0 := Gone(true), Cleared(Some(0), Some(done), false);
    var m0 := Machine(Racers(gone, Opened(0), Start), Some(done), 1, map[]);
    Racing(m0, gone, Opened(0), Start, Locked(Some(0)));
    var m1 := m0.(procs := Racers(gone, Locked(Some(0)), Start), held := map[0 := 1]);
    Racing(m1, gone, Locked(Some(0)), Start, cleared0);
    var m2 := m1.(procs := Racers(gone, cleared0, Start));
    Racing(m2, gone, cleared0, Start, Opened(1));
    var m3 := m2.(procs := Racers(gone, cleared0, Opened(1)));
    RacerLocks(m0, 1, 0);
    RacerClears(m1, 1, Some(0));
    RacerOpens(m2, 2);
    states, events := [m0, m1, m2, m3], [Flock(1), Gate(1), Open(2)];
  }

  /** The backup locks the new file, and both begin. */
  lemma TramplePart(done: Record) returns (states: seq<Machine>, events: seq<Event>)
    requires done == Record(0, "factory-reset", Completed, 0, Some(0))
    ensures |states| == |events| + 1
    ensures states[0] == Machine(Racers(Gone(true), Cleared(Some(0), Some(done), false), Opened(1)), Some(done), 1, map[0 := 1])
    ensures forall i | 0 <= i < |events| :: Step(states[i], events[i], states[i + 1])
    ensures |events| > 0 && Tramples(states[|events| - 1], events[|events| - 1], states[|events|])
  {
    hide Racers, Next, At, Tramples, MayProceed, OwnRecord;
    var gone, cleared0, cleared1 := Gone(true), Cleared(Some(0), Some(done), false), Cleared(Some(1), Some(done), false);
    var m3 := Machine(Racers(gone, cleared0, Opened(1)), Some(done), 1, map[0 := 1]);
    Racing(m3, gone, cleared0, Opened(1), Locked(Some(1)));
    var m4 := m3.(procs := Racers(gone, cleared0, Locked(Some(1))), held := map[0 := 1, 1 := 2]);
    Racing(m4, gone, cleared0, Locked(Some(1)), cleared1);
    var m5 := m4.(procs := Racers(gone, cleared0, cleared1));
    Racing(m5, gone, cleared0, cleared1, Running(Some(1)));
    var m6 := m5.(procs := Racers(gone, cleared0, Running(Some(1))), journal := Some(Record(2, "backup", InProgress, 0, None)));
    Racing(m6, gone, cleared0, Running(Some(1)), Running(Some(0)));
    var m7 := m6.(procs := Racers(gone, Running(Some(0)), Running(Some(1))), journal := Some(Record(1, "install", InProgress, 0, None)));
    RacerLocks(m3, 2, 1);
    RacerClears(m4, 2, Some(1));
    RacerBegins(m5, 2, Some(1), Some(done));
    RacerRecord(m5, 2);
    RacerBegins(m6, 1, Some(0), Some(done));
    RacerRecord(m6, 1);
    InstallTramplesBackup(m6, m7);
    states, events := [m3, m4, m5, m6, m7], [Flock(2), Gate(2), Begin(2), Begin(1)];
  }

  lemma Append(s: seq<Machine>, e: seq<Event>, t: seq<Machine>, f: seq<Event>)
    requires |s| == |e| + 1 && |t| == |f| + 1 && s[|e|] == t[0]
    requires forall i | 0 <= i < |e| :: Step(s[i], e[i], s[i + 1])
    requires forall i | 0 <= i < |f| :: Step(t[i], f[i], t[i + 1])
    ensures forall i | 0 <= i < |e + f| :: Step((s + t[1..])[i], (e + f)[i], (s + t[1..])[i + 1])
  {
    hide Step;
    var states, events := s + t[1..], e + f;
    forall i | 0 <= i < |events| ensures Step(states[i], events[i], states[i + 1]) {
      if i < |e| { assert Step(s[i], e[i], s[i + 1]); } else { assert Step(t[i - |e|], f[i - |e|], t[i - |e| + 1]); }
    }
  }

  /** First failing input: a process that opened the lock file before a factory reset removed it locks the removed file
      afterwards, while another one locks the new file; the second then begins over the first one's unfinished record. */
  lemma FactoryResetBreaksExclusion() returns (states: seq<Machine>, events: seq<Event>)
    ensures Behaviour(states, events)
    ensures exists i | 0 <= i < |events| :: Tramples(states[i], events[i], states[i + 1])
  {
    var done := Record(0, "factory-reset", Completed, 0, Some(0));
    var r, d := StartPart();
    var s, e := ResetPart(done);
    var t, f := RacePart(done);
    var u, g := TramplePart(done);
    hide Step, Tramples;
    Append(r, d, s, e);
    Append(r + s[1..], d + e, t, f);
    Append(r + s[1..] + t[1..], d + e + f, u, g);
    states, events := r + s[1..] + t[1..] + u[1..], d + e + f + g;
    assert Tramples(states[|events| - 1], events[|events| - 1], states[|events|]);
  }

  /** Second failing input: between the removal and the exit of a factory reset another command gets past the new lock. */
  lemma ResetRunsBesideCommand() returns (states: seq<Machine>, events: seq<Event>)
    ensures Behaviour(states, events) && |events| > 0 && Broken(states[|events|])
    ensures 0 in states[|events|].procs && states[|events|].procs[0] == Process("factory-reset", false, Running(Some(0)))
  {
    var r, d := StartPart();
    var s, e := BesidePart();
    hide Step;
    Append(r, d, s, e);
    states, events := r + s[1..], d + e;
    var last := states[|events|];
    assert last.procs == Racers(Running(Some(0)), Locked(Some(1)), Start);
    assert LockOf(last.procs[0].stage).Some? && LockOf(last.procs[1].stage).Some?;
  }
}
