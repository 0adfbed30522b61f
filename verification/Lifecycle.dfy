/** The host-wide lock, the single-record journal, and the dispatch of one mutating command. */
module Lifecycle {
  import opened SystemCalls
  import opened Text

  type Pid = nat

  datatype Status = InProgress | Completed | Failed | RolledBack

  /** A journal record; `id` stands for the random transaction identifier. */
  datatype Record = Record(id: nat, kind: string, status: Status, startedAt: int, completedAt: Option<int>)

  /** The journal file. It is replaced atomically, so it is never seen half written. */
  datatype Stored = Absent | Holds(record: Record) | Corrupt(text: string)

  class JournalFile {
    var stored: Stored
    constructor (stored: Stored)
      ensures this.stored == stored
    {
      this.stored := stored;
    }
  }

  /** A running operation, updated in place as it ends. */
  class Transaction {
    const id: nat
    const kind: string
    const startedAt: int
    var status: Status
    var completedAt: Option<int>

    constructor (id: nat, kind: string, startedAt: int)
      ensures Value() == Record(id, kind, InProgress, startedAt, None)
    {
      this.id, this.kind, this.startedAt, this.status, this.completedAt := id, kind, startedAt, InProgress, None;
    }

    function Value(): Record
      reads this
    {
      Record(id, kind, status, startedAt, completedAt)
    }
  }

  class Journal {
    const file: JournalFile
    const dryRun: bool
    const calls: Calls

    constructor (file: JournalFile, dryRun: bool, calls: Calls)
      ensures this.file == file && this.dryRun == dryRun && this.calls == calls
    {
      this.file, this.dryRun, this.calls := file, dryRun, calls;
    }

    method Current() returns (r: Outcome<Option<Record>>)
      modifies calls
      ensures calls.failed >= old(calls.failed)
      ensures r.Ok? <==> calls.failed == old(calls.failed) && !file.stored.Corrupt?
      ensures r.Ok? ==> file.stored == if r.value.Some? then Holds(r.value.value) else Absent
      ensures file.stored.Corrupt? ==> r.Err?
    {
      var ok := calls.Attempt();
      if !ok { return Err; }
      match file.stored {
        case Absent => return Ok(None);
        case Holds(record) => return Ok(Some(record));
        case Corrupt(_) => return Err;
      }
    }

    method Begin(id: nat, kind: string, now: int) returns (txn: Option<Transaction>)
      modifies file, calls
      ensures calls.failed >= old(calls.failed) && (txn.Some? <==> calls.failed == old(calls.failed))
      ensures txn.Some? ==> fresh(txn.value) && txn.value.Value() == Record(id, kind, InProgress, now, None)
      ensures file.stored == if txn.Some? && !dryRun then Holds(Record(id, kind, InProgress, now, None)) else old(file.stored)
    {
      var started := new Transaction(id, kind, now);
      var ok := Persist(started);
      txn := if ok then Some(started) else None;
    }

    /** The transaction becomes terminal even when the record cannot be written. */
    method Finish(txn: Transaction, status: Status, now: int) returns (ok: bool)
      modifies file, txn, calls
      ensures calls.failed >= old(calls.failed) && (ok <==> calls.failed == old(calls.failed))
      ensures txn.Value() == old(txn.Value()).(status := status, completedAt := Some(now))
      ensures file.stored == if ok && !dryRun then Holds(txn.Value()) else old(file.stored)
      ensures dryRun ==> ok
    {
      txn.status := status;
      txn.completedAt := Some(now);
      ok := Persist(txn);
    }

    method Persist(txn: Transaction) returns (ok: bool)
      modifies file, calls
      ensures calls.failed >= old(calls.failed) && (ok <==> calls.failed == old(calls.failed))
      ensures file.stored == if ok && !dryRun then Holds(txn.Value()) else old(file.stored)
      ensures dryRun ==> ok
    {
      if dryRun { return true; }
      ok := calls.Attempt();
      if ok { file.stored := Holds(txn.Value()); }
    }
  }

  /** An advisory lock on one file; the file keeps the holder's process id for diagnostics. */
  class LockFile {
    var holder: Option<Pid>
    var text: Option<Pid>

    constructor ()
      ensures holder.None? && text.None?
    {
      this.holder, this.text := None, None;
    }

    /** Never waits: it fails at once when the lock is held, and gives the lock back if the file cannot be written. */
    method Acquire(me: Pid, calls: Calls) returns (ok: bool)
      modifies this, calls
      ensures calls.failed >= old(calls.failed) && (ok <==> old(holder).None? && calls.failed == old(calls.failed))
      ensures ok ==> old(holder).None? && holder == Some(me) && text == Some(me)
      ensures !ok ==> holder == old(holder)
      ensures old(holder).Some? ==> text == old(text)
    {
      ok := calls.Attempt();
      if !ok || holder.Some? { return false; }
      holder := Some(me);
      ok := calls.Attempt();
      if !ok { holder := None; return; }
      text := None;
      ok := calls.Attempt();
      if !ok { holder := None; return; }
      text := Some(me);
    }

    method Release()
      modifies this`holder
      ensures holder.None?
    {
      holder := None;
    }
  }

  // ---- The recovery gate -----------------------------------------------------------------------

  predicate AllowsInterruptedRecovery(command: string) {
    command == "repair" || command == "uninstall" || command == "factory-reset"
  }

  predicate Interrupted(current: Option<Record>) { current.Some? && current.value.status == InProgress }

  predicate MayProceed(command: string, current: Option<Record>) {
    Interrupted(current) ==>
      || (command == "cluster-server-stage" && current.value.kind == "cluster-server-stage")
      || (command == "cluster-finalize" && current.value.kind == "cluster-finalize")
      || AllowsInterruptedRecovery(command)
  }

  function PriorInstallAttempted(current: Option<Record>): bool {
    Interrupted(current) && current.value.kind == "install"
  }

  /** The flag that would let an installation reject an unrecorded service can only reach a recovery command. */
  lemma InstallNeverSeesPriorAttempt(command: string, current: Option<Record>)
    requires MayProceed(command, current)
    ensures command == "install" ==> !PriorInstallAttempted(current)
    ensures PriorInstallAttempted(current) ==> command in {"repair", "uninstall", "factory-reset"}
  {
  }

  /** Over an unfinished record goes a command that repairs or clears the host, or the staging or finalizing that left it;
      over anything else, every command. */
  lemma MayProceedIff(command: string, current: Option<Record>)
    ensures MayProceed(command, current)
       <==> || current.None? || current.value.status != InProgress
            || command in {"repair", "uninstall", "factory-reset"}
            || (command == current.value.kind && command in {"cluster-server-stage", "cluster-finalize"})
  {
  }

  /** The command's own work: arbitrary, but only a factory reset touches the journal, by removing its directory. */
  method RunCommand(file: JournalFile, command: string, dryRun: bool) returns (succeeded: bool)
    modifies file
    ensures file.stored == old(file.stored) || (command == "factory-reset" && !dryRun && file.stored == Absent)
  {
    succeeded := *;
    var wiped: bool := *;
    if command == "factory-reset" && !dryRun && wiped { file.stored := Absent; }
  }

  datatype Result = Result(succeeded: bool, ran: bool, priorInstallAttempted: bool, recorded: bool)

  /** Commands whose release and inventory, once a bundle directory is given, are verified before the lock is taken. */
  predicate NeedsPrecheck(command: string, bundleDir: string) {
    (command == "install" || command == "cluster-server-stage" || command == "cluster-finalize") && bundleDir != ""
  }

  function CurrentOf(stored: Stored): Option<Record> { if stored.Holds? then Some(stored.record) else None }

  method Dispatch(lock: LockFile, file: JournalFile, calls: Calls, me: Pid, command: string, bundleDir: string, dryRun: bool,
                  prechecked: bool, id: nat, now: int)
    returns (r: Result)
    modifies lock, file, calls
    ensures calls.failed >= old(calls.failed)
    ensures NeedsPrecheck(command, bundleDir) && !prechecked ==> !r.ran
    ensures calls.failed == old(calls.failed) ==>
              (r.ran <==> && (NeedsPrecheck(command, bundleDir) ==> prechecked) && (dryRun || old(lock.holder).None?)
                          && !old(file.stored).Corrupt? && MayProceed(command, CurrentOf(old(file.stored))))
    ensures dryRun ==> file.stored == old(file.stored) && lock.holder == old(lock.holder) && lock.text == old(lock.text)
    ensures lock.holder == old(lock.holder)
    ensures !r.ran ==> !r.succeeded && (file.stored == old(file.stored))
    ensures !dryRun && old(lock.holder).Some? ==> !r.ran
    ensures r.ran ==> MayProceed(command, CurrentOf(old(file.stored)))
    ensures r.ran && !dryRun && r.recorded ==>
              file.stored == Holds(Record(id, command, if r.succeeded then Completed else Failed, now, Some(now)))
    ensures r.ran && !dryRun && !r.recorded ==>
              || file.stored == Holds(Record(id, command, InProgress, now, None))
              || (command == "factory-reset" && file.stored == Absent)
    ensures r.ran && !dryRun && calls.failed == old(calls.failed) ==> r.recorded
    ensures r.ran && command == "install" ==> !r.priorInstallAttempted
    ensures r.ran ==> (r.priorInstallAttempted <==> old(file.stored).Holds? && old(file.stored).record.status == InProgress
                                                    && old(file.stored).record.kind == "install")
    ensures calls.failed == old(calls.failed) && (dryRun || old(lock.holder).None?)
            && (bundleDir == "" || prechecked || command !in {"install", "cluster-server-stage", "cluster-finalize"}) ==>
              match old(file.stored)
              case Absent => r.ran
              case Corrupt(_) => !r.ran
              case Holds(record) =>
                if record.status != InProgress then r.ran
                else r.ran <==> || command in {"repair", "uninstall", "factory-reset"}
                                || (command == record.kind && command in {"cluster-server-stage", "cluster-finalize"})
    ensures bundleDir != "" && !prechecked && command in {"install", "cluster-server-stage", "cluster-finalize"} ==>
              !r.ran && lock.text == old(lock.text)
  {
    r := Result(false, false, false, false);
    MayProceedIff(command, CurrentOf(file.stored));
    if NeedsPrecheck(command, bundleDir) && !prechecked { return; }
    if !dryRun {
      var locked := lock.Acquire(me, calls);
      if !locked { return; }
    }
    r := DispatchLocked(file, calls, command, dryRun, id, now);
    if !dryRun { lock.Release(); }
  }

  method DispatchLocked(file: JournalFile, calls: Calls, command: string, dryRun: bool, id: nat, now: int) returns (r: Result)
    modifies file, calls
    ensures calls.failed >= old(calls.failed)
    ensures calls.failed == old(calls.failed) ==>
              (r.ran <==> !old(file.stored).Corrupt? && MayProceed(command, CurrentOf(old(file.stored))))
    ensures dryRun ==> file.stored == old(file.stored)
    ensures !r.ran ==> !r.succeeded && file.stored == old(file.stored)
    ensures r.ran ==> MayProceed(command, CurrentOf(old(file.stored)))
    ensures r.ran && !dryRun && r.recorded ==>
              file.stored == Holds(Record(id, command, if r.succeeded then Completed else Failed, now, Some(now)))
    ensures r.ran && !dryRun && !r.recorded ==>
              || file.stored == Holds(Record(id, command, InProgress, now, None))
              || (command == "factory-reset" && file.stored == Absent)
    ensures r.ran && !dryRun && calls.failed == old(calls.failed) ==> r.recorded
    ensures r.ran && command == "install" ==> !r.priorInstallAttempted
    ensures r.ran ==> r.priorInstallAttempted == PriorInstallAttempted(CurrentOf(old(file.stored)))
  {
    r := Result(false, false, false, false);
    var journal := new Journal(file, dryRun, calls);
    var current := journal.Current();
    if current.Err? { return; }
    if !MayProceed(command, current.value) { return; }
    var prior := PriorInstallAttempted(current.value);
    var txn := journal.Begin(id, command, now);
    if txn.None? { return; }
    var succeeded := RunCommand(file, command, dryRun);
    var recorded := journal.Finish(txn.value, if succeeded then Completed else Failed, now);
    r := Result(succeeded, true, prior, recorded && !dryRun);
  }
}
