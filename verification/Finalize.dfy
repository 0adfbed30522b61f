/** `cluster-finalize`: the one path from a staged substrate to an installed appliance. */
module Finalize {
  import opened Text
  import opened ClusterTopology
  import opened Keys
  import opened HostDisk
  import K3sConfig
  import Readiness
  import O = Ownership
  import R = Receipt

  /** One run: its verified inputs, and what it is told by systemd (twice), by Kubernetes and by the port probe. */
  datatype Run = Run(
    bundle: R.Bundle, id: R.Identity, inv: Inventory, nodeName: string, local: set<Address>, dataDir: string,
    sans: seq<Address>, signal: Option<O.Signal>, reachable: bool, items: Option<seq<Readiness.Item>>,
    answers: map<Endpoint, string>, uids: map<string, string>, ca: Option<string>, installSignal: Option<O.Signal>,
    portsInUse: Option<set<nat>>, freshKey: Key, now: int)

  predicate LocalServer(run: Run) {
    var n := FindNode(run.inv.nodes, run.nodeName);
    n.Some? && n.value.address in run.local
  }

  predicate Admits(run: Run, staged: Option<R.BootstrapState>) {
    && run.bundle.embeddedEtcd
    && ClusterTopology.Valid(run.inv)
    && run.nodeName == run.inv.bootstrapNode
    && LocalServer(run)
    && staged.Some? && R.Valid(staged.value)
    && (if staged.value.phase == R.Finalized
        then R.MatchesSubstrate(staged.value, run.inv, run.bundle.k3sVersion, run.nodeName, run.id)
        else staged.value.phase == R.ServerReady && R.Matches(staged.value, run.inv, run.bundle, run.nodeName, run.id))
    && staged.value.signer.KeyDigestOf?
  }

  /** Kubernetes shows exactly the planned servers, ready, and every direct API endpoint answers. */
  ghost predicate SubstrateReady(run: Run) {
    && run.reachable && run.items.Some?
    && (exists f :: Readiness.Pairing(f, run.inv.nodes, run.items.value, run.bundle.k3sVersion, map[]))
    && forall n | n in run.inv.nodes :: Https(n.address) in run.answers && Trim(run.answers[Https(n.address)]) == "ok"
  }

  predicate ValidUID(uid: string) { !Blank(uid) && forall i | 0 <= i < |uid| :: uid[i] !in {' ', '\t', '\r', '\n'} }

  predicate UIDsKnown(run: Run) {
    forall i | 0 <= i < |run.inv.nodes| ::
      run.inv.nodes[i].name in run.uids && ValidUID(run.uids[run.inv.nodes[i].name])
  }

  function UIDOf(run: Run, name: string): string { if name in run.uids then run.uids[name] else "" }

  function Members(run: Run): (r: seq<R.Member>) {
    seq(|run.inv.nodes|, i requires 0 <= i < |run.inv.nodes| =>
      R.Member(run.inv.nodes[i].name, UIDOf(run, run.inv.nodes[i].name)))
  }

  /** The installed receipt this run would write for the staged cluster `s`. */
  function NewInstalled(run: Run, s: R.BootstrapState): R.InstalledState {
    R.InstalledState(s.clusterID, Trim(run.bundle.version), run.bundle.releaseID, run.id.name, run.id.profile,
                     run.id.zone, true, true, Trim(run.bundle.version), Members(run))
  }

  function OwnerOf(installed: Option<R.InstalledState>): Option<O.Owner> {
    if installed.None? then None else Some(O.Owner(installed.value.owned, installed.value.ownerVersion))
  }

  // ---- What a single write may do --------------------------------------------------------------

  /** A run that is past everything finalize asks before it starts to install: the staged server runs, Kubernetes is ready, the
      servers' UIDs and the certificate authority are known. */
  ghost predicate Passed(run: Run, staged: Option<R.BootstrapState>) {
    && staged.Some? && Admits(run, staged) && staged.value.phase == R.ServerReady
    && run.signal.Some? && run.signal.value.active
    && SubstrateReady(run) && UIDsKnown(run) && run.ca.Some?
  }

  /** Such a run on a host that holds the release's own binary. */
  ghost predicate Underway(run: Run, d: Disk) { Passed(run, d.receipt) && d.binary == Some(run.bundle.k3sVersion) }

  predicate PortsFree(run: Run) { run.portsInUse == Some({}) }

  predicate UnitMissed(run: Run) { run.installSignal.Some? && !run.installSignal.value.detected }

  /** The ports that a K3s server listens on. */
  const REQUIRED_PORTS: set<nat> := {6443, 10250, 8472}

  /** The preflight's view of the probed ports: those of a K3s service that was detected and runs are its own. */
  predicate PortsClear(run: Run) {
    && run.installSignal.Some? && run.portsInUse.Some?
    && (if run.installSignal.value.detected && run.installSignal.value.active
        then run.portsInUse.value - REQUIRED_PORTS else run.portsInUse.value) == {}
  }

  /** The ownership decision for a host in this state. */
  predicate DecidesFresh(run: Run, d: Disk) {
    && run.installSignal.Some?
    && O.DecideOwnership(Trim(run.bundle.version), OwnerOf(d.installed), run.installSignal.value, false, false) == O.FreshInstall
  }

  /** Installation wipes the K3s data directory when a new PostgreSQL finds its directory empty, the decision is on a fresh
      install, and the preflight finds the ports free. */
  predicate WipesData(run: Run, d: Disk) { (run.bundle.postgres ==> d.db == map[]) && DecidesFresh(run, d) && PortsClear(run) }

  /** An owned receipt of which no K3s artifact is left. */
  predicate StaleInstall(run: Run, d: Disk) {
    && d.installed.Some? && d.installed.value.owned
    && UnitMissed(run)
    && d.unit == NoUnit && d.binary.None? && d.config.None?
  }

  predicate FinalReceipt(run: Run, s: R.BootstrapState, s': R.BootstrapState) {
    && s.phase == R.ServerReady && R.Valid(s')
    && s' == s.(phase := R.Finalized, nodeUID := UIDOf(run, run.nodeName), updatedAt := run.now)
  }

  ghost predicate RecordWrite(run: Run, d: Disk, d': Disk) {
    && d.receipt.Some?
    && var s := d.receipt.value;
       || (d.installed == Some(NewInstalled(run, s)) && d'.receipt.Some?
           && FinalReceipt(run, s, d'.receipt.value) && d' == d.(receipt := d'.receipt))
       || (d.installed.None? && d.signer.Some? && KeyDigestOf(d.signer.value) == s.signer
           && d' == d.(installed := Some(NewInstalled(run, s))))
       || (d.signer.None? && d' == d.(signer := Some(run.freshKey)))
  }

  predicate KeepsDatabase(d: Disk, d': Disk) {
    forall e | e in d.db :: e in d'.db && d'.db[e] == d.db[e]
  }

  predicate HostWrite(run: Run, d: Disk, d': Disk) {
    && d'.receipt == d.receipt && d'.installed == d.installed && d'.signer == d.signer
    && (d.data <= d'.data || WipesData(run, d))
  }

  /** Nothing is written before the gates are passed; without the binary, which only a rollback removes, only the database
      directory changes. `open` says that it may be cleared: nothing in it was older than the stage. */
  ghost predicate Write(run: Run, open: bool, d: Disk, d': Disk) {
    && Passed(run, d.receipt)
    && (Underway(run, d) || d' == d.(db := d'.db))
    && (RecordWrite(run, d, d') || HostWrite(run, d, d'))
    && (!open ==> KeepsDatabase(d, d'))
  }

  ghost predicate Extends(run: Run, open: bool, before: seq<Disk>, after: seq<Disk>) {
    && before != [] && before <= after
    && forall i | |before| <= i < |after| :: Write(run, open, after[i - 1], after[i])
  }

  lemma ExtendsTransitive(run: Run, open: bool, a: seq<Disk>, b: seq<Disk>, c: seq<Disk>)
    requires Extends(run, open, a, b) && Extends(run, open, b, c)
    ensures Extends(run, open, a, c)
  {
    forall i | |a| <= i < |c| ensures Write(run, open, c[i - 1], c[i]) {
      if i < |b| { assert Write(run, open, b[i - 1], b[i]); }
    }
  }

  /** Some entry of the database directory is older than the stage recorded in the receipt. */
  predicate Predates(d: Disk) {
    d.receipt.Some? && exists e | e in d.db :: d.db[e] < d.receipt.value.createdAt
  }

  // ---- Gates -----------------------------------------------------------------------------------

  method Admit(h: Host, run: Run) returns (ok: bool)
    ensures ok <==> Admits(run, h.disk.receipt)
  {
    if !run.bundle.embeddedEtcd { return false; }
    ok := ClusterTopology.Validate(run.inv);
    if !ok || run.nodeName != run.inv.bootstrapNode || !LocalServer(run) { return false; }
    if h.disk.receipt.None? || !R.Valid(h.disk.receipt.value) { return false; }
    var s := h.disk.receipt.value;
    if s.phase != R.ServerReady && s.phase != R.Finalized { return false; }
    if s.phase == R.Finalized {
      if !R.MatchesSubstrate(s, run.inv, run.bundle.k3sVersion, run.nodeName, run.id) { return false; }
    } else if !R.Matches(s, run.inv, run.bundle, run.nodeName, run.id) {
      return false;
    }
    return s.signer.KeyDigestOf?;
  }

  /** The first half of the gates, on the host and on the cluster. */
  ghost predicate Ready(run: Run, d: Disk) {
    && run.signal.Some? && run.signal.value.active
    && d.binary == Some(run.bundle.k3sVersion)
    && SubstrateReady(run)
  }

  method SubstrateGate(h: Host, run: Run) returns (ok: bool)
    requires Admits(run, h.disk.receipt)
    modifies h`failures
    ensures h.failures >= old(h.failures) && (ok ==> Ready(run, h.disk))
    ensures Ready(run, h.disk) && h.failures == old(h.failures) ==> ok
  {
    AdmittedInputs(run, h.disk.receipt);
    hide Admits, ClusterTopology.Valid, Readiness.Pairing, Trim, Blank;
    if run.signal.None? || !run.signal.value.active { return false; }
    var version := h.Version();
    if version != Some(run.bundle.k3sVersion) { return false; }
    var nodes := Readiness.ValidateNodeReadiness(run.inv, run.reachable, run.bundle.k3sVersion, map[], run.items);
    var apis := Readiness.ValidateAPIEndpoints(run.inv, run.reachable, run.answers);
    ok := nodes && apis;
  }

  lemma AdmittedInputs(run: Run, staged: Option<R.BootstrapState>)
    requires Admits(run, staged)
    ensures staged.Some? && R.Valid(staged.value) && staged.value.createdAt != R.ZERO_TIME && staged.value.clusterID != ""
    ensures staged.value.phase == R.ServerReady || staged.value.phase == R.Finalized
    ensures ClusterTopology.Valid(run.inv) && !Blank(run.bundle.k3sVersion) && run.nodeName == run.inv.bootstrapNode
  {
    assert Blank("");
  }

  /** The UID of every planned server, in inventory order; one that cannot be read stops the run. */
  method CollectMembers(run: Run) returns (members: Option<seq<R.Member>>)
    ensures members.Some? <==> UIDsKnown(run)
    ensures members.Some? ==> members.value == Members(run)
  {
    var list: seq<R.Member> := [];
    for i := 0 to |run.inv.nodes|
      invariant |list| == i
      invariant forall j | 0 <= j < i :: list[j] == R.Member(run.inv.nodes[j].name, UIDOf(run, run.inv.nodes[j].name))
      invariant forall j | 0 <= j < i :: run.inv.nodes[j].name in run.uids && ValidUID(run.uids[run.inv.nodes[j].name])
    {
      var name := run.inv.nodes[i].name;
      if name !in run.uids || !ValidUID(run.uids[name]) { return None; }
      list := list + [R.Member(name, run.uids[name])];
    }
    return Some(list);
  }

  // ---- The database directory ------------------------------------------------------------------

  /** The walk over the directory stops at the first entry older than the cutoff. */
  method HasEntryBefore(db: map<string, int>, cutoff: int) returns (predates: bool)
    ensures predates <==> exists e | e in db :: db[e] < cutoff
  {
    predates := false;
    var rest := db.Keys;
    while rest != {}
      invariant rest <= db.Keys
      invariant forall e | e in db && e !in rest :: db[e] >= cutoff
      decreases |rest|
    {
      var e :| e in rest;
      if db[e] < cutoff { return true; }
      rest := rest - {e};
    }
  }

  /** Database files of a failed finalize are dropped, unless anything there is older than the stage. */
  method DiscardUncommitted(h: Host, run: Run, ghost open: bool) returns (ok: bool)
    requires h.Valid() && Underway(run, h.disk) && (Predates(h.disk) <==> !open)
    modifies h
    ensures h.Valid() && h.failures >= old(h.failures) && Extends(run, open, old(h.log), h.log)
    ensures h.disk == old(h.disk).(db := h.disk.db)
    ensures !open ==> h.disk == old(h.disk)
    ensures ok && open && h.disk.receipt.value.createdAt != R.ZERO_TIME ==> h.disk.db == map[]
    ensures h.failures == old(h.failures) ==> ok
    ensures OnlyDatabase(old(h.disk), old(h.log), h.log)
  {
    hide Admits, SubstrateReady, UIDsKnown, Write;
    var s := h.disk.receipt.value;
    if s.createdAt == R.ZERO_TIME || (s.phase != R.ServerReady && s.phase != R.Joined) || h.disk.db == map[] { return true; }
    var predates := HasEntryBefore(h.disk.db, s.createdAt);
    if predates { return true; }
    ok := ClearDatabase(h, run, open);
  }

  method ClearDatabase(h: Host, run: Run, ghost open: bool) returns (ok: bool)
    requires h.Valid() && Underway(run, h.disk) && open
    modifies h
    ensures h.Valid() && Extends(run, open, old(h.log), h.log)
    ensures h.failures == if ok then old(h.failures) else old(h.failures) + 1
    ensures h.disk == old(h.disk).(db := h.disk.db) && (ok ==> h.disk.db == map[]) && h.log == old(h.log) + [h.disk]
  {
    hide Admits, SubstrateReady, UIDsKnown, WipesData, Passed, RecordWrite;
    ok := h.RemoveDatabase();
  }

  /** A fresh PostgreSQL needs an empty directory; from then on a failed install may clear it again. */
  method DatabaseGate(h: Host, run: Run, ghost open: bool) returns (ok: bool, owned: bool)
    requires h.Valid() && Underway(run, h.disk) && (Predates(h.disk) <==> !open)
    modifies h
    ensures h.Valid() && h.failures >= old(h.failures) && Extends(run, open, old(h.log), h.log)
    ensures h.disk == old(h.disk).(db := h.disk.db)
    ensures owned ==> open
    ensures h.disk.installed.Some? ==> h.log == old(h.log)
    ensures ok && run.bundle.postgres && h.disk.installed.None? ==> owned && h.disk.db == map[]
    ensures h.failures == old(h.failures) && (run.bundle.postgres ==> open) ==> ok
    ensures OnlyDatabase(old(h.disk), old(h.log), h.log)
  {
    owned := false;
    if !run.bundle.postgres || h.disk.installed.Some? { return true, false; }
    AdmittedInputs(run, h.disk.receipt);
    hide Admits, SubstrateReady, UIDsKnown;
    ok := DiscardUncommitted(h, run, open);
    if !ok { return; }
    if h.disk.db != map[] { return false, false; }
    assert open;
    return true, true;
  }

  // ---- Installation ----------------------------------------------------------------------------

  /** Undo in reverse order of registration: the K3s installed by this run, then its database directory. */
  method RunRollbacks(h: Host, run: Run, ghost open: bool, ownsK3s: bool, ownsDatabase: bool) returns (clean: bool)
    requires h.Valid() && Underway(run, h.disk) && (ownsDatabase ==> open)
    modifies h
    ensures h.Valid() && h.failures >= old(h.failures) && Extends(run, open, old(h.log), h.log)
    ensures h.disk == old(h.disk).(db := h.disk.db, config := h.disk.config, unit := h.disk.unit, binary := h.disk.binary, active := h.disk.active)
    ensures if ownsK3s then clean ==> Uninstalled(h.disk) else SameK3s(old(h.disk), h.disk)
    ensures if ownsDatabase then clean ==> h.disk.db == map[] else h.disk.db == old(h.disk).db
    ensures clean <==> h.failures == old(h.failures)
  {
    hide Admits, SubstrateReady, UIDsKnown, WipesData;
    ghost var log0 := h.log;
    clean := true;
    if ownsK3s {
      var stopped := h.Stop();
      ghost var log1 := h.log;
      assert Extends(run, open, log0, log1);
      var removed := h.ReplaceFiles(h.disk.token, None, NoUnit, None);
      assert Extends(run, open, log1, h.log);
      ExtendsTransitive(run, open, log0, log1, h.log);
      clean := stopped && removed;
    }
    ghost var log2 := h.log;
    if ownsDatabase {
      var removed := h.RemoveDatabase();
      assert Extends(run, open, log2, h.log);
      ExtendsTransitive(run, open, log0, log2, h.log);
      clean := clean && removed;
    }
  }

  /** Nothing of K3s is left but its data. */
  predicate Uninstalled(d: Disk) { !d.active && d.config.None? && d.unit == NoUnit && d.binary.None? }

  predicate SameK3s(d: Disk, d': Disk) { d'.active == d.active && d'.config == d.config && d'.unit == d.unit && d'.binary == d.binary }

  /** A receipt of a K3s that is gone is dropped. */
  method DropStaleReceipt(h: Host, run: Run) returns (ok: bool)
    requires h.Valid() && run.installSignal.Some?
    modifies h
    ensures h.Valid()
    ensures h.disk == old(h.disk).(installed := h.disk.installed)
    ensures ok ==> h.disk.installed == if StaleInstall(run, old(h.disk)) then None else old(h.disk).installed
    ensures !StaleInstall(run, old(h.disk)) ==> ok && h.log == old(h.log) && h.failures == old(h.failures)
  {
    ok := true;
    if StaleInstall(run, h.disk) { ok := h.SaveInstalled(None); }
  }

  function PlainConfig(run: Run): K3sConfig.Config {
    K3sConfig.Config(K3sConfig.Unset, run.nodeName, run.dataDir, run.sans, "", Malformed(""), OtherURL(""), "", false,
                     K3sConfig.DEFAULT_CLUSTER_CIDR, K3sConfig.DEFAULT_SERVICE_CIDR)
  }

  method PutFiles(h: Host, run: Run, ghost open: bool, config: Option<ConfigFile>, unit: UnitFile, binary: Option<string>)
    returns (ok: bool)
    requires h.Valid() && Underway(run, h.disk)
    modifies h
    ensures h.Valid() && h.failures >= old(h.failures) && Extends(run, open, old(h.log), h.log)
    ensures h.disk == old(h.disk).(config := h.disk.config, unit := h.disk.unit, binary := h.disk.binary)
    ensures ok ==> h.disk.config == config && h.disk.unit == unit && h.disk.binary == binary
    ensures h.failures == old(h.failures) ==> ok
  {
    hide Admits, SubstrateReady, UIDsKnown, WipesData;
    ok := h.ReplaceFiles(h.disk.token, config, unit, binary);
  }

  method StartServer(h: Host, run: Run, ghost open: bool) returns (ok: bool)
    requires h.Valid() && Underway(run, h.disk)
    modifies h
    ensures h.Valid() && h.failures >= old(h.failures) && Extends(run, open, old(h.log), h.log)
    ensures h.disk == old(h.disk).(data := h.disk.data, active := h.disk.active)
    ensures ok ==> h.disk.active && h.log == old(h.log) + [h.disk]
    ensures h.failures == old(h.failures) ==> ok
  {
    hide Admits, SubstrateReady, UIDsKnown, WipesData;
    ok := h.EnableAndStart();
  }

  method Wipe(h: Host, run: Run, ghost open: bool) returns (ok: bool)
    requires h.Valid() && Underway(run, h.disk) && WipesData(run, h.disk)
    modifies h
    ensures h.Valid() && h.failures >= old(h.failures) && Extends(run, open, old(h.log), h.log)
    ensures h.disk == old(h.disk).(data := h.disk.data)
    ensures ok ==> |h.log| > |old(h.log)| && h.disk.data == {}
    ensures h.failures == old(h.failures) ==> ok
  {
    hide Admits, SubstrateReady, UIDsKnown, WipesData;
    ok := h.RemoveData();
  }

  /** The K3s that the installation itself puts in place. */
  predicate Deployed(run: Run, d: Disk) {
    && d.config == Some(Rendered(PlainConfig(run))) && d.unit == ReleaseOwned && d.binary == Some(run.bundle.k3sVersion)
    && d.active
  }

  /** The start is the last step, and finds every file in place. */
  predicate StartsLast(run: Run, d: Disk, d': Disk) {
    && d.config == Some(Rendered(PlainConfig(run))) && d.unit == ReleaseOwned && d.binary == Some(run.bundle.k3sVersion)
    && d' == d.(active := true, data := d'.data)
  }

  ghost predicate Emptied(before: seq<Disk>, after: seq<Disk>) {
    exists i | |before| <= i < |after| :: after[i].data == {}
  }

  /** The data directory is wiped for a fresh install only; the service is started when all its files are in place.
      `undo` says that this failure runs the rollbacks registered so far; other failures return directly. */
  method InstallK3s(h: Host, run: Run, ghost open: bool, wipe: bool) returns (ok: bool, registered: bool, undo: bool)
    requires h.Valid() && Underway(run, h.disk) && (wipe ==> WipesData(run, h.disk))
    modifies h
    ensures h.Valid() && h.failures >= old(h.failures) && Extends(run, open, old(h.log), h.log)
    ensures h.disk == old(h.disk).(data := h.disk.data, config := h.disk.config, unit := h.disk.unit,
                                   binary := h.disk.binary, active := h.disk.active)
    ensures wipe && (ok || h.failures == old(h.failures)) ==> Emptied(old(h.log), h.log)
    ensures ok ==> registered && Deployed(run, h.disk)
    ensures ok ==> |h.log| >= 2 && StartsLast(run, h.log[|h.log| - 2], h.disk)
    ensures !ok ==> !registered
    ensures undo ==> SameK3s(old(h.disk), h.disk)
    ensures h.failures == old(h.failures) ==> ok
    ensures undo ==> !ok && Underway(run, h.disk)
    ensures ok ==> Underway(run, h.disk)
  {
    hide Admits, SubstrateReady, UIDsKnown, Write;
    ghost var log0 := h.log;
    registered, undo := false, false;
    if wipe {
      ok := Wipe(h, run, open);
      if !ok { return false, false, true; }
      assert h.log[|h.log| - 1].data == {};
    }
    ghost var log1 := h.log;
    ok := PutFiles(h, run, open, Some(Rendered(PlainConfig(run))), h.disk.unit, h.disk.binary);
    ExtendsTransitive(run, open, log0, log1, h.log);
    if !ok { return; }
    ghost var log2 := h.log;
    ok := PutFiles(h, run, open, h.disk.config, ReleaseOwned, h.disk.binary);
    ExtendsTransitive(run, open, log0, log2, h.log);
    if !ok { return; }
    ghost var log3 := h.log;
    ok := PutFiles(h, run, open, h.disk.config, h.disk.unit, Some(run.bundle.k3sVersion));
    ExtendsTransitive(run, open, log0, log3, h.log);
    if !ok { return; }
    ghost var log4 := h.log;
    ok := StartServer(h, run, open);
    ExtendsTransitive(run, open, log0, log4, h.log);
    registered := ok;
    if wipe { assert h.log[|log1| - 1] == log1[|log1| - 1]; }
  }

  /** The chart rollout: only a release with PostgreSQL writes to the database directory. */
  method RollOut(h: Host, run: Run, ghost open: bool) returns (ok: bool)
    requires h.Valid() && Underway(run, h.disk) && (run.bundle.postgres ==> open)
    modifies h
    ensures h.Valid() && h.failures >= old(h.failures) && Extends(run, open, old(h.log), h.log)
    ensures h.disk == old(h.disk).(db := h.disk.db)
    ensures ok <==> h.failures == old(h.failures)
  {
    hide Admits, SubstrateReady, UIDsKnown, WipesData;
    var written: map<string, int> := *;
    h.Record(h.disk.(db := if run.bundle.postgres then h.disk.db + written else h.disk.db));
    ok := h.Attempt();
  }

  /** The enrollment key on the host is the one that its staging recorded. */
  predicate StagedSigner(d: Disk) { d.receipt.Some? && d.signer.Some? && KeyDigestOf(d.signer.value) == d.receipt.value.signer }

  /** The last step of an installation: the signer must be the staged one, then the receipt is written. */
  method CommitInstall(h: Host, run: Run, ghost open: bool, members: seq<R.Member>) returns (ok: bool)
    requires h.Valid() && Underway(run, h.disk) && h.disk.installed.None?
    requires members == Members(run)
    requires KeyDigestOf(run.freshKey) != h.disk.receipt.value.signer
    modifies h
    ensures h.Valid() && h.failures >= old(h.failures) && Extends(run, open, old(h.log), h.log)
    ensures h.disk == old(h.disk).(installed := h.disk.installed, signer := h.disk.signer)
    ensures ok ==> h.disk.installed == Some(NewInstalled(run, old(h.disk).receipt.value))
    ensures !ok ==> h.disk.installed.None?
    ensures ok <==> h.failures == old(h.failures) && StagedSigner(old(h.disk))
  {
    hide Admits, SubstrateReady, UIDsKnown, WipesData;
    ghost var log0 := h.log;
    var s := h.disk.receipt.value;
    var key := h.LoadOrCreateSigner(run.freshKey);
    if key.None? { return false; }
    ghost var log1 := h.log;
    assert Extends(run, open, log0, log1);
    if KeyDigestOf(key.value) != s.signer { return false; }
    ok := h.SaveInstalled(Some(R.InstalledState(s.clusterID, Trim(run.bundle.version), run.bundle.releaseID, run.id.name,
                                                run.id.profile, run.id.zone, true, true, Trim(run.bundle.version), members)));
    assert Extends(run, open, log1, h.log);
    ExtendsTransitive(run, open, log0, log1, h.log);
  }

  /** What finalize hands to `Install`: the staged cluster, its endpoints and its members. */
  datatype Finalization = Finalization(
    clusterID: string, controlPlaneNode: string, controlEndpoint: Endpoint, endpoints: seq<Endpoint>, members: seq<R.Member>)

  /** It describes the verified inventory; the endpoints may come in any order. */
  ghost predicate DescribesInventory(f: Finalization, run: Run) {
    && f.clusterID != "" && run.nodeName == run.inv.bootstrapNode && f.controlPlaneNode == run.inv.bootstrapNode
    && f.controlEndpoint == BootstrapEndpoint(run.inv)
    && |f.endpoints| == |EndpointList(run.inv)| && (set e | e in f.endpoints) == (set e | e in EndpointList(run.inv))
    && |f.members| == |run.inv.nodes|
  }

  method MatchInventory(f: Finalization, run: Run) returns (ok: bool)
    requires ClusterTopology.Valid(run.inv)
    ensures ok <==> DescribesInventory(f, run)
  {
    var planned := APIEndpoints(run.inv);
    var same := SameSet(f.endpoints, planned);
    ok := && f.clusterID != "" && run.nodeName == run.inv.bootstrapNode && f.controlPlaneNode == run.inv.bootstrapNode
          && f.controlEndpoint == BootstrapEndpoint(run.inv) && same && |f.members| == |run.inv.nodes|;
  }

  /** An unrecorded K3s that is safe to take over: it runs, it is healthy, and it carries no foreign workload. */
  predicate Adoptable(run: Run) {
    && run.installSignal.Some? && run.installSignal.value.detected && run.installSignal.value.active
    && run.installSignal.value.healthy && run.installSignal.value.foreign == []
  }

  /** The ownership decision, on what this run sees of the service; only a fresh install or an adoption goes on. */
  method Decide(h: Host, run: Run) returns (ok: bool, wipe: bool, running: Option<string>)
    requires run.installSignal.Some?
    modifies h`failures
    ensures h.failures >= old(h.failures)
    ensures ok ==> (wipe <==> DecidesFresh(run, h.disk))
    ensures ok ==> h.disk.installed.None?
    ensures ok ==> UnitMissed(run) || Adoptable(run)
    ensures h.disk.installed.None? && (UnitMissed(run) || Adoptable(run)) && h.failures == old(h.failures) ==> ok
    ensures running.Some? ==> running == h.disk.binary && run.installSignal.value.active
  {
    ok, wipe, running := true, false, None;
    var signal := run.installSignal.value;
    if h.disk.installed.None? && signal.detected && signal.active {
      ok := h.Attempt();
      if !ok { return; }
      running := h.Version();
    } else {
      signal := signal.(healthy := false, foreign := []);
    }
    var decision := O.DecideOwnership(Trim(run.bundle.version), OwnerOf(h.disk.installed), signal, false, false);
    ok := decision == O.FreshInstall || decision == O.AdoptExisting;
    wipe := decision == O.FreshInstall;
  }

  /** Host detection and preflight: a required port that is bound blocks, unless it is the running service's own. */
  method Preflight(h: Host, run: Run) returns (ok: bool)
    requires run.installSignal.Some?
    modifies h`failures
    ensures h.failures >= old(h.failures) && (ok <==> h.failures == old(h.failures) && PortsClear(run))
  {
    ok := h.Attempt();
    if !ok || run.portsInUse.None? { return false; }
    var ports := run.portsInUse.value;
    if run.installSignal.value.detected && run.installSignal.value.active { ports := ports - REQUIRED_PORTS; }
    ok := ports == {};
  }

  /** The part of `Install` between the ownership gates and the installed receipt. */
  method InstallProduct(h: Host, run: Run, ghost open: bool, members: seq<R.Member>, wipe: bool, running: Option<string>,
                        ownsDatabase: bool)
    returns (ok: bool, undone: Option<bool>)
    requires h.Valid() && Underway(run, h.disk) && h.disk.installed.None?
    requires members == Members(run)
    requires KeyDigestOf(run.freshKey) != h.disk.receipt.value.signer
    requires run.installSignal.Some? && (wipe <==> DecidesFresh(run, h.disk))
    requires (ownsDatabase ==> open) && (run.bundle.postgres ==> ownsDatabase && h.disk.db == map[])
    modifies h
    ensures h.Valid() && h.failures >= old(h.failures) && Extends(run, open, old(h.log), h.log)
    ensures h.disk.receipt == old(h.disk).receipt
    ensures ok ==> h.disk.installed == Some(NewInstalled(run, old(h.disk).receipt.value))
    ensures ok && wipe ==> Emptied(old(h.log), h.log) && Deployed(run, h.disk)
    ensures wipe && PortsClear(run) && h.failures == old(h.failures) ==> Emptied(old(h.log), h.log)
    ensures ok && !wipe && running == Some(run.bundle.k3sVersion) ==>
              h.disk == old(h.disk).(db := h.disk.db, installed := h.disk.installed, signer := h.disk.signer)
    ensures ok && running != Some(run.bundle.k3sVersion) ==> Deployed(run, h.disk)
    ensures ok ==> PortsClear(run) && Underway(run, h.disk) && StagedSigner(old(h.disk))
    ensures h.failures == old(h.failures) && PortsClear(run) && StagedSigner(old(h.disk)) ==> ok
    ensures ok ==> undone.None?
    ensures !ok ==> h.disk.installed.None?
    ensures !ok && (!PortsClear(run) || (!wipe && running == Some(run.bundle.k3sVersion))) ==> undone.Some?
    ensures undone == Some(true) ==> (Uninstalled(h.disk) || SameK3s(old(h.disk), h.disk)) && (ownsDatabase ==> h.disk.db == map[])
    ensures !ok && !wipe && running == Some(run.bundle.k3sVersion) ==> SameK3s(old(h.disk), h.disk) && h.disk.data == old(h.disk).data
  {
    hide Admits, Write, SubstrateReady, UIDsKnown, DecidesFresh;
    ghost var d0, log0 := h.disk, h.log;
    var ownsK3s, clean := false, false;
    undone := None;
    ok := Preflight(h, run);
    if !ok {
      clean := RunRollbacks(h, run, open, ownsK3s, ownsDatabase);
      return false, Some(clean);
    }
    hide PortsClear;
    if wipe || running != Some(run.bundle.k3sVersion) {
      var undo;
      ok, ownsK3s, undo := InstallK3s(h, run, open, wipe);
      if !ok {
        if undo {
          ghost var failed := h.log;
          clean := RunRollbacks(h, run, open, false, ownsDatabase);
          ExtendsTransitive(run, open, log0, failed, h.log);
          undone := Some(clean);
        }
        return;
      }
    }
    ghost var log1 := h.log;
    ok, undone := RollOutAndCommit(h, run, open, members, ownsK3s, ownsDatabase);
    ExtendsTransitive(run, open, log0, log1, h.log);
  }

  /** The rest of the installation, every failure of which is undone. */
  method RollOutAndCommit(h: Host, run: Run, ghost open: bool, members: seq<R.Member>, ownsK3s: bool, ownsDatabase: bool)
    returns (ok: bool, undone: Option<bool>)
    requires h.Valid() && Underway(run, h.disk) && h.disk.installed.None?
    requires members == Members(run)
    requires KeyDigestOf(run.freshKey) != h.disk.receipt.value.signer
    requires (ownsDatabase ==> open) && (run.bundle.postgres ==> ownsDatabase)
    modifies h
    ensures h.Valid() && h.failures >= old(h.failures) && Extends(run, open, old(h.log), h.log)
    ensures h.disk.receipt == old(h.disk).receipt && h.disk.data == old(h.disk).data
    ensures ok <==> h.failures == old(h.failures) && StagedSigner(old(h.disk))
    ensures ok ==> undone.None? && h.disk.installed == Some(NewInstalled(run, old(h.disk).receipt.value))
    ensures ok ==> h.disk == old(h.disk).(db := h.disk.db, installed := h.disk.installed, signer := h.disk.signer)
    ensures !ok ==> undone.Some? && h.disk.installed.None?
    ensures undone == Some(true) ==> (ownsK3s ==> Uninstalled(h.disk)) && (ownsDatabase ==> h.disk.db == map[])
    ensures !ownsK3s ==> SameK3s(old(h.disk), h.disk)
  {
    hide Admits, Write, SubstrateReady, UIDsKnown;
    ghost var log0 := h.log;
    var clean;
    ok := RollOut(h, run, open);
    ghost var log1 := h.log;
    if !ok {
      clean := RunRollbacks(h, run, open, ownsK3s, ownsDatabase);
      ExtendsTransitive(run, open, log0, log1, h.log);
      return false, Some(clean);
    }
    ok := CommitInstall(h, run, open, members);
    ExtendsTransitive(run, open, log0, log1, h.log);
    ghost var log2 := h.log;
    undone := None;
    if !ok {
      clean := RunRollbacks(h, run, open, ownsK3s, ownsDatabase);
      ExtendsTransitive(run, open, log0, log2, h.log);
      undone := Some(clean);
    }
  }

  /** `Install`, called with the staged cluster's identity. */
  method Install(h: Host, run: Run, ghost open: bool, finalization: Finalization) returns (ok: bool)
    requires h.Valid() && Underway(run, h.disk)
    requires finalization.members == Members(run)
    requires KeyDigestOf(run.freshKey) != h.disk.receipt.value.signer
    requires Predates(h.disk) <==> !open
    modifies h
    ensures h.Valid() && h.failures >= old(h.failures) && Extends(run, open, old(h.log), h.log)
    ensures h.disk.receipt == old(h.disk).receipt
    ensures ok ==> h.disk.installed == Some(NewInstalled(run, old(h.disk).receipt.value)) && Underway(run, h.disk)
    ensures ok && UnitMissed(run) ==> MayLose(run, old(h.disk)) && Emptied(old(h.log), h.log) && Deployed(run, h.disk)
    ensures MayLose(run, old(h.disk)) && DescribesInventory(finalization, run) && h.failures == old(h.failures) ==>
              Emptied(old(h.log), h.log)
    ensures !DescribesInventory(finalization, run) ==> !ok && h.log == old(h.log)
    ensures old(h.disk).installed.Some? ==> !ok && h.log == old(h.log)
    ensures !ok ==> h.disk.installed == old(h.disk).installed
    ensures ok ==> MayInstall(run, old(h.disk))
    ensures MayInstall(run, old(h.disk)) && DescribesInventory(finalization, run) && h.failures == old(h.failures) ==> ok
    ensures Unsafe(run, old(h.disk)) ==> !ok && OnlyDatabase(old(h.disk), old(h.log), h.log)
  {
    assert ClusterTopology.Valid(run.inv) by { AdmittedInputs(run, h.disk.receipt); }
    hide Admits, SubstrateReady, UIDsKnown, Write, Predates, DescribesInventory, MayLose, DecidesFresh, PortsClear, ClusterTopology.Valid,
         Emptied, Deployed, NewInstalled, MayInstall, StagedSigner, Adoptable, Unsafe, OnlyDatabase;
    ghost var d0, log0 := h.disk, h.log;
    InstallNeeds(run, d0);
    NothingWritten(d0, log0);
    ok := MatchInventory(finalization, run);
    if !ok { return false; }
    var wipe, running, ownsDatabase;
    ok, wipe, running, ownsDatabase := DecideOnHost(h, run, open);
    if !ok { return false; }
    ghost var log1 := h.log;
    var undone;
    ok, undone := InstallProduct(h, run, open, finalization.members, wipe, running, ownsDatabase);
    ExtendsTransitive(run, open, log0, log1, h.log);
    if PortsClear(run) { LosingRuns(run, d0); }
    if MayLose(run, d0) { LosingRunIsClear(run, d0); }
  }

  /** Nothing but the database directory was written since. */
  predicate OnlyDatabase(d: Disk, before: seq<Disk>, after: seq<Disk>) {
    before <= after && forall i | |before| <= i < |after| :: after[i] == d.(db := after[i].db)
  }

  lemma NothingWritten(d: Disk, log: seq<Disk>)
    ensures OnlyDatabase(d, log, log)
  {
  }

  /** An unrecorded K3s whose unit is listed and that is not safe to take over. */
  predicate Unsafe(run: Run, d: Disk) {
    d.installed.None? && run.installSignal.Some? && run.installSignal.value.detected && !Adoptable(run)
  }

  /** All it takes, besides calls that work, for the installation to succeed on a host that passed the gates. */
  ghost predicate MayInstall(run: Run, d: Disk) {
    && Underway(run, d) && d.installed.None? && StagedSigner(d)
    && (UnitMissed(run) || Adoptable(run))
    && PortsClear(run)
    && (run.bundle.postgres ==> !Predates(d))
  }

  lemma InstallNeeds(run: Run, d: Disk)
    requires Underway(run, d)
    ensures MayInstall(run, d)
       <==> && d.installed.None? && StagedSigner(d) && (UnitMissed(run) || Adoptable(run)) && PortsClear(run)
            && (run.bundle.postgres ==> !Predates(d))
    ensures PortsClear(run) ==> run.installSignal.Some?
    ensures Unsafe(run, d) ==> !UnitMissed(run) && !Adoptable(run)
    ensures d.installed.Some? ==> !Unsafe(run, d)
  {
    hide Admits, SubstrateReady, UIDsKnown, Predates;
  }

  lemma LosingRuns(run: Run, d: Disk)
    requires Underway(run, d) && d.installed.None? && PortsClear(run) && (run.bundle.postgres ==> !Predates(d))
    ensures UnitMissed(run) ==> MayLose(run, d)
  {
    hide Admits, SubstrateReady, UIDsKnown, Predates;
  }

  lemma LosingRunIsClear(run: Run, d: Disk)
    requires MayLose(run, d)
    ensures PortsClear(run) && DecidesFresh(run, d) && run.installSignal.Some? && (run.bundle.postgres ==> !Predates(d))
  {
    hide Admits, SubstrateReady, UIDsKnown, Predates;
  }

  /** The part of `Install` up to the decision: the stale receipt, the database directory, and who owns K3s. */
  method DecideOnHost(h: Host, run: Run, ghost open: bool) returns (ok: bool, wipe: bool, running: Option<string>, ownsDatabase: bool)
    requires h.Valid() && Underway(run, h.disk) && (Predates(h.disk) <==> !open)
    modifies h
    ensures h.Valid() && h.failures >= old(h.failures) && Extends(run, open, old(h.log), h.log)
    ensures h.disk == old(h.disk).(db := h.disk.db)
    ensures old(h.disk).installed.Some? ==> !ok && h.log == old(h.log)
    ensures ok ==> run.installSignal.Some? && (wipe <==> DecidesFresh(run, h.disk))
    ensures ok ==> h.disk.installed.None? && (UnitMissed(run) ==> wipe)
    ensures ok ==> (ownsDatabase ==> open) && (run.bundle.postgres ==> ownsDatabase && h.disk.db == map[])
    ensures MayLose(run, old(h.disk)) && h.failures == old(h.failures) ==> ok && wipe
    ensures ok ==> (UnitMissed(run) || Adoptable(run)) && (run.bundle.postgres ==> open)
    ensures (&& old(h.disk).installed.None? && run.installSignal.Some? && (UnitMissed(run) || Adoptable(run))
             && (run.bundle.postgres ==> open) && h.failures == old(h.failures)) ==> ok
    ensures OnlyDatabase(old(h.disk), old(h.log), h.log)
  {
    hide Admits, Write, SubstrateReady, UIDsKnown, Predates, Adoptable;
    wipe, running, ownsDatabase := false, None, false;
    ok := h.Attempt();
    if !ok || run.installSignal.None? { return false, wipe, running, ownsDatabase; }
    ok := DropStaleReceipt(h, run);
    if !ok { return; }
    ok, ownsDatabase := DatabaseGate(h, run, open);
    if !ok { return; }
    ok, wipe, running := Decide(h, run);
  }

  // ---- The run ---------------------------------------------------------------------------------

  /** The finalized host confirms its installed receipt and writes nothing. */
  predicate Confirmed(run: Run, d0: Disk, d: Disk) {
    && d == d0
    && d.receipt.Some? && d.receipt.value.phase == R.Finalized
    && R.InstallMatchesFinalizedStage(d.installed, d.receipt, run.bundle.version)
  }

  /** The staged host now holds both receipts, and they describe one product. */
  predicate Completed(run: Run, d0: Disk, d: Disk) {
    && d0.receipt.Some? && d.receipt.Some?
    && FinalReceipt(run, d0.receipt.value, d.receipt.value)
    && d.installed == Some(NewInstalled(run, d0.receipt.value))
  }

  /** An earlier finalize died between its two receipts: finalize cannot get on from here. */
  predicate Stuck(d: Disk) { d.installed.Some? && d.receipt.Some? && d.receipt.value.phase == R.ServerReady }

  /** A run in which the installation would take a staged server for an empty host. */
  predicate TakesHostForEmpty(run: Run) { UnitMissed(run) && PortsFree(run) }

  /** All it takes for finalize to wipe the K3s data of the server that it has just seen at work: its gates are passed, nothing
      is installed, a new PostgreSQL may have its directory, and now no unit is listed and no port in use. */
  ghost predicate MayLose(run: Run, d: Disk) {
    && Underway(run, d)
    && d.installed.None?
    && (run.bundle.postgres ==> !Predates(d))
    && TakesHostForEmpty(run)
  }

  /** The clock has not gone back behind the stage when the completion is recorded. */
  predicate Recordable(run: Run, s: R.BootstrapState) { run.now != R.ZERO_TIME && s.createdAt <= run.now }

  /** All it takes, besides calls that work, for finalize to succeed. */
  ghost predicate MayFinalize(run: Run, d: Disk) {
    && Admits(run, d.receipt) && d.receipt.Some?
    && if d.receipt.value.phase == R.Finalized
       then Ready(run, d) && R.InstallMatchesFinalizedStage(d.installed, d.receipt, run.bundle.version)
       else MayInstall(run, d) && Recordable(run, d.receipt.value)
  }

  /** Finalizing the cluster. Every write, up to any crash or failure, is one that `Write` allows. */
  method FinalizeEmbeddedEtcd(h: Host, run: Run) returns (r: Outcome<R.InstalledState>)
    requires h.Valid()
    requires h.disk.receipt.Some? ==> KeyDigestOf(run.freshKey) != h.disk.receipt.value.signer
    modifies h
    ensures h.Valid() && h.failures >= old(h.failures) && Extends(run, !Predates(old(h.disk)), old(h.log), h.log)
    ensures r.Ok? ==> Admits(run, old(h.disk).receipt) && Ready(run, old(h.disk)) && h.disk.installed == Some(r.value)
    ensures r.Ok? ==> (Confirmed(run, old(h.disk), h.disk) && h.log == old(h.log)) || Completed(run, old(h.disk), h.disk)
    ensures r.Ok? && UnitMissed(run) && !Confirmed(run, old(h.disk), h.disk) ==>
              MayLose(run, old(h.disk)) && Emptied(old(h.log), h.log) && Deployed(run, h.disk)
    ensures MayLose(run, old(h.disk)) && h.failures == old(h.failures) ==> Emptied(old(h.log), h.log)
    ensures !MayLose(run, old(h.disk)) ==> old(h.disk).data <= h.disk.data
    ensures !Admits(run, old(h.disk).receipt) || !Ready(run, old(h.disk)) ==> r.Err? && h.log == old(h.log)
    ensures Stuck(old(h.disk)) ==> r.Err? && h.log == old(h.log)
    ensures old(h.disk).receipt.Some? && old(h.disk).receipt.value.phase == R.Finalized ==> h.log == old(h.log)
    ensures r.Err? ==> h.disk.receipt == old(h.disk).receipt
    ensures r.Err? && h.disk.installed != old(h.disk).installed ==>
              && Underway(run, old(h.disk)) && MayInstall(run, old(h.disk)) && h.disk.receipt.Some?
              && h.disk.installed == Some(NewInstalled(run, h.disk.receipt.value))
    ensures r.Ok? ==> MayFinalize(run, old(h.disk))
    ensures MayFinalize(run, old(h.disk)) && h.failures == old(h.failures) ==> r.Ok?
    ensures Underway(run, old(h.disk)) && Unsafe(run, old(h.disk)) ==> r.Err? && OnlyDatabase(old(h.disk), old(h.log), h.log)
  {
    hide *;
    AtTheGates(h, run);
    var ok := Admit(h, run);
    if !ok { return Err; }
    ok := SubstrateGate(h, run);
    if !ok { return Err; }
    var s := h.disk.receipt.value;
    if s.phase == R.Finalized {
      if !R.InstallMatchesFinalizedStage(h.disk.installed, h.disk.receipt, run.bundle.version) { return Err; }
      return Ok(h.disk.installed.value);
    }
    var members := CollectMembers(run);
    if members.None? || run.ca.None? { return Err; }
    r := InstallAndRecord(h, run, members.value);
  }

  /** What the gates make of the host, taken together. */
  lemma AtTheGates(h: Host, run: Run)
    requires h.Valid()
    ensures Extends(run, !Predates(h.disk), h.log, h.log)
    ensures Admits(run, h.disk.receipt) ==>
              h.disk.receipt.Some? && (h.disk.receipt.value.phase == R.ServerReady || h.disk.receipt.value.phase == R.Finalized)
    ensures Underway(run, h.disk)
       <==> && Admits(run, h.disk.receipt) && h.disk.receipt.value.phase == R.ServerReady
            && Ready(run, h.disk) && UIDsKnown(run) && run.ca.Some?
    ensures MayLose(run, h.disk) ==> Underway(run, h.disk)
    ensures MayFinalize(run, h.disk)
       <==> && Admits(run, h.disk.receipt)
            && if h.disk.receipt.value.phase == R.Finalized
               then Ready(run, h.disk) && R.InstallMatchesFinalizedStage(h.disk.installed, h.disk.receipt, run.bundle.version)
               else MayInstall(run, h.disk) && Recordable(run, h.disk.receipt.value)
    ensures MayInstall(run, h.disk) ==> Underway(run, h.disk)
    ensures OnlyDatabase(h.disk, h.log, h.log)
    ensures Stuck(h.disk) ==> h.disk.installed.Some? && h.disk.receipt.value.phase == R.ServerReady
    ensures R.InstallMatchesFinalizedStage(h.disk.installed, h.disk.receipt, run.bundle.version) ==>
              h.disk.installed.Some? && Confirmed(run, h.disk, h.disk)
  {
    if Admits(run, h.disk.receipt) { AdmittedInputs(run, h.disk.receipt); }
    hide Admits, SubstrateReady, UIDsKnown, Predates, Write, StagedSigner, Adoptable, PortsClear;
  }

  method Describe(run: Run, s: R.BootstrapState, members: seq<R.Member>) returns (f: Finalization)
    ensures f.clusterID == s.clusterID && f.controlPlaneNode == run.inv.bootstrapNode
    ensures f.controlEndpoint == BootstrapEndpoint(run.inv) && f.members == members
    ensures ClusterTopology.Valid(run.inv) ==> f.endpoints == EndpointList(run.inv)
  {
    var endpoints := APIEndpoints(run.inv);
    f := Finalization(s.clusterID, run.inv.bootstrapNode, BootstrapEndpoint(run.inv), endpoints, members);
  }

  /** What finalize hands over always describes the inventory that it verified. */
  lemma DescribedIsInventory(f: Finalization, run: Run, d: Disk)
    requires Underway(run, d) && f.clusterID == d.receipt.value.clusterID && f.members == Members(run)
    requires f.controlPlaneNode == run.inv.bootstrapNode && f.controlEndpoint == BootstrapEndpoint(run.inv)
    requires ClusterTopology.Valid(run.inv) ==> f.endpoints == EndpointList(run.inv)
    ensures DescribesInventory(f, run)
  {
    AdmittedInputs(run, d.receipt);
    hide ClusterTopology.Valid, R.Valid;
  }

  lemma UnderwayHere(h: Host, run: Run)
    requires h.Valid() && Underway(run, h.disk)
    ensures h.log != [] && h.log[|h.log| - 1] == h.disk
    ensures h.disk.receipt.Some? && h.disk.receipt.value.phase == R.ServerReady && Passed(run, Some(h.disk.receipt.value))
  {
  }

  method InstallAndRecord(h: Host, run: Run, members: seq<R.Member>) returns (r: Outcome<R.InstalledState>)
    requires h.Valid() && Underway(run, h.disk)
    requires members == Members(run)
    requires KeyDigestOf(run.freshKey) != h.disk.receipt.value.signer
    modifies h
    ensures h.Valid() && h.failures >= old(h.failures) && Extends(run, !Predates(old(h.disk)), old(h.log), h.log)
    ensures r.Ok? ==> h.disk.installed == Some(r.value) && Completed(run, old(h.disk), h.disk)
    ensures r.Ok? && UnitMissed(run) ==> MayLose(run, old(h.disk)) && Emptied(old(h.log), h.log) && Deployed(run, h.disk)
    ensures MayLose(run, old(h.disk)) && h.failures == old(h.failures) ==> Emptied(old(h.log), h.log)
    ensures !MayLose(run, old(h.disk)) ==> old(h.disk).data <= h.disk.data
    ensures old(h.disk).installed.Some? ==> r.Err? && h.log == old(h.log)
    ensures r.Err? ==> h.disk.receipt == old(h.disk).receipt
    ensures r.Err? && h.disk.installed != old(h.disk).installed ==>
              h.disk.installed == Some(NewInstalled(run, h.disk.receipt.value)) && MayInstall(run, old(h.disk))
    ensures r.Ok? ==> MayInstall(run, old(h.disk)) && Recordable(run, old(h.disk).receipt.value)
    ensures MayInstall(run, old(h.disk)) && Recordable(run, old(h.disk).receipt.value) && h.failures == old(h.failures) ==> r.Ok?
    ensures Unsafe(run, old(h.disk)) ==> r.Err? && OnlyDatabase(old(h.disk), old(h.log), h.log)
  {
    hide *;
    UnderwayHere(h, run);
    ghost var d0, log0, open := h.disk, h.log, !Predates(h.disk);
    var finalization := Describe(run, h.disk.receipt.value, members);
    DescribedIsInventory(finalization, run, d0);
    var ok := Install(h, run, open, finalization);
    if ok {
      ghost var d1, log1 := h.disk, h.log;
      ok := RecordCompletion(h, run, open);
      LaterLog(run, open, log0, log1, h.log);
      CompletedNow(run, d0, d1, h.disk);
    }
    LogEndsHere(h);
    if !MayLose(run, d0) { DataStays(run, open, log0, h.log); }
    r := if ok then Ok(h.disk.installed.value) else Err;
  }

  lemma LogEndsHere(h: Host)
    requires h.Valid()
    ensures h.log != [] && h.log[|h.log| - 1] == h.disk
  {
  }

  lemma LaterLog(run: Run, open: bool, a: seq<Disk>, b: seq<Disk>, c: seq<Disk>)
    requires Extends(run, open, a, b) && Extends(run, open, b, c)
    ensures Extends(run, open, a, c) && (Emptied(a, b) ==> Emptied(a, c))
  {
    ExtendsTransitive(run, open, a, b, c);
    if Emptied(a, b) {
      var i :| |a| <= i < |b| && b[i].data == {};
      assert c[i].data == {};
    }
  }

  lemma CompletedNow(run: Run, d0: Disk, d1: Disk, d: Disk)
    requires Underway(run, d0) && d1.receipt == d0.receipt && d1.installed == Some(NewInstalled(run, d0.receipt.value))
    requires d == d1.(receipt := d.receipt)
    ensures d.receipt.Some? && FinalReceipt(run, d0.receipt.value, d.receipt.value) ==> Completed(run, d0, d)
    ensures Deployed(run, d1) ==> Deployed(run, d)
  {
    hide Admits, SubstrateReady, UIDsKnown, FinalReceipt, NewInstalled;
  }

  lemma FinalIsWrite(run: Run, open: bool, d: Disk, before: seq<Disk>, after: seq<Disk>)
    requires Underway(run, d) && d.installed == Some(NewInstalled(run, d.receipt.value)) && before != [] && before[|before| - 1] == d
    ensures var s := d.receipt.value; var s' := s.(phase := R.Finalized, nodeUID := UIDOf(run, run.nodeName), updatedAt := run.now);
            && (after == before ==> Extends(run, open, before, after))
            && (after == before + [d.(receipt := Some(s'))] && R.Valid(s') ==> FinalReceipt(run, s, s') && Extends(run, open, before, after))
  {
    hide Admits, SubstrateReady, UIDsKnown, R.Valid, NewInstalled, HostWrite;
  }

  lemma FinalIsValid(run: Run, s: R.BootstrapState)
    requires Passed(run, Some(s))
    ensures R.Valid(s.(phase := R.Finalized, nodeUID := UIDOf(run, run.nodeName), updatedAt := run.now)) <==> Recordable(run, s)
  {
    AdmittedInputs(run, Some(s));
    assert !Blank(UIDOf(run, run.nodeName)) by {
      var i :| 0 <= i < |run.inv.nodes| && run.inv.nodes[i].name == run.inv.bootstrapNode;
    }
    hide Blank, NodeName, Admits, SubstrateReady;
  }

  /** The last write: the staging receipt is finalized. */
  method RecordCompletion(h: Host, run: Run, ghost open: bool) returns (ok: bool)
    requires h.Valid() && Underway(run, h.disk) && h.disk.installed == Some(NewInstalled(run, h.disk.receipt.value))
    modifies h
    ensures h.Valid() && h.failures >= old(h.failures) && Extends(run, open, old(h.log), h.log)
    ensures h.disk == old(h.disk).(receipt := h.disk.receipt)
    ensures ok ==> h.disk.receipt.Some? && FinalReceipt(run, old(h.disk).receipt.value, h.disk.receipt.value)
    ensures ok <==> h.failures == old(h.failures) && Recordable(run, old(h.disk).receipt.value)
    ensures !ok ==> h.disk == old(h.disk)
  {
    hide *;
    UnderwayHere(h, run);
    ghost var d0, log0 := h.disk, h.log;
    var s := h.disk.receipt.value;
    FinalIsValid(run, s);
    ok := h.SaveReceipt(s.(phase := R.Finalized, nodeUID := UIDOf(run, run.nodeName), updatedAt := run.now));
    FinalIsWrite(run, open, d0, log0, h.log);
  }

  /** Finalizing is for the bootstrap server itself, staged for these inputs under a recorded key. */
  lemma AdmittedOnlyIf(run: Run, s: R.BootstrapState)
    requires Admits(run, Some(s))
    ensures run.bundle.embeddedEtcd && run.nodeName == run.inv.bootstrapNode == s.localNode
    ensures exists n | n in run.inv.nodes :: n.name == run.nodeName && n.address in run.local
    ensures s.phase in {R.ServerReady, R.Finalized} && s.signer.KeyDigestOf? && s.fingerprint == Fingerprint(run.inv)
    ensures s.k3sVersion == run.bundle.k3sVersion && R.Identity(s.name, s.profile, s.zone) == run.id
    ensures s.phase == R.ServerReady ==> s.releaseID == run.bundle.releaseID && s.bundleVersion == run.bundle.version
  {
    hide ClusterTopology.Valid, R.Valid, Fingerprint;
  }

  lemma AdmittedIf(run: Run, s: R.BootstrapState, n: Node)
    requires run.bundle.embeddedEtcd && run.nodeName == run.inv.bootstrapNode == s.localNode && ClusterTopology.Valid(run.inv)
    requires n in run.inv.nodes && n.name == run.nodeName && n.address in run.local
    requires R.Valid(s) && s.phase in {R.ServerReady, R.Finalized} && s.signer.KeyDigestOf? && s.fingerprint == Fingerprint(run.inv)
    requires s.k3sVersion == run.bundle.k3sVersion && R.Identity(s.name, s.profile, s.zone) == run.id
    requires s.phase == R.ServerReady ==> s.releaseID == run.bundle.releaseID && s.bundleVersion == run.bundle.version
    ensures Admits(run, Some(s))
  {
    FindNodeUnique(run.inv.nodes, n);
    hide ClusterTopology.Valid, R.Valid, Fingerprint;
  }

  /** The installed receipt: the staged cluster under the version of its bundle, owned by it, and every planned server once, in
      inventory order, with the UID that Kubernetes gave it. */
  lemma InstalledReceiptNames(run: Run, s: R.BootstrapState)
    requires UIDsKnown(run)
    ensures var i := NewInstalled(run, s);
            && i.instanceID == s.clusterID && i.version == i.ownerVersion == Trim(run.bundle.version) && i.releaseID == run.bundle.releaseID
            && R.Identity(i.name, i.profile, i.zone) == run.id && i.embeddedEtcd && i.owned
            && |i.members| == |run.inv.nodes|
            && forall k | 0 <= k < |i.members| ::
                 && i.members[k].name == run.inv.nodes[k].name && i.members[k].name in run.uids
                 && i.members[k].uid == run.uids[i.members[k].name] && i.members[k].uid != "" && ' ' !in i.members[k].uid
  {
    assert Blank("");
  }

  /** The configuration of a server that the installation puts in place itself: a single server under its own name, on the ranges
      of the appliance, that neither joins nor initialises a cluster. */
  lemma PlainConfigIs(run: Run)
    ensures var c := PlainConfig(run);
            && c.nodeName == run.nodeName && c.dataDir == run.dataDir && c.sans == run.sans
            && K3sConfig.EffectiveMode(c) == K3sConfig.Server && c.topology == "" && !c.clusterInit && !K3sConfig.HasServerURL(c)
            && c.clusterCIDR == "10.44.0.0/16" && c.serviceCIDR == "10.43.0.0/16"
            && (K3sConfig.ValidConfig(c) <==> !Blank(run.nodeName) && !Blank(run.dataDir))
  {
    assert Blank("");
  }

  // ---- Two ways to succeed ---------------------------------------------------------------------

  /** The ordinary finalize: past its gates it finds the staged K3s healthy, without foreign workloads, on its own ports. */
  lemma AdoptionSucceeds(run: Run, d: Disk)
    requires Underway(run, d) && d.installed.None?
    requires run.installSignal.Some? && run.installSignal.value.detected && run.installSignal.value.active
    requires run.installSignal.value.healthy && run.installSignal.value.foreign == []
    requires run.portsInUse.Some? && run.portsInUse.value <= {6443, 10250, 8472}
    requires d.signer.Some? && d.receipt.value.signer == KeyDigestOf(d.signer.value)
    requires run.bundle.postgres ==> forall e | e in d.db :: d.db[e] >= d.receipt.value.createdAt
    requires run.now != 0 && d.receipt.value.createdAt <= run.now
    ensures MayFinalize(run, d)
  {
    hide Admits, SubstrateReady, UIDsKnown;
  }

  /** A finalized server confirms, again and again, the installed receipt that it wrote. */
  lemma ConfirmationSucceeds(run: Run, d: Disk)
    requires Admits(run, d.receipt) && Ready(run, d) && d.receipt.Some? && d.receipt.value.phase == R.Finalized
    requires d.installed.Some? && d.installed.value.embeddedEtcd && d.installed.value.version == run.bundle.version
    requires var i, s := d.installed.value, d.receipt.value;
             i.instanceID == s.clusterID && i.releaseID == s.releaseID && i.name == s.name && i.profile == s.profile && i.zone == s.zone
    ensures MayFinalize(run, d)
  {
    hide Admits, SubstrateReady, UIDsKnown;
  }

  /** A K3s that is unwell or carries other workloads is not touched, nor is a host with an installed receipt, with a port held by
      someone else, with another enrollment key, or with older data in the database directory. */
  lemma FinalizeRefuses(run: Run, d: Disk)
    requires d.receipt.Some? && d.receipt.value.phase == R.ServerReady
    requires
      || (run.installSignal.Some? && run.installSignal.value.detected && !run.installSignal.value.active)
      || (run.installSignal.Some? && run.installSignal.value.detected && !run.installSignal.value.healthy)
      || (run.installSignal.Some? && run.installSignal.value.detected && run.installSignal.value.foreign != [])
      || run.installSignal.None? || run.portsInUse.None?
      || (exists p :: p in run.portsInUse.value && p !in {6443, 10250, 8472})
      || (run.portsInUse.value != {} && !run.installSignal.value.detected)
      || d.installed.Some? || d.signer.None? || d.receipt.value.signer != KeyDigestOf(d.signer.value)
      || (run.bundle.postgres && exists e | e in d.db :: d.db[e] < d.receipt.value.createdAt)
    ensures !MayFinalize(run, d)
  {
    hide Passed, Admits;
    if run.portsInUse.Some? && exists p :: p in run.portsInUse.value && p !in REQUIRED_PORTS {
      var p :| p in run.portsInUse.value && p !in REQUIRED_PORTS;
      assert p in run.portsInUse.value - REQUIRED_PORTS;
    }
  }

  // ---- Consequences for a whole run ------------------------------------------------------------

  /** With anything in the database directory older than the stage, a whole run of finalize keeps every entry. */
  lemma {:induction false} OldDatabaseSurvives(run: Run, before: seq<Disk>, after: seq<Disk>)
    requires Extends(run, false, before, after)
    ensures KeepsDatabase(before[|before| - 1], after[|after| - 1])
    decreases |after|
  {
    hide Admits, RecordWrite, HostWrite;
    if |before| < |after| {
      var shorter := after[..|after| - 1];
      assert forall i | |before| <= i < |shorter| :: Write(run, false, after[i - 1], after[i]);
      OldDatabaseSurvives(run, before, shorter);
      assert Write(run, false, after[|after| - 2], after[|after| - 1]);
    } else {
      assert before == after;
    }
  }

  /** A disk from which a run is under way came from one, with the same receipt and no more installed. */
  lemma {:induction false} UnderwaySince(run: Run, open: bool, before: seq<Disk>, after: seq<Disk>)
    requires Extends(run, open, before, after) && Underway(run, after[|after| - 1])
    ensures var d, e := before[|before| - 1], after[|after| - 1];
            && Underway(run, d) && d.receipt == e.receipt && (e.installed.None? ==> d.installed.None?)
    decreases |after|
  {
    hide Admits, SubstrateReady, UIDsKnown, WipesData, NewInstalled;
    if |before| < |after| {
      var shorter := after[..|after| - 1];
      assert forall i | |before| <= i < |shorter| :: Write(run, open, after[i - 1], after[i]);
      assert Write(run, open, after[|after| - 2], after[|after| - 1]);
      UnderwaySince(run, open, before, shorter);
    } else {
      assert before == after;
    }
  }

  /** Unless everything comes together, a whole run of finalize, up to any crash, removes nothing from the K3s data. */
  lemma {:induction false} DataStays(run: Run, open: bool, before: seq<Disk>, after: seq<Disk>)
    requires Extends(run, open, before, after) && (open <==> !Predates(before[|before| - 1]))
    requires !MayLose(run, before[|before| - 1])
    ensures before[|before| - 1].data <= after[|after| - 1].data
    decreases |after|
  {
    hide Admits, SubstrateReady, UIDsKnown, WipesData, NewInstalled, Predates;
    if |before| < |after| {
      var shorter := after[..|after| - 1];
      var d, e, e' := before[|before| - 1], after[|after| - 2], after[|after| - 1];
      assert forall i | |before| <= i < |shorter| :: Write(run, open, after[i - 1], after[i]);
      DataStays(run, open, before, shorter);
      assert Write(run, open, e, e');
      if !(e.data <= e'.data) {
        UnderwaySince(run, open, before, shorter);
        WipeDecision(run, e);
        if !open { OldDatabaseSurvives(run, before, shorter); PredatesNotEmpty(d); }
        assert false;
      }
    } else {
      assert before == after;
    }
  }

  lemma PredatesNotEmpty(d: Disk)
    requires Predates(d)
    ensures exists e :: e in d.db
  {
  }

  /** Over whole runs, a server's data can go exactly when it all comes together, which can be checked before the run. */
  lemma StagedDataCanGoIff(run: Run, d: Disk)
    ensures (exists after: seq<Disk> :: Extends(run, !Predates(d), [d], after) && !(d.data <= after[|after| - 1].data))
       <==> MayLose(run, d) && d.data != {}
  {
    var open := !Predates(d);
    hide Predates, MayLose, Write;
    if !MayLose(run, d) {
      forall after: seq<Disk> | Extends(run, open, [d], after) ensures d.data <= after[|after| - 1].data {
        DataStays(run, open, [d], after);
      }
    } else if d.data != {} {
      LosingWrites(run, d);
      var clear := d.(db := if run.bundle.postgres then map[] else d.db);
      var after := [d, clear, clear.(data := {})];
      assert Extends(run, open, [d], after);
      assert after[|after| - 1].data == {};
    }
  }

  lemma LosingWrites(run: Run, d: Disk)
    requires MayLose(run, d)
    ensures var clear := d.(db := if run.bundle.postgres then map[] else d.db);
            Write(run, !Predates(d), d, clear) && Write(run, !Predates(d), clear, clear.(data := {}))
  {
    var clear := d.(db := if run.bundle.postgres then map[] else d.db);
    WipeDecision(run, clear);
    hide Admits, SubstrateReady, UIDsKnown, WipesData, Predates;
  }

  /** Whatever else it is told: a run that sees the unit, or any probed port in use, removes nothing from the K3s data. */
  lemma {:induction false} SeenServerKeepsItsData(run: Run, open: bool, before: seq<Disk>, after: seq<Disk>)
    requires Extends(run, open, before, after)
    requires !TakesHostForEmpty(run)
    ensures before[|before| - 1].data <= after[|after| - 1].data
    decreases |after|
  {
    hide Admits, SubstrateReady, UIDsKnown;
    if |before| < |after| {
      var shorter := after[..|after| - 1];
      assert forall i | |before| <= i < |shorter| :: Write(run, open, after[i - 1], after[i]);
      SeenServerKeepsItsData(run, open, before, shorter);
      assert Write(run, open, after[|after| - 2], after[|after| - 1]);
    } else {
      assert before == after;
    }
  }

  /** In particular a server that the probe meets on one of its ports keeps its data, whether or not its unit is listed. */
  lemma ServerOnItsPortsKeepsItsData(run: Run, open: bool, before: seq<Disk>, after: seq<Disk>)
    requires Extends(run, open, before, after)
    requires run.portsInUse.Some? && run.portsInUse.value * REQUIRED_PORTS != {}
    ensures before[|before| - 1].data <= after[|after| - 1].data
  {
    SeenServerKeepsItsData(run, open, before, after);
  }

  /** The last step to the wipe takes three things, besides the database gate: no installed receipt, no listed unit, and no
      probed port in use. */
  lemma WipeDecision(run: Run, d: Disk)
    ensures WipesData(run, d) <==> (run.bundle.postgres ==> d.db == map[]) && d.installed.None? && TakesHostForEmpty(run)
  {
  }
}
