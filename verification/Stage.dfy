/** `cluster-server-stage`: the staging of one embedded-etcd server, rerunnable after any crash. */
module Stage {
  import opened Text
  import opened ClusterTopology
  import opened Keys
  import opened EnrollmentArtifact
  import opened HostDisk
  import K3sConfig
  import Ownership
  import EnrollmentCreate
  import R = Receipt

  /** One run: its verified inputs, and what it is told by the clock, before and after the server is brought up, by systemd and
      by Kubernetes. */
  datatype Run = Run(
    bundle: R.Bundle, id: R.Identity, inv: Inventory, nodeName: string, local: set<Address>, forced: bool,
    absolutePaths: bool, dataDir: string, tokenPath: string, absoluteTokenPath: bool, enrollment: Option<Enrollment>,
    signer: KeyDigest, checksDatabase: bool, now: int, later: int, signal: Option<Ownership.Signal>, clusterID: string,
    freshKey: Key, joinedCA: Option<string>, nodeUID: Option<string>)

  predicate Bootstraps(run: Run) { run.nodeName == run.inv.bootstrapNode }

  predicate LocalServer(inv: Inventory, nodeName: string, local: set<Address>) {
    var n := FindNode(inv.nodes, nodeName);
    n.Some? && n.value.address in local
  }

  predicate Requested(run: Run) {
    && run.bundle.embeddedEtcd
    && ClusterTopology.Valid(run.inv)
    && LocalServer(run.inv, run.nodeName, run.local)
    && !run.forced && run.absolutePaths
  }

  /** The bootstrap takes no enrollment; a peer needs one that is verified, pinned and addressed to it. */
  predicate Enrolled(run: Run, staged: Option<R.BootstrapState>) {
    if Bootstraps(run) then run.enrollment.None?
    else
      && run.absoluteTokenPath
      && run.enrollment.Some?
      && Verifies(run.enrollment.value, run.now, run.signer)
      && EnrollmentCreate.StageAccepts(run.enrollment.value, run.inv, run.nodeName, run.bundle, run.id, staged)
  }

  predicate SameSubstrate(run: Run, s: R.BootstrapState) {
    R.MatchesSubstrate(s, run.inv, run.bundle.k3sVersion, run.nodeName, run.id)
  }

  /** An installed receipt is tolerated only as the finalized deployment of this very bundle version. */
  predicate Restageable(run: Run, staged: Option<R.BootstrapState>, installed: Option<R.InstalledState>) {
    installed.Some? ==>
      && staged.Some? && SameSubstrate(run, staged.value)
      && R.InstallMatchesFinalizedStage(installed, staged, run.bundle.version)
  }

  predicate Resumes(run: Run, staged: Option<R.BootstrapState>) {
    staged.Some? ==>
      && SameSubstrate(run, staged.value)
      && (!Bootstraps(run) && run.enrollment.Some? ==>
            staged.value.clusterID == run.enrollment.value.clusterID && staged.value.signer == run.signer)
  }

  /** Everything a run has checked before it changes anything; it stays true throughout the run. */
  predicate Admits(run: Run, staged: Option<R.BootstrapState>, installed: Option<R.InstalledState>) {
    Requested(run) && Restageable(run, staged, installed) && Enrolled(run, staged) && Resumes(run, staged)
  }

  predicate Admitted(run: Run, d: Disk) { Admits(run, d.receipt, d.installed) }

  lemma AdmittedPeer(run: Run, d: Disk)
    requires Admitted(run, d)
    ensures !Bootstraps(run) ==> run.enrollment.Some?
    ensures ClusterTopology.Valid(run.inv) && FindNode(run.inv.nodes, run.nodeName).Some?
    ensures d.receipt.Some? ==> R.Valid(d.receipt.value)
  {
  }

  // ---- What a single write may do --------------------------------------------------------------

  predicate SameRecords(d: Disk, d': Disk) {
    d'.receipt == d.receipt && d'.installed == d.installed && d'.signer == d.signer
  }

  predicate ServiceFound(run: Run) { run.signal.Some? && run.signal.value.detected }

  /** The only state in which staging clears a K3s data directory. */
  predicate MayReclaim(run: Run, d: Disk) {
    && d.receipt.None?
    && ServiceFound(run) && !run.signal.value.active
    && d.unit == ReleaseOwned
    && !d.active
  }

  predicate NewReceipt(run: Run, s: R.BootstrapState) {
    && R.Matches(s, run.inv, run.bundle, run.nodeName, run.id)
    && s.phase == R.Prepared
    && s.clusterID == ClusterOf(run)
    && s.signer == (if Bootstraps(run) then NO_DIGEST else run.signer)
    && s.createdAt == s.updatedAt == run.now
  }

  predicate RenewedReceipt(run: Run, s: R.BootstrapState, s': R.BootstrapState) {
    && (s.phase == R.Prepared || s.phase == R.ServerReady)
    && R.Valid(s')
    && s' == s.(releaseID := run.bundle.releaseID, bundleVersion := run.bundle.version, updatedAt := run.now)
  }

  predicate ReadyReceipt(run: Run, s: R.BootstrapState, s': R.BootstrapState, key: Option<Key>) {
    && s.phase == R.Prepared && key.Some? && R.Valid(s')
    && s' == s.(phase := R.ServerReady, signer := KeyDigestOf(key.value), updatedAt := run.later)
  }

  predicate JoinedReceipt(run: Run, s: R.BootstrapState, s': R.BootstrapState) {
    && s.phase == R.Prepared && R.Valid(s')
    && run.nodeUID == Some(s'.nodeUID)
    && s' == s.(phase := R.Joined, nodeUID := s'.nodeUID, updatedAt := run.later)
  }

  predicate TokenInPlace(run: Run, d: Disk) {
    !Bootstraps(run) && run.enrollment.Some? ==> d.token == RegularToken(run.enrollment.value.token + "\n")
  }

  predicate JoinedRightCluster(run: Run) {
    !Bootstraps(run) ==>
      run.enrollment.Some? && run.joinedCA.Some? && CADigestOf(run.joinedCA.value) == run.enrollment.value.caHash
  }

  /** The server is up, with the inventory's configuration, a unit of this release, its binary and its token, in the cluster that
      its enrollment names. */
  predicate InPlace(run: Run, d: Disk) {
    && d.active && d.unit == ReleaseOwned && d.binary == Some(run.bundle.k3sVersion)
    && FindNode(run.inv.nodes, run.nodeName).Some?
    && d.config == Some(Rendered(K3sConfig.MemberConfig(run.inv, FindNode(run.inv.nodes, run.nodeName).value, run.dataDir, run.tokenPath)))
    && TokenInPlace(run, d) && JoinedRightCluster(run)
  }

  /** A first receipt goes to an empty host, and only a server in place is recorded as ready or joined. */
  predicate ReceiptWrite(run: Run, d: Disk, d': Disk) {
    && d'.receipt.Some?
    && d' == d.(receipt := d'.receipt)
    && d.installed.None?
    && if d.receipt.None? then d.data == {} && (run.checksDatabase ==> d.db == map[]) && NewReceipt(run, d'.receipt.value)
       else || (RenewedReceipt(run, d.receipt.value, d'.receipt.value))
            || (&& R.Matches(d.receipt.value, run.inv, run.bundle, run.nodeName, run.id) && InPlace(run, d)
                && if Bootstraps(run) then ReadyReceipt(run, d.receipt.value, d'.receipt.value, d.signer)
                   else JoinedReceipt(run, d.receipt.value, d'.receipt.value))
  }

  predicate SignerWrite(run: Run, d: Disk, d': Disk) {
    && Bootstraps(run)
    && d.receipt.Some? && d.receipt.value.phase == R.Prepared
    && d.signer.None? && InPlace(run, d)
    && d' == d.(signer := Some(run.freshKey))
  }

  /** Files, service and directories: the records stay, the database stays, the data directory only grows or is reclaimed. */
  predicate HostWrite(run: Run, d: Disk, d': Disk) {
    && SameRecords(d, d')
    && d'.db == d.db
    && (d.data <= d'.data || MayReclaim(run, d))
  }

  predicate Write(run: Run, d: Disk, d': Disk) {
    Admitted(run, d) && (ReceiptWrite(run, d, d') || SignerWrite(run, d, d') || HostWrite(run, d, d'))
  }

  ghost predicate Extends(run: Run, before: seq<Disk>, after: seq<Disk>) {
    && before != [] && before <= after
    && forall i | |before| <= i < |after| :: Write(run, after[i - 1], after[i])
  }

  lemma ExtendsTransitive(run: Run, a: seq<Disk>, b: seq<Disk>, c: seq<Disk>)
    requires Extends(run, a, b) && Extends(run, b, c)
    ensures Extends(run, a, c)
  {
    forall i | |a| <= i < |c| ensures Write(run, c[i - 1], c[i]) {
      if i < |b| { assert Write(run, b[i - 1], b[i]); }
    }
  }

  lemma AdmittedPersists(run: Run, d: Disk, d': Disk)
    requires Write(run, d, d')
    ensures Admitted(run, d')
  {
    hide R.Valid, Verifies, ClusterTopology.Valid;
    if d'.receipt != d.receipt { assert R.Valid(d'.receipt.value); }
  }

  // ---- What a successful run has achieved ------------------------------------------------------

  predicate Done(s: R.BootstrapState) { s.phase == R.ServerReady || s.phase == R.Joined || s.phase == R.Finalized }

  predicate AdoptsRelease(run: Run, s: R.BootstrapState) {
    && s.phase != R.Finalized && s.phase != R.Joined
    && (s.releaseID != run.bundle.releaseID || s.bundleVersion != run.bundle.version)
  }

  /** A rerun with nothing left to record. */
  predicate Settled(run: Run, d: Disk) {
    d.receipt.Some? && Done(d.receipt.value) && !AdoptsRelease(run, d.receipt.value)
  }

  /** An earlier run died after it wrote the unit and before it installed the binary: stage cannot get on from here. */
  predicate HalfInstalled(run: Run, d: Disk) {
    d.receipt.Some? && ServiceFound(run) && d.binary != Some(run.bundle.k3sVersion)
  }

  /** A resumed host holds another configuration than the inventory, in the order it is given now, makes for it. */
  predicate ConfigDiffers(run: Run, d: Disk) {
    && d.receipt.Some? && FindNode(run.inv.nodes, run.nodeName).Some?
    && d.config.Some?
    && d.config.value != Rendered(K3sConfig.MemberConfig(run.inv, FindNode(run.inv.nodes, run.nodeName).value, run.dataDir, run.tokenPath))
  }

  /** A server that was already staged: nothing is written, except that an unfinalized bootstrap adopts the release. */
  predicate Confirmed(run: Run, d0: Disk, d: Disk) {
    && d0.receipt.Some? && d.receipt.Some? && Done(d0.receipt.value)
    && d == d0.(receipt := d.receipt)
    && (if AdoptsRelease(run, d0.receipt.value) then RenewedReceipt(run, d0.receipt.value, d.receipt.value)
        else d == d0)
    && run.signal.Some? && run.signal.value.active
    && d.binary == Some(run.bundle.k3sVersion)
  }

  predicate UpReceipt(run: Run, prior: Option<R.BootstrapState>, s: R.BootstrapState, key: Option<Key>) {
    && R.Matches(s, run.inv, run.bundle, run.nodeName, run.id)
    && s.phase == (if Bootstraps(run) then R.ServerReady else R.Joined)
    && (Bootstraps(run) ==> key.Some? && s.signer == KeyDigestOf(key.value))
    && (!Bootstraps(run) ==> s.signer == run.signer && run.nodeUID == Some(s.nodeUID))
    && (prior.Some? ==> prior.value.phase == R.Prepared && s.clusterID == prior.value.clusterID
                        && s.createdAt == prior.value.createdAt)
    && (prior.None? ==> s.clusterID == ClusterOf(run) && s.createdAt == run.now)
    && s.updatedAt == run.later
  }

  /** The cluster a fresh host becomes part of: a new one, or the one its enrollment names. */
  function ClusterOf(run: Run): string {
    if Bootstraps(run) || run.enrollment.None? then run.clusterID else run.enrollment.value.clusterID
  }

  /** A server that this run brought up: the receipt names the run's inputs, and the files are the inventory's. */
  predicate BroughtUp(run: Run, d0: Disk, d: Disk) {
    && d.receipt.Some? && UpReceipt(run, d0.receipt, d.receipt.value, d.signer)
    && InPlace(run, d)
    && d.installed == d0.installed
  }

  // ---- When a run succeeds ---------------------------------------------------------------------

  predicate Configurable(run: Run) { !Blank(run.dataDir) && (Bootstraps(run) || !Blank(run.tokenPath)) }

  /** A host without a receipt that staging may take: nothing runs on it, what data it has a release-owned unit left behind, the
      database directory is empty, and at a peer's token path there is at most a regular file. */
  predicate Takeable(run: Run, d: Disk) {
    && (if ServiceFound(run) then !run.signal.value.active && (d.data == {} || d.unit == ReleaseOwned) else d.data == {})
    && (run.checksDatabase ==> d.db == map[])
    && (Bootstraps(run) || d.token != SpecialToken)
  }

  /** The facts that a first receipt records. */
  predicate Identified(run: Run) {
    && !Blank(run.id.name) && !Blank(run.id.profile) && !Blank(run.id.zone) && !Blank(ClusterOf(run))
    && !Blank(run.bundle.releaseID) && !Blank(run.bundle.version) && !Blank(run.bundle.k3sVersion)
    && run.now != R.ZERO_TIME
  }

  /** A host with a receipt, where an earlier run left it: with the release's binary if its unit is listed, and with the
      inventory's configuration, unless it had come to neither. */
  predicate Resumable(run: Run, d: Disk) {
    && (ServiceFound(run) ==> d.binary == Some(run.bundle.k3sVersion))
    && (if d.config.Some? then !ConfigDiffers(run, d) else !ServiceFound(run))
  }

  predicate Renewable(run: Run, s: R.BootstrapState) {
    !Blank(run.bundle.releaseID) && !Blank(run.bundle.version) && run.now != R.ZERO_TIME && s.createdAt <= run.now
  }

  predicate ServerInPlace(run: Run, d: Disk) {
    run.signal.Some? && run.signal.value.active && d.binary == Some(run.bundle.k3sVersion) && JoinedRightCluster(run)
  }

  /** The bring-up can be recorded: a peer has registered, and the clock has not gone back. */
  predicate Recordable(run: Run, created: int) {
    && run.later != R.ZERO_TIME && created <= run.later
    && (Bootstraps(run) || (run.nodeUID.Some? && !Blank(run.nodeUID.value)))
  }

  /** On a host that may be staged: a first receipt, or a release that can be recorded if need be; then a server that is in place,
      or one that can be brought up and recorded. */
  predicate MayFinish(run: Run, d: Disk) {
    match d.receipt
    case None => Identified(run) && JoinedRightCluster(run) && Recordable(run, run.now)
    case Some(s) =>
      && (AdoptsRelease(run, s) ==> Renewable(run, s))
      && if Done(s) then ServerInPlace(run, d) else JoinedRightCluster(run) && Recordable(run, s.createdAt)
  }

  /** All it takes, besides calls that work, for a run to succeed. */
  predicate MayStage(run: Run, d: Disk) {
    && Admitted(run, d) && run.signal.Some? && Configurable(run)
    && (if d.receipt.None? then Takeable(run, d) else Resumable(run, d))
    && MayFinish(run, d)
  }


  // ---- The run ---------------------------------------------------------------------------------

  method Admit(h: Host, run: Run) returns (ok: bool)
    ensures ok <==> Admitted(run, h.disk)
  {
    if !run.bundle.embeddedEtcd { return false; }
    ok := ClusterTopology.Validate(run.inv);
    if !ok || !LocalServer(run.inv, run.nodeName, run.local) || run.forced || !run.absolutePaths { return false; }
    var d := h.disk;
    if d.receipt.Some? && !R.Valid(d.receipt.value) { return false; }
    if d.installed.Some? && !(&& d.receipt.Some? && SameSubstrate(run, d.receipt.value)
                              && R.InstallMatchesFinalizedStage(d.installed, d.receipt, run.bundle.version)) {
      return false;
    }
    if !Enrolled(run, d.receipt) { return false; }
    if d.receipt.Some? {
      if !SameSubstrate(run, d.receipt.value) { return false; }
      if !Bootstraps(run) && (d.receipt.value.clusterID != run.enrollment.value.clusterID || d.receipt.value.signer != run.signer) {
        return false;
      }
    }
    return true;
  }

  /** No receipt, yet a K3s unit is there: an active service or foreign data stays put, a dead release-owned one is cleared. */
  method ReclaimInactive(h: Host, run: Run) returns (ok: bool)
    requires h.Valid() && Admitted(run, h.disk) && h.disk.receipt.None? && ServiceFound(run)
    modifies h
    ensures h.Valid() && Extends(run, old(h.log), h.log) && Admitted(run, h.disk)
    ensures SameRecords(old(h.disk), h.disk) && h.disk.unit == old(h.disk).unit
    ensures ok ==> !run.signal.value.active && !h.disk.active && h.disk.data == {}
    ensures run.signal.value.active || (old(h.disk).data != {} && old(h.disk).unit != ReleaseOwned) ==>
              !ok && h.log == old(h.log)
    ensures h.disk == old(h.disk).(active := h.disk.active, data := h.disk.data)
    ensures h.failures >= old(h.failures)
    ensures ok <==> && h.failures == old(h.failures)
                    && !run.signal.value.active && (old(h.disk).data == {} || old(h.disk).unit == ReleaseOwned)
  {
    hide Admits, ReceiptWrite;
    if run.signal.value.active { return false; }
    var occupied := h.disk.data != {};
    if occupied && h.disk.unit != ReleaseOwned { return false; }
    ok := h.Stop();
    if ok && occupied { ok := h.RemoveData(); }
  }

  /** A host without a receipt must be empty before it gets one; a peer's leftover token file is removed. */
  method CheckEmptyHost(h: Host, run: Run) returns (ok: bool)
    requires h.Valid() && Admitted(run, h.disk) && h.disk.receipt.None?
    modifies h
    ensures h.Valid() && Extends(run, old(h.log), h.log) && Admitted(run, h.disk)
    ensures SameRecords(old(h.disk), h.disk)
    ensures ok ==> h.disk.data == {} && (run.checksDatabase ==> h.disk.db == map[])
    ensures ok && !Bootstraps(run) ==> h.disk.token == NoToken
    ensures h.failures >= old(h.failures)
    ensures ok <==> && h.failures == old(h.failures) && old(h.disk).data == {} && (run.checksDatabase ==> old(h.disk).db == map[])
                    && (Bootstraps(run) || old(h.disk).token != SpecialToken)
  {
    hide Admits, ReceiptWrite;
    if h.disk.data != {} { return false; }
    if run.checksDatabase && h.disk.db != map[] { return false; }
    if Bootstraps(run) { return true; }
    match h.disk.token {
      case NoToken => ok := true;
      case RegularToken(_) => ok := h.ReplaceFiles(NoToken, h.disk.config, h.disk.unit, h.disk.binary);
      case SpecialToken => ok := false;
    }
  }

  predicate EmptyHost(run: Run, d: Disk) { d.data == {} && (run.checksDatabase ==> d.db == map[]) }

  method CreateReceipt(h: Host, run: Run) returns (ok: bool)
    requires h.Valid() && Admitted(run, h.disk) && h.disk.receipt.None? && EmptyHost(run, h.disk)
    modifies h
    ensures h.Valid() && Extends(run, old(h.log), h.log) && Admitted(run, h.disk)
    ensures h.disk == old(h.disk).(receipt := h.disk.receipt)
    ensures h.failures >= old(h.failures) && (ok <==> h.failures == old(h.failures) && Identified(run))
    ensures ok ==> h.disk.receipt.Some? && NewReceipt(run, h.disk.receipt.value)
  {
    AdmittedPeer(run, h.disk);
    assert h.disk.installed.None?;
    var s := R.BootstrapState(
      R.STATE_VERSION, EMBEDDED_ETCD_V1, Fingerprint(run.inv),
      if Bootstraps(run) then run.clusterID else run.enrollment.value.clusterID,
      run.id.name, run.id.profile, run.id.zone, run.bundle.releaseID, run.bundle.version, run.bundle.k3sVersion,
      run.nodeName, R.Prepared, "", if Bootstraps(run) then NO_DIGEST else run.signer, run.now, run.now);
    NewReceiptPersistsAdmission(run, h.disk, s);
    hide Admits, R.Valid, NewReceipt, Identified;
    ok := h.SaveReceipt(s);
  }

  lemma NewReceiptPersistsAdmission(run: Run, d: Disk, s: R.BootstrapState)
    requires Admitted(run, d) && d.receipt.None?
    requires s.fingerprint == Fingerprint(run.inv) && s.k3sVersion == run.bundle.k3sVersion && s.localNode == run.nodeName
    requires s.name == run.id.name && s.profile == run.id.profile && s.zone == run.id.zone
    requires s.releaseID == run.bundle.releaseID && s.bundleVersion == run.bundle.version
    requires s.clusterID == ClusterOf(run) && s.phase == R.Prepared
    requires s.signer == if Bootstraps(run) then NO_DIGEST else run.signer
    requires s.createdAt == s.updatedAt == run.now && s.schemaVersion == R.STATE_VERSION && s.topology == EMBEDDED_ETCD_V1 && s.nodeUID == ""
    ensures R.Valid(s) <==> Identified(run)
    ensures R.Valid(s) ==> NewReceipt(run, s) && Admits(run, Some(s), d.installed)
  {
    assert R.Valid(s) <==> Identified(run) by {
      if !Bootstraps(run) { ValidIsGenuine(run.enrollment.value, run.now, run.signer); }
      NodeNameNotBlank(run.nodeName);
      hide Verifies, EnrollmentCreate.StageAccepts, Blank;
    }
    hide R.Valid, Verifies, ClusterTopology.Valid;
  }

  /** The first receipt of a host, or the successor release recorded on an unfinished one. */
  method RecordRelease(h: Host, run: Run) returns (ok: bool)
    requires h.Valid() && Admitted(run, h.disk) && (h.disk.receipt.None? ==> EmptyHost(run, h.disk))
    modifies h
    ensures h.Valid() && Extends(run, old(h.log), h.log) && Admitted(run, h.disk)
    ensures h.disk == old(h.disk).(receipt := h.disk.receipt)
    ensures ok ==> h.disk.receipt.Some?
    ensures ok && old(h.disk).receipt.None? ==> NewReceipt(run, h.disk.receipt.value)
    ensures ok && old(h.disk).receipt.Some? && AdoptsRelease(run, old(h.disk).receipt.value) ==>
              RenewedReceipt(run, old(h.disk).receipt.value, h.disk.receipt.value)
    ensures old(h.disk).receipt.Some? && !AdoptsRelease(run, old(h.disk).receipt.value) ==>
              ok && h.disk == old(h.disk) && h.log == old(h.log)
    ensures h.failures >= old(h.failures)
    ensures ok <==> && h.failures == old(h.failures)
                    && (if old(h.disk).receipt.None? then Identified(run)
                        else AdoptsRelease(run, old(h.disk).receipt.value) ==> Renewable(run, old(h.disk).receipt.value))
  {
    if h.disk.receipt.None? {
      ok := CreateReceipt(h, run);
    } else if AdoptsRelease(run, h.disk.receipt.value) {
      ok := RenewReceipt(h, run);
    } else {
      ok := true;
    }
  }

  method RenewReceipt(h: Host, run: Run) returns (ok: bool)
    requires h.Valid() && Admitted(run, h.disk) && h.disk.receipt.Some? && AdoptsRelease(run, h.disk.receipt.value)
    modifies h
    ensures h.Valid() && Extends(run, old(h.log), h.log) && Admitted(run, h.disk)
    ensures h.disk == old(h.disk).(receipt := h.disk.receipt)
    ensures h.disk.receipt.Some?
    ensures ok ==> RenewedReceipt(run, old(h.disk).receipt.value, h.disk.receipt.value)
    ensures h.failures >= old(h.failures) && (ok <==> h.failures == old(h.failures) && Renewable(run, old(h.disk).receipt.value))
  {
    var s := h.disk.receipt.value;
    var s' := s.(releaseID := run.bundle.releaseID, bundleVersion := run.bundle.version, updatedAt := run.now);
    AdoptionPersistsAdmission(run, h.disk, s');
    hide Admits, R.Valid, Renewable;
    ok := h.SaveReceipt(s');
  }

  lemma AdoptionPersistsAdmission(run: Run, d: Disk, s': R.BootstrapState)
    requires Admitted(run, d) && d.receipt.Some? && AdoptsRelease(run, d.receipt.value)
    requires s' == d.receipt.value.(releaseID := run.bundle.releaseID, bundleVersion := run.bundle.version, updatedAt := run.now)
    ensures R.Valid(s') <==> Renewable(run, d.receipt.value)
    ensures d.installed.None? && (d.receipt.value.phase == R.Prepared || d.receipt.value.phase == R.ServerReady)
    ensures R.Valid(s') ==> Admits(run, Some(s'), d.installed)
  {
    assert R.Valid(d.receipt.value);
    hide Verifies, ClusterTopology.Valid;
  }

  method PutFiles(h: Host, run: Run, token: TokenPath, config: Option<ConfigFile>, unit: UnitFile, binary: Option<string>)
    returns (ok: bool)
    requires h.Valid() && Admitted(run, h.disk)
    modifies h
    ensures h.Valid() && Extends(run, old(h.log), h.log) && Admitted(run, h.disk)
    ensures h.disk == old(h.disk).(token := h.disk.token, config := h.disk.config, unit := h.disk.unit, binary := h.disk.binary)
    ensures ok ==> h.disk.token == token && h.disk.config == config && h.disk.unit == unit && h.disk.binary == binary
    ensures h.failures == if ok then old(h.failures) else old(h.failures) + 1
    ensures !ok ==> h.disk == old(h.disk)
    ensures ok ==> h.log == old(h.log) + [h.disk]
  {
    hide Admits;
    ok := h.ReplaceFiles(token, config, unit, binary);
  }

  method StartServer(h: Host, run: Run) returns (ok: bool)
    requires h.Valid() && Admitted(run, h.disk)
    modifies h
    ensures h.Valid() && Extends(run, old(h.log), h.log) && Admitted(run, h.disk)
    ensures h.disk == old(h.disk).(active := h.disk.active, data := h.disk.data)
    ensures h.failures == if ok then old(h.failures) else old(h.failures) + 1
    ensures ok ==> h.disk.active && h.log == old(h.log) + [h.disk]
  {
    hide Admits;
    ok := h.EnableAndStart();
  }

  method WriteToken(h: Host, run: Run) returns (ok: bool)
    requires h.Valid() && Admitted(run, h.disk)
    modifies h
    ensures h.Valid() && Extends(run, old(h.log), h.log) && Admitted(run, h.disk)
    ensures SameRecords(old(h.disk), h.disk)
    ensures h.failures == if ok then old(h.failures) else old(h.failures) + 1
    ensures ok ==> TokenInPlace(run, h.disk)
  {
    AdmittedPeer(run, h.disk);
    if Bootstraps(run) { return true; }
    ok := PutFiles(h, run, RegularToken(run.enrollment.value.token + "\n"), h.disk.config, h.disk.unit, h.disk.binary);
  }

  /** The last four states of a bring-up: configured, with its unit, with its binary, started. A crash in between shows. */
  predicate InOrder(log: seq<Disk>, config: K3sConfig.Config, version: string) {
    && |log| >= 5
    && log[|log| - 4] == log[|log| - 5].(config := Some(Rendered(config)))
    && log[|log| - 3] == log[|log| - 4].(unit := ReleaseOwned)
    && log[|log| - 2] == log[|log| - 3].(binary := Some(version))
    && log[|log| - 1] == log[|log| - 2].(active := true, data := log[|log| - 1].data)
  }

  /** The configuration, the unit and the binary, each a file of its own. */
  method PlaceFiles(h: Host, run: Run, config: K3sConfig.Config) returns (ok: bool)
    requires h.Valid() && Admitted(run, h.disk)
    modifies h
    ensures h.Valid() && Extends(run, old(h.log), h.log) && Admitted(run, h.disk)
    ensures h.disk == old(h.disk).(config := h.disk.config, unit := h.disk.unit, binary := h.disk.binary)
    ensures h.failures >= old(h.failures) && (ok <==> h.failures == old(h.failures))
    ensures ok ==> Placed(old(h.log), old(h.disk), h.log, config, run.bundle.k3sVersion)
  {
    hide *;
    ghost var d0, log0 := h.disk, h.log;
    ok := PutFiles(h, run, h.disk.token, Some(Rendered(config)), h.disk.unit, h.disk.binary);
    if !ok { return; }
    ghost var log1 := h.log;
    ok := PutFiles(h, run, h.disk.token, h.disk.config, ReleaseOwned, h.disk.binary);
    ExtendsTransitive(run, log0, log1, h.log);
    if !ok { return; }
    ghost var log2 := h.log;
    ok := PutFiles(h, run, h.disk.token, h.disk.config, h.disk.unit, Some(run.bundle.k3sVersion));
    ExtendsTransitive(run, log0, log2, h.log);
    if ok { PlacedNow(log0, d0, h.log, config, run.bundle.k3sVersion); }
  }

  predicate Placed(before: seq<Disk>, d: Disk, after: seq<Disk>, config: K3sConfig.Config, version: string) {
    after == before + [d.(config := Some(Rendered(config))), d.(config := Some(Rendered(config)), unit := ReleaseOwned),
                       d.(config := Some(Rendered(config)), unit := ReleaseOwned, binary := Some(version))]
  }

  lemma PlacedNow(before: seq<Disk>, d: Disk, after: seq<Disk>, config: K3sConfig.Config, version: string)
    requires after == before + [d.(config := Some(Rendered(config)))] + [d.(config := Some(Rendered(config)), unit := ReleaseOwned)]
                      + [d.(config := Some(Rendered(config)), unit := ReleaseOwned, binary := Some(version))]
    ensures Placed(before, d, after, config, version)
  {
  }

  /** From a prepared receipt to a running server: token, config, unit, binary, start, CA check, images. */
  method BringUp(h: Host, run: Run, config: K3sConfig.Config) returns (ok: bool)
    requires h.Valid() && Admitted(run, h.disk)
    modifies h
    ensures h.Valid() && Extends(run, old(h.log), h.log) && Admitted(run, h.disk)
    ensures SameRecords(old(h.disk), h.disk)
    ensures ok ==> && h.disk.config == Some(Rendered(config)) && h.disk.unit == ReleaseOwned
                   && h.disk.binary == Some(run.bundle.k3sVersion) && h.disk.active && TokenInPlace(run, h.disk)
                   && JoinedRightCluster(run)
    ensures ok ==> InOrder(h.log, config, run.bundle.k3sVersion)
    ensures h.failures >= old(h.failures) && (ok <==> h.failures == old(h.failures) && JoinedRightCluster(run))
  {
    AdmittedPeer(run, h.disk);
    hide Admitted, Extends, Write;
    ghost var log0 := h.log;
    ok := WriteToken(h, run);
    if !ok { return; }
    ghost var log1 := h.log;
    ok := PlaceFiles(h, run, config);
    ExtendsTransitive(run, log0, log1, h.log);
    if !ok { return; }
    ghost var log2 := h.log;
    ok := StartServer(h, run);
    ExtendsTransitive(run, log0, log2, h.log);
    if !ok { return; }
    if !Bootstraps(run) && !(run.joinedCA.Some? && CADigestOf(run.joinedCA.value) == run.enrollment.value.caHash) {
      return false;
    }
    ok := h.Attempt();
  }

  predicate ReadyToRecord(run: Run, d: Disk) {
    && Admitted(run, d) && d.receipt.Some? && d.installed.None?
    && R.Matches(d.receipt.value, run.inv, run.bundle, run.nodeName, run.id)
    && d.receipt.value.phase == R.Prepared
    && InPlace(run, d)
  }

  /** The bootstrap server records its enrollment signer. */
  method RecordReady(h: Host, run: Run) returns (ok: bool)
    requires h.Valid() && ReadyToRecord(run, h.disk) && Bootstraps(run)
    modifies h
    ensures h.Valid() && Extends(run, old(h.log), h.log)
    ensures h.disk == old(h.disk).(receipt := h.disk.receipt, signer := h.disk.signer)
    ensures h.failures >= old(h.failures) && (ok <==> h.failures == old(h.failures) && Recordable(run, old(h.disk).receipt.value.createdAt))
    ensures ok ==> h.disk.receipt.Some? && ReadyReceipt(run, old(h.disk).receipt.value, h.disk.receipt.value, h.disk.signer)
  {
    ReadyIsValid(run, h.disk.receipt.value);
    hide Admits, R.Matches, R.Valid, Recordable;
    ghost var log0 := h.log;
    var key := h.LoadOrCreateSigner(run.freshKey);
    if key.None? { return false; }
    ghost var log1 := h.log;
    assert Extends(run, log0, log1);
    var s := h.disk.receipt.value;
    ok := h.SaveReceipt(s.(signer := KeyDigestOf(key.value), phase := R.ServerReady, updatedAt := run.later));
    assert Extends(run, log1, h.log);
    ExtendsTransitive(run, log0, log1, h.log);
  }

  /** A peer records the Kubernetes UID under which it registered. */
  method RecordJoined(h: Host, run: Run) returns (ok: bool)
    requires h.Valid() && ReadyToRecord(run, h.disk) && !Bootstraps(run)
    modifies h
    ensures h.Valid() && Extends(run, old(h.log), h.log)
    ensures h.disk == old(h.disk).(receipt := h.disk.receipt)
    ensures h.failures >= old(h.failures) && (ok <==> h.failures == old(h.failures) && Recordable(run, old(h.disk).receipt.value.createdAt))
    ensures ok ==> h.disk.receipt.Some? && JoinedReceipt(run, old(h.disk).receipt.value, h.disk.receipt.value)
  {
    hide Admits, R.Valid, Verifies, ClusterTopology.Valid, Recordable;
    assert R.Valid(h.disk.receipt.value) && (run.nodeUID.None? || Blank(run.nodeUID.value) ==> !Recordable(run, h.disk.receipt.value.createdAt)) by {
      RecordingNeeds(run, h.disk);
    }
    JoinedIsValid(run, h.disk.receipt.value);
    hide R.Matches;
    if run.nodeUID.None? || Blank(run.nodeUID.value) { return false; }
    var s := h.disk.receipt.value;
    ok := h.SaveReceipt(s.(nodeUID := run.nodeUID.value, phase := R.Joined, updatedAt := run.later));
  }

  lemma RecordingNeeds(run: Run, d: Disk)
    requires ReadyToRecord(run, d)
    ensures R.Valid(d.receipt.value)
    ensures !Bootstraps(run) && (run.nodeUID.None? || Blank(run.nodeUID.value)) ==> !Recordable(run, d.receipt.value.createdAt)
  {
    hide R.Valid, Admits, Blank;
  }

  lemma ReadyIsValid(run: Run, s: R.BootstrapState)
    requires R.Valid(s) && s.phase == R.Prepared && Bootstraps(run)
    ensures forall key: Key :: R.Valid(s.(signer := KeyDigestOf(key), phase := R.ServerReady, updatedAt := run.later))
                          <==> Recordable(run, s.createdAt)
  {
    hide Blank, NodeName;
  }

  lemma JoinedIsValid(run: Run, s: R.BootstrapState)
    requires R.Valid(s) && s.phase == R.Prepared && !Bootstraps(run)
    ensures run.nodeUID.Some? ==>
              (R.Valid(s.(nodeUID := run.nodeUID.value, phase := R.Joined, updatedAt := run.later)) <==> Recordable(run, s.createdAt))
  {
    hide Blank, NodeName;
  }

  /** What precedes the receipt: a dead leftover is cleared, a resumed binary checked, a fresh host found empty. */
  method PrepareHost(h: Host, run: Run) returns (ok: bool)
    requires h.Valid() && Admitted(run, h.disk) && run.signal.Some?
    modifies h
    ensures h.Valid() && Extends(run, old(h.log), h.log) && Admitted(run, h.disk)
    ensures SameRecords(old(h.disk), h.disk)
    ensures old(h.disk).receipt.Some? ==> h.disk == old(h.disk) && h.log == old(h.log)
    ensures ok && h.disk.receipt.None? ==> EmptyHost(run, h.disk)
    ensures ok && h.disk.receipt.Some? && run.signal.value.detected ==> h.disk.binary == Some(run.bundle.k3sVersion)
    ensures h.failures >= old(h.failures)
    ensures ok <==> && h.failures == old(h.failures)
                    && (if old(h.disk).receipt.None? then Takeable(run, old(h.disk))
                        else ServiceFound(run) ==> old(h.disk).binary == Some(run.bundle.k3sVersion))
  {
    ghost var log0 := h.log;
    hide Admits, Write;
    if h.disk.receipt.Some? {
      if run.signal.value.detected {
        var version := h.Version();
        return version == Some(run.bundle.k3sVersion);
      }
      return true;
    }
    if run.signal.value.detected {
      ok := ReclaimInactive(h, run);
      if !ok { return false; }
    }
    ghost var log1 := h.log;
    ok := CheckEmptyHost(h, run);
    ExtendsTransitive(run, log0, log1, h.log);
  }

  /** The end of a run on a server that an earlier run had finished. */
  method ConfirmServer(h: Host, run: Run) returns (ok: bool)
    requires Admitted(run, h.disk) && run.signal.Some?
    modifies h`failures
    ensures h.failures >= old(h.failures) && (ok <==> h.failures == old(h.failures) && ServerInPlace(run, h.disk))
  {
    AdmittedPeer(run, h.disk);
    hide Admits;
    if !run.signal.value.active { return false; }
    var version := h.Version();
    if version != Some(run.bundle.k3sVersion) { return false; }
    return Bootstraps(run) || (run.joinedCA.Some? && CADigestOf(run.joinedCA.value) == run.enrollment.value.caHash);
  }

  /** The receipt as it stands before the server is brought up: new, renewed for this release, or the prepared one found. */
  predicate Recorded(run: Run, d0: Disk, d: Disk) {
    && d.receipt.Some? && !Done(d.receipt.value)
    && d.installed == d0.installed
    && (d0.receipt.None? ==> NewReceipt(run, d.receipt.value))
    && (d0.receipt.Some? && AdoptsRelease(run, d0.receipt.value) ==> RenewedReceipt(run, d0.receipt.value, d.receipt.value))
    && (d0.receipt.Some? && !AdoptsRelease(run, d0.receipt.value) ==> d.receipt == d0.receipt)
  }

  lemma RecordedIsReady(run: Run, d0: Disk, d: Disk)
    requires Admitted(run, d0) && Admitted(run, d) && Recorded(run, d0, d)
    ensures InPlace(run, d) ==> ReadyToRecord(run, d)
    ensures d.installed.None? && R.Matches(d.receipt.value, run.inv, run.bundle, run.nodeName, run.id)
    ensures R.Valid(d.receipt.value) && d.receipt.value.phase == R.Prepared
    ensures d0.receipt.None? ==> d.receipt.value.clusterID == ClusterOf(run) && d.receipt.value.createdAt == run.now
    ensures d0.receipt.Some? ==> d0.receipt.value.phase == R.Prepared
                                 && d.receipt.value.clusterID == d0.receipt.value.clusterID
                                 && d.receipt.value.createdAt == d0.receipt.value.createdAt
    ensures !Bootstraps(run) ==> d.receipt.value.signer == run.signer
  {
    hide R.Valid, Verifies, ClusterTopology.Valid;
    assert R.Valid(d.receipt.value);
    assert d.receipt.value.phase == R.Prepared by { AdmittedPeer(run, d); ReceiptPhases(d.receipt.value); }
  }

  lemma ReceiptPhases(s: R.BootstrapState)
    requires R.Valid(s) && !Done(s)
    ensures s.phase == R.Prepared
  {
  }

  /** The receipt that ends a staging run, from the one recorded before the server was brought up. */
  lemma UpReceiptNow(run: Run, d0: Disk, d1: Disk, s: R.BootstrapState, key: Option<Key>)
    requires Admitted(run, d0) && Admitted(run, d1) && Recorded(run, d0, d1)
    requires if Bootstraps(run) then ReadyReceipt(run, d1.receipt.value, s, key) else JoinedReceipt(run, d1.receipt.value, s)
    ensures UpReceipt(run, d0.receipt, s, key)
  {
    hide R.Valid, Admits, Recorded, NewReceipt, RenewedReceipt, ClusterTopology.Valid;
    RecordedIsReady(run, d0, d1);
  }

  lemma BroughtUpNow(run: Run, d0: Disk, d1: Disk, d2: Disk, d3: Disk)
    requires Admitted(run, d0)
    requires Admitted(run, d1) && Recorded(run, d0, d1)
    requires d2.receipt == d1.receipt && d1.installed == d2.installed
    requires InPlace(run, d2)
    requires d3 == d2.(receipt := d3.receipt, signer := d3.signer) && d3.receipt.Some?
    requires if Bootstraps(run) then ReadyReceipt(run, d2.receipt.value, d3.receipt.value, d3.signer)
             else JoinedReceipt(run, d2.receipt.value, d3.receipt.value)
    ensures BroughtUp(run, d0, d3)
  {
    hide R.Valid, Admits, NewReceipt, RenewedReceipt, ReadyReceipt, JoinedReceipt, AdoptsRelease, UpReceipt, K3sConfig.MemberConfig, Done;
    UpReceiptNow(run, d0, d1, d3.receipt.value, d3.signer);
  }

  /** Staging one server. Every write, up to any crash or failure, is one that `Write` allows. */
  method StageEmbeddedEtcd(h: Host, run: Run) returns (r: Outcome<R.BootstrapState>)
    requires h.Valid()
    modifies h
    ensures h.Valid() && Extends(run, old(h.log), h.log)
    ensures r.Ok? ==> h.disk.receipt == Some(r.value) && Admitted(run, old(h.disk)) && JoinedRightCluster(run)
    ensures r.Ok? ==> Confirmed(run, old(h.disk), h.disk) || BroughtUp(run, old(h.disk), h.disk)
    ensures !Admitted(run, old(h.disk)) ==> r.Err? && h.log == old(h.log)
    ensures Settled(run, old(h.disk)) ==> h.log == old(h.log)
    ensures HalfInstalled(run, old(h.disk)) ==> r.Err? && h.log == old(h.log)
    ensures ConfigDiffers(run, old(h.disk)) ==> r.Err? && h.log == old(h.log)
    ensures h.failures >= old(h.failures) && (r.Ok? <==> h.failures == old(h.failures) && MayStage(run, old(h.disk)))
  {
    var ok := Admit(h, run);
    if !ok || run.signal.None? { return Err; }
    AdmittedPeer(run, h.disk);
    ghost var d0, log0 := h.disk, h.log;
    hide Admits, Write;
    ok := PrepareHost(h, run);
    if !ok { return Err; }
    ghost var log1 := h.log;
    var config := K3sConfig.EmbeddedEtcdConfig(run.inv, run.nodeName, run.dataDir, run.tokenPath);
    if config.Err? { return Err; }
    ok := ConfigUnchanged(h, run, config.value);
    if !ok { return Err; }
    ok := h.Attempt();
    if !ok { return Err; }
    ghost var d1 := h.disk;
    hide *;
    r := StageServer(h, run, config.value);
    ExtendsTransitive(run, log0, log1, h.log);
    if r.Ok? { AchievedFromPrepared(run, d0, d1, h.disk); }
  }

  /** Preparing the host keeps its records, and the whole of a host that had a receipt. */
  lemma AchievedFromPrepared(run: Run, d0: Disk, d1: Disk, d: Disk)
    requires SameRecords(d0, d1) && (d0.receipt.Some? ==> d1 == d0)
    ensures Confirmed(run, d1, d) ==> Confirmed(run, d0, d)
    ensures BroughtUp(run, d1, d) ==> BroughtUp(run, d0, d)
  {
  }

  /** On a host that passed its checks: record the release, then confirm the server or bring it up. */
  method StageServer(h: Host, run: Run, config: K3sConfig.Config) returns (r: Outcome<R.BootstrapState>)
    requires h.Valid() && Admitted(run, h.disk) && run.signal.Some? && (h.disk.receipt.None? ==> EmptyHost(run, h.disk))
    requires FindNode(run.inv.nodes, run.nodeName).Some?
    requires config == K3sConfig.MemberConfig(run.inv, FindNode(run.inv.nodes, run.nodeName).value, run.dataDir, run.tokenPath)
    modifies h
    ensures h.Valid() && Extends(run, old(h.log), h.log)
    ensures r.Ok? ==> h.disk.receipt == Some(r.value) && JoinedRightCluster(run)
    ensures r.Ok? ==> Confirmed(run, old(h.disk), h.disk) || BroughtUp(run, old(h.disk), h.disk)
    ensures Settled(run, old(h.disk)) ==> h.log == old(h.log)
    ensures h.failures >= old(h.failures) && (r.Ok? <==> h.failures == old(h.failures) && MayFinish(run, old(h.disk)))
  {
    hide Admits, Write;
    ghost var d0, log0 := h.disk, h.log;
    var ok := RecordRelease(h, run);
    if !ok { return Err; }
    ghost var log1 := h.log;
    if Done(h.disk.receipt.value) {
      ok := ConfirmServer(h, run);
      return if ok then Ok(h.disk.receipt.value) else Err;
    }
    ok := BringUpAndRecord(h, run, config, d0);
    ExtendsTransitive(run, log0, log1, h.log);
    if !ok { return Err; }
    r := Ok(h.disk.receipt.value);
  }

  /** From a prepared receipt to a running, recorded server. */
  method BringUpAndRecord(h: Host, run: Run, config: K3sConfig.Config, ghost d0: Disk) returns (ok: bool)
    requires h.Valid() && Admitted(run, h.disk) && Admitted(run, d0)
    requires FindNode(run.inv.nodes, run.nodeName).Some?
    requires config == K3sConfig.MemberConfig(run.inv, FindNode(run.inv.nodes, run.nodeName).value, run.dataDir, run.tokenPath)
    requires h.disk.receipt.Some? && Recorded(run, d0, h.disk)
    modifies h
    ensures h.Valid() && Extends(run, old(h.log), h.log)
    ensures ok ==> h.disk.receipt.Some? && BroughtUp(run, d0, h.disk) && JoinedRightCluster(run)
    ensures h.failures >= old(h.failures)
    ensures ok <==> h.failures == old(h.failures) && JoinedRightCluster(run) && Recordable(run, old(h.disk).receipt.value.createdAt)
  {
    RecordedIsReady(run, d0, h.disk);
    hide Admits, Write, Recorded, NewReceipt, R.Matches;
    ghost var d1, log0 := h.disk, h.log;
    ok := BringUp(h, run, config);
    if !ok { return; }
    ghost var d2, log1 := h.disk, h.log;
    if Bootstraps(run) { ok := RecordReady(h, run); } else { ok := RecordJoined(h, run); }
    ExtendsTransitive(run, log0, log1, h.log);
    if ok { BroughtUpNow(run, d0, d1, d2, h.disk); }
  }

  /** A resumed host must still hold the configuration that the inventory gives it, or none if no unit was found. */
  method ConfigUnchanged(h: Host, run: Run, config: K3sConfig.Config) returns (ok: bool)
    requires run.signal.Some?
    modifies h`failures
    ensures h.failures >= old(h.failures)
    ensures ok <==> && h.failures == old(h.failures)
                    && (h.disk.receipt.Some? ==> if h.disk.config.Some? then h.disk.config == Some(Rendered(config))
                                                 else !ServiceFound(run))
  {
    if h.disk.receipt.None? { return true; }
    ok := h.Attempt();
    if !ok { return false; }
    if h.disk.config.Some? { return h.disk.config == Some(Rendered(config)); }
    return !run.signal.value.detected;
  }

  // ---- Three ways to succeed -------------------------------------------------------------------

  /** The first stage of a server, from an empty host on which no K3s unit is listed. */
  lemma FirstStageSucceeds(run: Run, d: Disk)
    requires Admitted(run, d) && d.receipt.None? && run.signal.Some? && !run.signal.value.detected
    requires d.data == {} && d.db == map[] && !Blank(run.dataDir)
    requires !Blank(run.id.name) && !Blank(run.id.profile) && !Blank(run.id.zone)
    requires !Blank(run.bundle.releaseID) && !Blank(run.bundle.version) && !Blank(run.bundle.k3sVersion)
    requires run.now != 0 && run.later != 0 && run.now <= run.later
    requires run.nodeName == run.inv.bootstrapNode ==> !Blank(run.clusterID)
    requires run.nodeName != run.inv.bootstrapNode ==>
               && run.enrollment.Some? && !Blank(run.enrollment.value.clusterID)
               && !Blank(run.tokenPath) && (d.token == NoToken || d.token.RegularToken?)
               && run.joinedCA.Some? && run.enrollment.value.caHash == CADigestOf(run.joinedCA.value)
               && run.nodeUID.Some? && !Blank(run.nodeUID.value)
    ensures MayStage(run, d)
  {
    hide Admits;
  }

  /** A rerun on a server that runs with the release's binary and the inventory's configuration. */
  lemma RerunSucceeds(run: Run, d: Disk, config: K3sConfig.Config)
    requires Admitted(run, d) && d.receipt.Some? && run.signal.Some? && run.signal.value.active && !Blank(run.dataDir)
    requires d.receipt.value.phase in {R.ServerReady, R.Joined, R.Finalized} && d.binary == Some(run.bundle.k3sVersion)
    requires d.receipt.value.releaseID == run.bundle.releaseID && d.receipt.value.bundleVersion == run.bundle.version
    requires d.config == Some(Rendered(config)) && K3sConfig.SharedSettings(config, run.inv)
    requires K3sConfig.OwnServer(config, run.inv, run.nodeName, run.dataDir, run.tokenPath)
    requires config.clusterInit ==> config.serverURL == OtherURL("")
    requires run.nodeName != run.inv.bootstrapNode ==>
               && !Blank(run.tokenPath) && run.enrollment.Some? && run.joinedCA.Some?
               && run.enrollment.value.caHash == CADigestOf(run.joinedCA.value)
    ensures MayStage(run, d)
  {
    hide Admits, K3sConfig.OwnServer, K3sConfig.SharedSettings, ConfigDiffers, Blank;
    ConfigIsDerived(run, d, config);
  }

  /** A rerun where an earlier run died between its first receipt and the end of its bring-up, whatever files it had come to. */
  lemma PreparedStageSucceeds(run: Run, d: Disk, config: K3sConfig.Config)
    requires Admitted(run, d) && d.receipt.Some? && d.receipt.value.phase == R.Prepared && run.signal.Some? && !Blank(run.dataDir)
    requires d.config == Some(Rendered(config)) && K3sConfig.SharedSettings(config, run.inv)
    requires K3sConfig.OwnServer(config, run.inv, run.nodeName, run.dataDir, run.tokenPath)
    requires config.clusterInit ==> config.serverURL == OtherURL("")
    requires run.signal.value.detected ==> d.binary == Some(run.bundle.k3sVersion)
    requires !Blank(run.bundle.releaseID) && !Blank(run.bundle.version)
    requires run.now != 0 && run.later != 0 && d.receipt.value.createdAt <= run.now && run.now <= run.later
    requires run.nodeName != run.inv.bootstrapNode ==>
               && !Blank(run.tokenPath) && run.enrollment.Some? && run.joinedCA.Some?
               && run.enrollment.value.caHash == CADigestOf(run.joinedCA.value)
               && run.nodeUID.Some? && !Blank(run.nodeUID.value)
    ensures MayStage(run, d)
  {
    hide Admits, K3sConfig.OwnServer, K3sConfig.SharedSettings, ConfigDiffers, Blank;
    ConfigIsDerived(run, d, config);
  }

  /** A run is refused before anything is looked at for a bundle, an inventory, a host, an enrollment or a receipt that is not its own. */
  lemma AdmissionRefuses(run: Run, d: Disk)
    requires
      || !run.bundle.embeddedEtcd || !ClusterTopology.Valid(run.inv) || run.forced || !run.absolutePaths
      || (forall n | n in run.inv.nodes && n.name == run.nodeName :: n.address !in run.local)
      || (run.nodeName != run.inv.bootstrapNode && !run.absoluteTokenPath)
      || (run.nodeName != run.inv.bootstrapNode && run.enrollment.Some? && !Verifies(run.enrollment.value, run.now, run.signer))
      || (d.receipt.Some? && !R.Valid(d.receipt.value))
      || (d.receipt.Some? && (d.receipt.value.localNode != run.nodeName || d.receipt.value.k3sVersion != run.bundle.k3sVersion))
      || (d.receipt.Some? && R.Identity(d.receipt.value.name, d.receipt.value.profile, d.receipt.value.zone) != run.id)
      || (d.receipt.Some? && d.receipt.value.fingerprint != Fingerprint(run.inv))
      || (d.receipt.Some? && run.nodeName != run.inv.bootstrapNode && run.enrollment.Some?
          && (d.receipt.value.clusterID != run.enrollment.value.clusterID || d.receipt.value.signer != run.signer))
      || (d.installed.Some? && (d.receipt.None? || d.receipt.value.phase != R.Finalized || d.installed.value.version != run.bundle.version))
    ensures !Admitted(run, d)
  {
    hide Verifies, EnrollmentCreate.StageAccepts, ClusterTopology.Valid, R.Valid, Fingerprint;
  }

  /** A bootstrap's own run needs no more than this. */
  lemma BootstrapIsAdmitted(run: Run, d: Disk, n: Node)
    requires run.bundle.embeddedEtcd && ClusterTopology.Valid(run.inv) && !run.forced && run.absolutePaths && run.enrollment.None?
    requires n in run.inv.nodes && n.name == run.nodeName == run.inv.bootstrapNode && n.address in run.local
    requires d.receipt.None? ==> d.installed.None?
    requires d.receipt.Some? ==>
               && R.Valid(d.receipt.value) && d.receipt.value.localNode == run.nodeName && d.receipt.value.k3sVersion == run.bundle.k3sVersion
               && R.Identity(d.receipt.value.name, d.receipt.value.profile, d.receipt.value.zone) == run.id
               && d.receipt.value.fingerprint == Fingerprint(run.inv)
    requires d.installed.Some? ==> R.InstallMatchesFinalizedStage(d.installed, d.receipt, run.bundle.version)
    ensures Admitted(run, d)
  {
    FindNodeUnique(run.inv.nodes, n);
    hide ClusterTopology.Valid, R.Valid, Fingerprint, Verifies, EnrollmentCreate.StageAccepts, R.InstallMatchesFinalizedStage;
  }

  /** What belongs to someone else is never taken, and a server that is not what its receipt says is never confirmed. */
  lemma StageRefuses(run: Run, d: Disk)
    requires
      || (d.receipt.None? && ServiceFound(run) && run.signal.value.active)
      || (d.receipt.None? && d.data != {} && !(ServiceFound(run) && d.unit == ReleaseOwned))
      || (d.receipt.None? && run.checksDatabase && d.db != map[])
      || (d.receipt.None? && run.nodeName != run.inv.bootstrapNode && d.token == SpecialToken)
      || (d.receipt.Some? && ServiceFound(run) && d.binary != Some(run.bundle.k3sVersion))
      || (d.receipt.Some? && d.receipt.value.phase in {R.ServerReady, R.Joined, R.Finalized} && run.signal.Some? && !run.signal.value.active)
      || (d.receipt.Some? && d.installed.Some? && d.receipt.value.phase != R.Finalized)
      || (d.receipt.None? && d.installed.Some?)
      || (run.nodeName == run.inv.bootstrapNode && run.enrollment.Some?)
      || (run.nodeName != run.inv.bootstrapNode && run.enrollment.None?)
      || (run.nodeName != run.inv.bootstrapNode && run.enrollment.Some?
          && (run.joinedCA.None? || run.enrollment.value.caHash != CADigestOf(run.joinedCA.value)))
    ensures !MayStage(run, d)
  {
    hide Verifies, EnrollmentCreate.StageAccepts, ClusterTopology.Valid, R.MatchesSubstrate, ConfigDiffers, Identified, Recordable, Blank;
  }

  lemma ConfigIsDerived(run: Run, d: Disk, config: K3sConfig.Config)
    requires Admitted(run, d) && d.config == Some(Rendered(config)) && K3sConfig.SharedSettings(config, run.inv)
    requires K3sConfig.OwnServer(config, run.inv, run.nodeName, run.dataDir, run.tokenPath)
    requires config.clusterInit ==> config.serverURL == OtherURL("")
    ensures !ConfigDiffers(run, d)
  {
    AdmittedPeer(run, d);
    var n := FindNode(run.inv.nodes, run.nodeName).value;
    hide Admits, ClusterTopology.Valid;
    K3sConfig.OwnServerDetermines(config, run.inv, n, run.dataDir, run.tokenPath);
  }

  // ---- Consequences for a whole run ------------------------------------------------------------

  /** Once there is a receipt, no run of stage removes anything from the K3s data directory. */
  lemma {:induction false} ReceiptedDataSurvives(run: Run, before: seq<Disk>, after: seq<Disk>)
    requires Extends(run, before, after)
    requires before[|before| - 1].receipt.Some?
    ensures after[|after| - 1].receipt.Some?
    ensures before[|before| - 1].data <= after[|after| - 1].data
    decreases |after|
  {
    hide Admitted, NewReceipt, RenewedReceipt, ReadyReceipt, JoinedReceipt, R.Matches;
    if |before| < |after| {
      var shorter := after[..|after| - 1];
      assert forall i | |before| <= i < |shorter| :: Write(run, after[i - 1], after[i]);
      ReceiptedDataSurvives(run, before, shorter);
      assert Write(run, after[|after| - 2], after[|after| - 1]);
    } else {
      assert before == after;
    }
  }

  /** No run of stage changes the control-plane database directory. */
  lemma {:induction false} StageKeepsDatabase(run: Run, before: seq<Disk>, after: seq<Disk>)
    requires Extends(run, before, after)
    ensures after[|after| - 1].db == before[|before| - 1].db
    decreases |after|
  {
    hide Admitted, NewReceipt, RenewedReceipt, ReadyReceipt, JoinedReceipt, R.Matches;
    if |before| < |after| {
      var shorter := after[..|after| - 1];
      assert forall i | |before| <= i < |shorter| :: Write(run, after[i - 1], after[i]);
      StageKeepsDatabase(run, before, shorter);
      assert Write(run, after[|after| - 2], after[|after| - 1]);
    } else {
      assert before == after;
    }
  }

  /** A server configured from an inventory refuses another order of the same servers, although the fingerprint accepts it. */
  lemma ReorderedInventoryIsRefused(run: Run, d: Disk, inv: Inventory)
    requires ClusterTopology.Valid(inv) && ClusterTopology.Valid(run.inv) && SameServers(inv, run.inv)
    requires FindNode(inv.nodes, run.nodeName).Some? && d.receipt.Some?
    requires d.config == Some(Rendered(K3sConfig.MemberConfig(inv, FindNode(inv.nodes, run.nodeName).value, run.dataDir, run.tokenPath)))
    ensures Fingerprint(inv) == Fingerprint(run.inv)
    ensures ConfigDiffers(run, d) <==> inv.nodes != run.inv.nodes
  {
    var n := FindNode(inv.nodes, run.nodeName).value;
    assert n in run.inv.nodes;
    FindNodeUnique(run.inv.nodes, n);
    K3sConfig.ConfigFollowsListing(inv, run.inv, n, run.dataDir, run.tokenPath);
  }
}
