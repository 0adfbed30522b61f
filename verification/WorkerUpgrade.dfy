/** `cluster-worker-upgrade`: replacing a worker's binary, configuration and unit around a service stop. */
module WorkerUpgrade {
  import opened Text
  import opened HostFiles
  import opened HostTexts

  /** The receipt fields that the upgrade reads or writes. */
  datatype Receipt = Receipt(
    cluster: bool, controlPlaneNode: string, controlEndpoint: string, profile: string, version: string, releaseID: string,
    k3sVersion: string, ownerVersion: string)

  datatype Release = Release(
    version: string, releaseID: string, k3sVersion: string, profile: string, embeddedEtcd: bool, binary: string,
    needsGPU: bool, inferenceOk: bool)

  datatype Options = Options(
    nodeName: string, dataDir: string, tokenPath: string, binaryPath: string, configPath: string, unitPath: string)

  const BINARY_MODE := 0x1ED
  const CONFIG_MODE := 0x1A0
  const UNIT_MODE := 0x1A4

  /** What the two rendered files are made of. */
  datatype Rendered =
    | AgentConfig(nodeName: string, dataDir: string, serverURL: string, tokenPath: string)
    | AgentUnit(binaryPath: string, configPath: string)

  /** Their lines, as far as they depend on it. */
  function Render(r: Rendered): string {
    match r
    case AgentConfig(n, d, s, t) =>
      "node-name: " + (Quote(n) + ("\ndata-dir: " + (Quote(d) + ("\nserver: " + (Quote(s) + ("\ntoken-file: " + (Quote(t) + "\n")))))))
    case AgentUnit(b, c) => "ExecStart=" + (b + (" agent --config " + (c + "\n")))
  }

  predicate Readable(r: Rendered) { r.AgentUnit? ==> Word(r.binaryPath) && Word(r.configPath) }

  /** A configuration tells its four settings apart whatever they contain; a unit tells its two paths if they have no spaces. */
  lemma RenderDetermines(x: Rendered, y: Rendered)
    requires Readable(x) && Readable(y) && Render(x) == Render(y)
    ensures x == y
  {
    assert Render(x)[0] == (if x.AgentConfig? then 'n' else 'E') && Render(y)[0] == if y.AgentConfig? then 'n' else 'E';
    if x.AgentConfig? {
      ConfigDetermines(x, y);
    } else {
      SamePrefix("ExecStart=", x.binaryPath + (" agent --config " + (x.configPath + "\n")),
                 y.binaryPath + (" agent --config " + (y.configPath + "\n")));
      WordEnds(x.binaryPath, y.binaryPath, " agent --config " + (x.configPath + "\n"), " agent --config " + (y.configPath + "\n"));
      SamePrefix(" agent --config ", x.configPath + "\n", y.configPath + "\n");
      WordEnds(x.configPath, y.configPath, "\n", "\n");
    }
  }

  lemma ConfigDetermines(x: Rendered, y: Rendered)
    requires x.AgentConfig? && y.AgentConfig? && Render(x) == Render(y)
    ensures x == y
  {
    hide Quote;
    var endX, endY := Quote(x.tokenPath) + "\n", Quote(y.tokenPath) + "\n";
    var serverX, serverY := Quote(x.serverURL) + ("\ntoken-file: " + endX), Quote(y.serverURL) + ("\ntoken-file: " + endY);
    var dirX, dirY := Quote(x.dataDir) + ("\nserver: " + serverX), Quote(y.dataDir) + ("\nserver: " + serverY);
    SamePrefix("node-name: ", Quote(x.nodeName) + ("\ndata-dir: " + dirX), Quote(y.nodeName) + ("\ndata-dir: " + dirY));
    QuoteEnds(x.nodeName, y.nodeName, "\ndata-dir: " + dirX, "\ndata-dir: " + dirY);
    SamePrefix("\ndata-dir: ", dirX, dirY);
    QuoteEnds(x.dataDir, y.dataDir, "\nserver: " + serverX, "\nserver: " + serverY);
    SamePrefix("\nserver: ", serverX, serverY);
    QuoteEnds(x.serverURL, y.serverURL, "\ntoken-file: " + endX, "\ntoken-file: " + endY);
    SamePrefix("\ntoken-file: ", endX, endY);
    QuoteEnds(x.tokenPath, y.tokenPath, "\n", "\n");
  }

  /** `rwxr-xr-x` */
  predicate Executable(f: Option<File>) { f.Some? && f.value.mode == Mode(7 * 64 + 5 * 8 + 5, 0) }

  /** `rw-r-----` */
  predicate Private(f: Option<File>) { f.Some? && f.value.mode == Mode(6 * 64 + 4 * 8, 0) }

  /** What the upgrade saves of one file: its content and permission bits, or its absence. */
  datatype Snapshot = Snapshot(path: string, before: Option<File>)

  function Saved(f: Option<File>): Option<File> {
    if f.Some? then Some(f.value.(mode := Mode(f.value.mode.permissions, 0))) else None
  }

  class Worker {
    const files: Files
    const opts: Options
    var receipt: Option<Receipt>
    ghost var stops: nat
    ghost var starts: nat
    /** The files as they were when the service was last asked to start. */
    ghost var startedWith: Tree

    constructor (files: Files, opts: Options, receipt: Option<Receipt>)
      ensures this.files == files && this.opts == opts && this.receipt == receipt && stops == starts == 0
    {
      this.files, this.opts, this.receipt, this.stops, this.starts, this.startedWith := files, opts, receipt, 0, 0, map[];
    }

    /** Only a joined worker, with its endpoint and token, and a release for its profile. */
    predicate Eligible(release: Release)
      reads this
    {
      && receipt.Some? && receipt.value.cluster
      && receipt.value.controlPlaneNode != opts.nodeName
      && !Blank(receipt.value.controlEndpoint) && !Blank(opts.tokenPath)
      && !release.embeddedEtcd && release.profile == receipt.value.profile && release.inferenceOk
    }

    method TakeSnapshot(path: string) returns (s: Option<Snapshot>)
      modifies files.calls
      ensures files.calls.failed == if s.Some? then old(files.calls.failed) else old(files.calls.failed) + 1
      ensures s.Some? ==> s.value == Snapshot(path, Saved(Lookup(files.tree, path)))
    {
      var found := files.Read(path);
      if found.Err? { return None; }
      s := Some(Snapshot(path, Saved(found.value)));
    }

    method Restore(s: Snapshot) returns (ok: bool)
      modifies files, files.calls
      ensures files.calls.failed == if ok then old(files.calls.failed) else old(files.calls.failed) + 1
      ensures ok ==> files.tree == if s.before.None? then old(files.tree) - {s.path}
                                   else old(files.tree)[s.path := File(s.before.value.data, Mode(s.before.value.mode.permissions, 0))]
      ensures SameElsewhere(files.tree, old(files.tree), {s.path})
    {
      if s.before.None? {
        ok := files.Remove(s.path);
        return;
      }
      ok := files.WriteAtomic(s.path, s.before.value.data, s.before.value.mode.permissions);
    }

    /** Every snapshot is restored even if an earlier one fails; then the service is started once. */
    method RollBack(unit: Snapshot, config: Snapshot, binary: Snapshot) returns (restored: bool)
      modifies files, files.calls, this`starts, this`startedWith
      ensures files.calls.failed >= old(files.calls.failed) && (files.calls.failed == old(files.calls.failed) ==> restored)
      ensures starts == old(starts) + 1 && startedWith == files.tree
      ensures SameElsewhere(files.tree, old(files.tree), {unit.path, config.path, binary.path})
      ensures restored && Agree(unit, config) && Agree(unit, binary) && Agree(config, binary) ==>
                && Lookup(files.tree, unit.path) == unit.before
                && Lookup(files.tree, config.path) == config.before
                && Lookup(files.tree, binary.path) == binary.before
    {
      var one := Restore(unit);
      var two := Restore(config);
      var three := Restore(binary);
      restored := one && two && three;
      var reloaded := files.calls.Attempt();
      var started := files.calls.Attempt(); // a start, not a restart
      starts, startedWith := starts + 1, files.tree;
    }

    static predicate Agree(s: Snapshot, t: Snapshot) {
      (s.path == t.path ==> s.before == t.before) && Plain(s.before) && Plain(t.before)
    }

    static predicate Plain(f: Option<File>) { f.Some? ==> f.value.mode.special == 0 }

    /** The files that the release puts in place. */
    ghost predicate Target(release: Release, endpoint: string)
      reads files
    {
      && Lookup(files.tree, opts.binaryPath) == Some(File(release.binary, Mode(BINARY_MODE, 0)))
      && Lookup(files.tree, opts.configPath)
           == Some(File(Render(AgentConfig(opts.nodeName, opts.dataDir, endpoint, opts.tokenPath)), Mode(CONFIG_MODE, 0)))
      && Lookup(files.tree, opts.unitPath) == Some(File(Render(AgentUnit(opts.binaryPath, opts.configPath)), Mode(UNIT_MODE, 0)))
    }

    /** What the validation of the agent configuration still asks, the endpoint and token having been checked. */
    predicate ConfigValid() { !Blank(opts.nodeName) && !Blank(opts.dataDir) }

    predicate DistinctPaths() { opts.binaryPath != opts.configPath && opts.binaryPath != opts.unitPath && opts.configPath != opts.unitPath }

    function Paths(): set<string> { {opts.binaryPath, opts.configPath, opts.unitPath} }

    /** Everything between the stop and the saved receipt. */
    method Replace(release: Release) returns (ok: bool)
      requires receipt.Some?
      modifies files, files.calls, this`starts, this`startedWith, this`receipt
      ensures files.calls.failed >= old(files.calls.failed)
      ensures ok <==> files.calls.failed == old(files.calls.failed) && ConfigValid()
      ensures SameElsewhere(files.tree, old(files.tree), Paths())
      ensures receipt == if ok then Some(old(receipt).value.(version := release.version, releaseID := release.releaseID,
                                                              k3sVersion := release.k3sVersion, ownerVersion := release.version))
                         else old(receipt)
      ensures ok && DistinctPaths() ==> Target(release, old(receipt).value.controlEndpoint)
      ensures old(starts) <= starts <= old(starts) + 1 && (ok ==> starts == old(starts) + 1 && startedWith == files.tree)
    {
      var before := receipt.value;
      ok := files.WriteAtomic(opts.binaryPath, release.binary, BINARY_MODE);
      if !ok { return; }
      if !ConfigValid() { return false; }
      var config := AgentConfig(opts.nodeName, opts.dataDir, before.controlEndpoint, opts.tokenPath);
      ok := files.WriteAtomic(opts.configPath, Render(config), CONFIG_MODE);
      if !ok { return; }
      ok := files.WriteAtomic(opts.unitPath, Render(AgentUnit(opts.binaryPath, opts.configPath)), UNIT_MODE);
      if !ok { return; }
      ok := files.calls.Attempt(); // daemon-reload
      if !ok { return; }
      starts, startedWith := starts + 1, files.tree;
      ok := files.calls.Attempt(); // enable and start
      if !ok { return; }
      if release.needsGPU {
        ok := files.calls.Attempt(); // container runtime for the GPU
        if !ok { return; }
      }
      ok := files.calls.Attempt(); // containerd answers
      if !ok { return; }
      ok := files.calls.Attempt(); // images preloaded
      if !ok { return; }
      ok := files.calls.Attempt(); // receipt saved
      if !ok { return; }
      receipt := Some(before.(version := release.version, releaseID := release.releaseID, k3sVersion := release.k3sVersion,
                              ownerVersion := release.version));
    }

    /** All or nothing on the three files and the receipt, whichever step fails, if the compensation itself succeeds.
        `undone` is `None` when nothing had been stopped, and otherwise says whether every file was restored. */
    method Upgrade(release: Release) returns (ok: bool, ghost undone: Option<bool>)
      modifies this, files, files.calls
      ensures SameElsewhere(files.tree, old(files.tree), Paths())
      ensures ok <==> old(Eligible(release)) && ConfigValid() && files.calls.failed == old(files.calls.failed)
      ensures !old(Eligible(release)) ==> undone.None?
      ensures ok <==> && old(receipt).Some? && old(receipt).value.cluster && old(receipt).value.controlPlaneNode != opts.nodeName
                      && !Blank(old(receipt).value.controlEndpoint) && old(receipt).value.profile == release.profile
                      && !release.embeddedEtcd && release.inferenceOk
                      && !Blank(opts.nodeName) && !Blank(opts.dataDir) && !Blank(opts.tokenPath)
                      && files.calls.failed == old(files.calls.failed)
      ensures ok && DistinctPaths() ==> Executable(Lookup(files.tree, opts.binaryPath)) && Private(Lookup(files.tree, opts.configPath))
      ensures ok ==> undone.None? && old(receipt).Some?
                     && receipt == Some(old(receipt).value.(version := release.version, releaseID := release.releaseID,
                                                           k3sVersion := release.k3sVersion, ownerVersion := release.version))
                     && (DistinctPaths() ==> Target(release, old(receipt).value.controlEndpoint))
                     && stops == old(stops) + 1 && starts == old(starts) + 1 && startedWith == files.tree
      ensures !ok ==> receipt == old(receipt)
      ensures !ok && undone.None? ==> files.tree == old(files.tree) && starts == old(starts)
      ensures undone == Some(true) ==> forall path | path in Paths() :: Lookup(files.tree, path) == Saved(Lookup(old(files.tree), path))
      ensures undone.Some? ==> old(starts) + 1 <= starts <= old(starts) + 2 && startedWith == files.tree && stops == old(stops) + 1
    {
      undone := None;
      if !Eligible(release) { return false, undone; }
      ok := files.calls.Attempt(); // token file, release and inference storage
      if !ok { return; }
      var binary := TakeSnapshot(opts.binaryPath);
      if binary.None? { return false, undone; }
      var config := TakeSnapshot(opts.configPath);
      if config.None? { return false, undone; }
      var unit := TakeSnapshot(opts.unitPath);
      if unit.None? { return false, undone; }
      ok := files.calls.Attempt(); // stop
      if !ok { return; }
      stops := stops + 1;
      ok := Replace(release);
      if !ok {
        var restored := RollBack(unit.value, config.value, binary.value);
        undone := Some(restored);
      }
    }
  }

  /** What comes back after a failure is the old file, set-id and sticky bits excepted. */
  lemma SavedIsContent(before: Option<File>)
    ensures Data(Saved(before)) == Data(before)
    ensures Saved(before) == before <==> before.None? || before.value.mode.special == 0
  {
  }
}
