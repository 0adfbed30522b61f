/** Installing the host agent: a binary and a unit, with a rollback that the caller may run later. */
module HostAgent {
  import opened Text
  import opened HostFiles
  import opened HostTexts

  const BINARY_MODE := 0x1ED
  const UNIT_MODE := 0x1A4

  datatype Spec = Spec(source: string, sourceData: string, binaryPath: string, unitPath: string, unitName: string,
                       socketPath: string, logPath: string)

  predicate Complete(spec: Spec) {
    !Blank(spec.source) && !Blank(spec.binaryPath) && !Blank(spec.unitPath) && !Blank(spec.unitName)
  }

  /** The one line of the unit that depends on the installation. */
  function RenderUnit(spec: Spec): string {
    "ExecStart=" + (spec.binaryPath + (" --socket-path " + (spec.socketPath + (" --log-path " + (spec.logPath + "\n")))))
  }

  /** The unit starts the binary that is installed, with the socket and the log that were asked for, and says so: on paths
      without spaces, units are equal exactly if these three are. */
  lemma UnitDetermines(x: Spec, y: Spec)
    requires Word(x.binaryPath) && Word(x.socketPath) && Word(x.logPath) && Word(y.binaryPath) && Word(y.socketPath) && Word(y.logPath)
    ensures RenderUnit(x) == RenderUnit(y)
       <==> x.binaryPath == y.binaryPath && x.socketPath == y.socketPath && x.logPath == y.logPath
  {
    if RenderUnit(x) == RenderUnit(y) {
      var logX, logY := x.logPath + "\n", y.logPath + "\n";
      var socketX, socketY := x.socketPath + (" --log-path " + logX), y.socketPath + (" --log-path " + logY);
      SamePrefix("ExecStart=", x.binaryPath + (" --socket-path " + socketX), y.binaryPath + (" --socket-path " + socketY));
      WordEnds(x.binaryPath, y.binaryPath, " --socket-path " + socketX, " --socket-path " + socketY);
      SamePrefix(" --socket-path ", socketX, socketY);
      WordEnds(x.socketPath, y.socketPath, " --log-path " + logX, " --log-path " + logY);
      SamePrefix(" --log-path ", logX, logY);
      WordEnds(x.logPath, y.logPath, "\n", "\n");
    }
  }

  /** What the unit starts, read off its text. */
  lemma UnitStartsBinary(spec: Spec)
    requires Word(spec.binaryPath) && Word(spec.socketPath) && Word(spec.logPath)
    ensures "ExecStart=" + spec.binaryPath + " --socket-path " + spec.socketPath + " --log-path " + spec.logPath <= RenderUnit(spec)
  {
    var line := "ExecStart=" + spec.binaryPath + " --socket-path " + spec.socketPath + " --log-path " + spec.logPath;
    assert RenderUnit(spec) == line + "\n";
  }

  /** The tree with the agent installed. */
  function Installed(t: Tree, spec: Spec): Tree {
    t[spec.binaryPath := File(spec.sourceData, Mode(BINARY_MODE, 0))][spec.unitPath := File(RenderUnit(spec), Mode(UNIT_MODE, 0))]
  }

  /** A file put back by writing over what is there: old content, but the mode of the file it replaces. */
  function PutBack(t: Tree, path: string, before: Option<File>): Tree {
    if before.None? then t - {path}
    else t[path := File(before.value.data, if path in t then t[path].mode else before.value.mode)]
  }

  /** The rollback closure: the content of both files before the installation. */
  class Rollback {
    const files: Files
    const spec: Spec
    const binaryBefore: Option<File>
    const unitBefore: Option<File>

    constructor (files: Files, spec: Spec, binaryBefore: Option<File>, unitBefore: Option<File>)
      ensures this.files == files && this.spec == spec && this.binaryBefore == binaryBefore && this.unitBefore == unitBefore
    {
      this.files, this.spec, this.binaryBefore, this.unitBefore := files, spec, binaryBefore, unitBefore;
    }

    method RestoreFile(path: string, before: Option<File>) returns (ok: bool)
      modifies files, files.calls
      ensures files.calls.failed == if ok then old(files.calls.failed) else old(files.calls.failed) + 1
      ensures ok ==> files.tree == PutBack(old(files.tree), path, before)
      ensures SameElsewhere(files.tree, old(files.tree), {path})
    {
      if before.None? {
        ok := files.Remove(path);
        return;
      }
      ok := files.Overwrite(path, before.value.data, before.value.mode);
    }

    /** `restored` is about the files alone; the service calls that follow may fail on their own. */
    method Run() returns (ok: bool, ghost restored: bool)
      modifies files, files.calls
      ensures restored ==> files.tree == PutBack(PutBack(old(files.tree), spec.binaryPath, binaryBefore), spec.unitPath, unitBefore)
      ensures ok ==> restored
      ensures files.calls.failed >= old(files.calls.failed) && (ok <==> files.calls.failed == old(files.calls.failed))
      ensures SameElsewhere(files.tree, old(files.tree), {spec.binaryPath, spec.unitPath})
    {
      var binary := RestoreFile(spec.binaryPath, binaryBefore);
      var unit := RestoreFile(spec.unitPath, unitBefore);
      restored := binary && unit;
      var service := files.calls.Attempt(); // daemon-reload, then enable and restart, or disable and stop
      ok := binary && unit && service;
    }
  }

  method InstallOrUpdate(files: Files, spec: Spec) returns (rollback: Option<Rollback>, ghost undone: Option<bool>)
    modifies files, files.calls
    ensures rollback.Some? <==> Complete(spec) && files.calls.failed == old(files.calls.failed)
    ensures rollback.Some? ==>
              && fresh(rollback.value) && rollback.value.files == files && rollback.value.spec == spec
              && rollback.value.binaryBefore == Lookup(old(files.tree), spec.binaryPath)
              && rollback.value.unitBefore == Lookup(old(files.tree), spec.unitPath)
              && Complete(spec) && files.tree == Installed(old(files.tree), spec) && undone.None?
    ensures rollback.Some? && spec.binaryPath != spec.unitPath ==>
              && Lookup(files.tree, spec.binaryPath) == Some(File(spec.sourceData, Mode(7 * 64 + 5 * 8 + 5, 0)))
              && Lookup(files.tree, spec.unitPath) == Some(File(RenderUnit(spec), Mode(6 * 64 + 4 * 8 + 4, 0)))
    ensures Blank(spec.source) || Blank(spec.binaryPath) || Blank(spec.unitPath) || Blank(spec.unitName) ==>
              rollback.None? && undone.None? && files.calls.failed == old(files.calls.failed)
    ensures rollback.None? && undone.None? ==> files.tree == old(files.tree)
    ensures undone == Some(true) && spec.binaryPath != spec.unitPath ==>
              SameContent(files.tree, old(files.tree), spec.binaryPath) && SameContent(files.tree, old(files.tree), spec.unitPath)
    ensures SameElsewhere(files.tree, old(files.tree), {spec.binaryPath, spec.unitPath})
  {
    rollback, undone := None, None;
    if !Complete(spec) { return; }
    var binary := files.Read(spec.binaryPath);
    if binary.Err? { return; }
    var unit := files.Read(spec.unitPath);
    if unit.Err? { return; }
    var undo := new Rollback(files, spec, binary.value, unit.value);
    var ok := files.WriteAtomic(spec.binaryPath, spec.sourceData, BINARY_MODE);
    if !ok { return; }
    ok := files.WriteAtomic(spec.unitPath, RenderUnit(spec), UNIT_MODE);
    if ok {
      ok := files.calls.Attempt(); // daemon-reload, enable, restart
    }
    if !ok {
      var clean;
      ghost var restored;
      clean, restored := undo.Run();
      undone := Some(restored);
      return;
    }
    rollback := Some(undo);
  }

  /** Running the rollback of an installation puts both contents back. Everything, modes included, is as it was exactly
      when the old files had the modes that an installation gives. */
  lemma RollbackInvertsInstall(t: Tree, spec: Spec)
    requires spec.binaryPath != spec.unitPath
    ensures var u := PutBack(PutBack(Installed(t, spec), spec.binaryPath, Lookup(t, spec.binaryPath)), spec.unitPath, Lookup(t, spec.unitPath));
            && SameContent(u, t, spec.binaryPath) && SameContent(u, t, spec.unitPath)
            && SameElsewhere(u, t, {spec.binaryPath, spec.unitPath})
            && (u == t <==> && (spec.binaryPath in t ==> t[spec.binaryPath].mode == Mode(BINARY_MODE, 0))
                            && (spec.unitPath in t ==> t[spec.unitPath].mode == Mode(UNIT_MODE, 0)))
  {
    var u := PutBack(PutBack(Installed(t, spec), spec.binaryPath, Lookup(t, spec.binaryPath)), spec.unitPath, Lookup(t, spec.unitPath));
    if spec.binaryPath in t { assert u[spec.binaryPath].mode == Mode(BINARY_MODE, 0); }
    if spec.unitPath in t { assert u[spec.unitPath].mode == Mode(UNIT_MODE, 0); }
    if (spec.binaryPath in t ==> t[spec.binaryPath].mode == Mode(BINARY_MODE, 0))
       && (spec.unitPath in t ==> t[spec.unitPath].mode == Mode(UNIT_MODE, 0)) {
      assert forall p :: p in u <==> p in t;
      assert forall p | p in t :: u[p] == t[p];
      assert u == t;
    }
  }
}
