/** What one server keeps across a crash, and the fallible operations that change it. */
module HostDisk {
  import opened Text
  import opened ClusterTopology
  import opened Keys
  import K3sConfig
  import R = Receipt

  datatype UnitFile = NoUnit | ReleaseOwned | ForeignUnit

  datatype ConfigFile = Rendered(config: K3sConfig.Config) | OtherConfig(text: string)

  datatype TokenPath = NoToken | RegularToken(text: string) | SpecialToken

  /** `data` and `db` are the K3s data directory and the control-plane database directory, the latter with the
      modification time of every entry. `active` is the K3s service; `signer` the enrollment key file. */
  datatype Disk = Disk(
    receipt: Option<R.BootstrapState>, installed: Option<R.InstalledState>, unit: UnitFile, binary: Option<string>,
    config: Option<ConfigFile>, active: bool, data: set<string>, db: map<string, int>, signer: Option<Key>,
    token: TokenPath)

  /** A host. Every operation may fail, and failed operations are counted; a crash leaves one of the states in `log`, just as
      a failure there would. */
  class Host {
    var disk: Disk
    ghost var log: seq<Disk>
    ghost var failures: nat

    ghost predicate Valid()
      reads this`disk, this`log
    {
      log != [] && log[|log| - 1] == disk
    }

    constructor (disk: Disk)
      ensures Valid() && this.disk == disk && log == [disk]
    {
      this.disk := disk;
      this.log := [disk];
      this.failures := 0;
    }

    method Attempt() returns (ok: bool)
      modifies this`failures
      ensures failures == if ok then old(failures) else old(failures) + 1
    {
      ok := *;
      if !ok { failures := failures + 1; }
    }

    method Record(d: Disk)
      modifies this`disk, this`log
      ensures Valid() && disk == d && log == old(log) + [d]
    {
      disk := d;
      log := log + [d];
    }

    /** Validates, then replaces the receipt atomically. */
    method SaveReceipt(s: R.BootstrapState) returns (ok: bool)
      requires Valid()
      modifies this
      ensures Valid() && failures >= old(failures) && (ok <==> failures == old(failures) && R.Valid(s))
      ensures ok ==> R.Valid(s) && disk == old(disk).(receipt := Some(s)) && log == old(log) + [disk]
      ensures !ok ==> disk == old(disk) && log == old(log)
    {
      ok := Attempt();
      ok := ok && R.Valid(s);
      if ok { Record(disk.(receipt := Some(s))); }
    }

    method SaveInstalled(s: Option<R.InstalledState>) returns (ok: bool)
      requires Valid()
      modifies this
      ensures Valid() && failures == if ok then old(failures) else old(failures) + 1
      ensures ok ==> disk == old(disk).(installed := s) && log == old(log) + [disk]
      ensures !ok ==> disk == old(disk) && log == old(log)
    {
      ok := Attempt();
      if ok { Record(disk.(installed := s)); }
    }

    method Stop() returns (ok: bool)
      requires Valid()
      modifies this
      ensures Valid() && failures == if ok then old(failures) else old(failures) + 1
      ensures ok ==> !disk.active
      ensures disk == old(disk).(active := disk.active) && log == old(log) + [disk]
    {
      ok := Attempt();
      var running := *;
      Record(disk.(active := !ok && running));
    }

    /** A started K3s populates its data directory; a failed start may have done so too. */
    method EnableAndStart() returns (ok: bool)
      requires Valid()
      modifies this
      ensures Valid() && failures == if ok then old(failures) else old(failures) + 1
      ensures ok ==> disk.active
      ensures disk == old(disk).(active := disk.active, data := disk.data) && log == old(log) + [disk]
      ensures old(disk).data <= disk.data
    {
      ok := Attempt();
      var running := *;
      var created: set<string> := *;
      Record(disk.(active := ok || running, data := disk.data + created));
    }

    /** `os.RemoveAll` of the K3s data directory; a failure may already have removed part of it. */
    method RemoveData() returns (ok: bool)
      requires Valid()
      modifies this
      ensures Valid() && failures == if ok then old(failures) else old(failures) + 1
      ensures disk == old(disk).(data := disk.data) && log == old(log) + [disk]
      ensures disk.data <= old(disk).data
      ensures ok ==> disk.data == {}
    {
      ok := Attempt();
      var removed: set<string> := *;
      Record(disk.(data := if ok then {} else disk.data - removed));
    }

    method RemoveDatabase() returns (ok: bool)
      requires Valid()
      modifies this
      ensures Valid() && failures == if ok then old(failures) else old(failures) + 1
      ensures disk == old(disk).(db := disk.db) && log == old(log) + [disk]
      ensures ok ==> disk.db == map[]
    {
      ok := Attempt();
      var removed: set<string> := *;
      Record(disk.(db := if ok then map[] else disk.db - removed));
    }

    method ReplaceFiles(token: TokenPath, config: Option<ConfigFile>, unit: UnitFile, binary: Option<string>) returns (ok: bool)
      requires Valid()
      modifies this
      ensures Valid() && failures == if ok then old(failures) else old(failures) + 1
      ensures ok ==> disk == old(disk).(token := token, config := config, unit := unit, binary := binary)
                     && log == old(log) + [disk]
      ensures !ok ==> disk == old(disk) && log == old(log)
    {
      ok := Attempt();
      if ok { Record(disk.(token := token, config := config, unit := unit, binary := binary)); }
    }

    /** The enrollment key: the stored one, or `candidate` when there is none. */
    method LoadOrCreateSigner(candidate: Key) returns (key: Option<Key>)
      requires Valid()
      modifies this
      ensures Valid() && failures == if key.Some? then old(failures) else old(failures) + 1
      ensures key.Some? ==> disk.signer == key
      ensures old(disk).signer.Some? || key.None? ==> disk == old(disk) && log == old(log)
      ensures old(disk).signer.None? && key.Some? ==>
                key == Some(candidate) && disk == old(disk).(signer := key) && log == old(log) + [disk]
    {
      var ok := Attempt();
      if !ok { return None; }
      if disk.signer.None? { Record(disk.(signer := Some(candidate))); }
      return disk.signer;
    }

    /** What the installed binary says about itself, when it can be asked. */
    method Version() returns (version: Option<string>)
      modifies this`failures
      ensures failures >= old(failures) && version == if failures == old(failures) then disk.binary else None
    {
      var ok := Attempt();
      return if ok then disk.binary else None;
    }
  }
}
