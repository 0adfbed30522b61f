/** Backup and restore of directory trees around a service stop. */
module Backup {
  import opened SystemCalls
  import opened Text

  type Path = seq<string>

  datatype Node = Dir(mode: nat) | File(data: string, mode: nat)

  /** A directory tree of directories and regular files; the root is the empty path, and is absent with the tree. */
  type Tree = map<Path, Node>

  const DIR_MODE := 0x1E8
  const FILE_MODE := 0x1A0

  /** An ideal file digest. */
  datatype Digest = DigestOf(data: string) | OtherDigest(text: string)

  datatype FileEntry = FileEntry(path: Path, digest: Digest, size: nat)

  datatype Manifest = Manifest(version: string, files: seq<FileEntry>, policyFiles: seq<FileEntry>, modelFiles: seq<FileEntry>)

  function Prefixes(p: Path): set<Path> { set k | 0 <= k <= |p| :: p[..k] }

  /** Every node's parents are directories. */
  ghost predicate WellFormed(t: Tree) {
    && (forall p | p in t :: forall q | q in Prefixes(p) :: q in t)
    && (forall p, q | p in t && q in Prefixes(p) && q != p :: t[q].Dir?)
  }

  /** A copy keeps names and contents and nothing else: every directory and every file gets one fixed mode. */
  function Flattened(n: Node): Node { if n.Dir? then Dir(DIR_MODE) else File(n.data, FILE_MODE) }

  function Flat(t: Tree): Tree { map p | p in t :: Flattened(t[p]) }

  predicate HasFiles(t: Tree) { exists p | p in t :: t[p].File? }

  function EntryOf(p: Path, n: Node): FileEntry
    requires n.File?
  {
    FileEntry(p, DigestOf(n.data), |n.data|)
  }

  /** The entries are those of the files in the tree, each once. */
  ghost predicate Lists(entries: seq<FileEntry>, t: Tree) {
    && (forall e | e in entries :: e.path in t && t[e.path].File? && e == EntryOf(e.path, t[e.path]))
    && (forall p | p in t && t[p].File? :: exists e | e in entries :: e.path == p)
    && (forall i, j | 0 <= i < j < |entries| :: entries[i].path != entries[j].path)
  }

  /** A directory on disk. */
  class Folder {
    var tree: Tree

    constructor (tree: Tree)
      ensures this.tree == tree
    {
      this.tree := tree;
    }

    method RemoveAll(calls: Calls) returns (ok: bool)
      modifies this, calls
      ensures calls.failed >= old(calls.failed) && (ok <==> calls.failed == old(calls.failed))
      ensures ok ==> tree == map[]
    {
      ok := calls.Attempt();
      var removed: set<Path> := *;
      tree := if ok then map[] else tree - removed;
    }

    method MkdirAll(p: Path, calls: Calls) returns (ok: bool)
      modifies this, calls
      ensures calls.failed >= old(calls.failed)
      ensures ok <==> calls.failed == old(calls.failed) && forall q | q in Prefixes(p) && q in old(tree) :: old(tree)[q].Dir?
      ensures ok ==> forall q | q in Prefixes(p) :: q in tree && tree[q].Dir?
      ensures old(tree).Keys <= tree.Keys && forall q | q in old(tree) :: tree[q] == old(tree)[q]
      ensures forall q | q in tree && q !in old(tree) :: q in Prefixes(p) && tree[q] == Dir(DIR_MODE)
    {
      ok := calls.Attempt();
      if exists q | q in Prefixes(p) :: q in tree && tree[q].File? { ok := false; }
      if ok { tree := tree + map q | q in Prefixes(p) && q !in tree :: Dir(DIR_MODE); }
    }

    /** An existing file keeps its mode. */
    method WriteFile(p: Path, data: string, calls: Calls) returns (ok: bool)
      modifies this, calls
      ensures calls.failed >= old(calls.failed)
      ensures ok <==> calls.failed == old(calls.failed) && (p in old(tree) ==> old(tree)[p].File?)
      ensures ok ==> tree == old(tree)[p := File(data, if p in old(tree) then old(tree)[p].mode else FILE_MODE)]
      ensures ok && p in old(tree) ==> old(tree)[p].File?
    {
      ok := calls.Attempt();
      if p in tree && tree[p].Dir? { return false; }
      var written: string := *;
      tree := tree[p := File(if ok then data else written, if p in tree then tree[p].mode else FILE_MODE)];
    }
  }

  /** What a partial copy into an empty directory holds. */
  ghost predicate PartOf(copy: Tree, src: Tree, finished: set<Path>) {
    && (forall p | p in copy :: p in src && copy[p] == Flattened(src[p]) && (src[p].File? ==> p in finished))
    && finished <= copy.Keys
  }

  /** Copies one directory or file; a file is digested from its copy. */
  method CopyNode(src: Tree, p: Path, dst: Folder, calls: Calls, ghost finished: set<Path>) returns (ok: bool, entry: Option<FileEntry>)
    requires p in src && WellFormed(src) && p !in finished
    modifies dst, calls
    ensures calls.failed >= old(calls.failed) && (ok ==> calls.failed == old(calls.failed))
    ensures PartOf(old(dst.tree), src, finished) && calls.failed == old(calls.failed) ==> ok
    ensures ok && PartOf(old(dst.tree), src, finished) ==> PartOf(dst.tree, src, finished + {p})
    ensures ok ==> entry == if src[p].Dir? then None else Some(EntryOf(p, src[p]))
  {
    entry := None;
    if src[p].Dir? {
      ok := dst.MkdirAll(p, calls);
      assert p[..|p|] == p && p in Prefixes(p);
      return;
    }
    ok := calls.Attempt(); // read the source file
    if !ok { return; }
    if p != [] {
      ok := dst.MkdirAll(p[..|p| - 1], calls);
      if !ok { return; }
      assert forall q | q in Prefixes(p[..|p| - 1]) :: q in Prefixes(p) && q != p by {
        forall q | q in Prefixes(p[..|p| - 1]) ensures q in Prefixes(p) && q != p {
          var k :| 0 <= k <= |p| - 1 && q == p[..|p| - 1][..k];
          assert q == p[..k];
        }
      }
    }
    ok := dst.WriteFile(p, src[p].data, calls);
    if !ok { return; }
    var digested := calls.Attempt();
    if !digested { return false, None; }
    entry := Some(EntryOf(p, src[p]));
  }

  /** `copyDir`: the walk over the source, in no particular order. A missing source is an error. */
  method CopyDir(src: Tree, dst: Folder, calls: Calls) returns (ok: bool, entries: seq<FileEntry>)
    requires WellFormed(src)
    modifies dst, calls
    ensures calls.failed >= old(calls.failed) && (ok ==> calls.failed == old(calls.failed))
    ensures old(dst.tree) == map[] ==> (ok <==> src != map[] && calls.failed == old(calls.failed))
    ensures ok ==> src != map[] && Lists(entries, src)
    ensures ok ==> forall e | e in entries :: e.path in src && src[e.path].File? && e.size == |src[e.path].data| && e.digest == DigestOf(src[e.path].data)
    ensures ok && old(dst.tree) == map[] ==> dst.tree == Flat(src)
  {
    PartBegins(src);
    hide PartOf, Lists, WellFormed, Flat;
    entries := [];
    if src == map[] { return false, entries; }
    ghost var fresh0 := dst.tree == map[];
    var rest := src.Keys;
    while rest != {}
      invariant rest <= src.Keys
      invariant fresh0 ==> PartOf(dst.tree, src, src.Keys - rest)
      invariant Lists(entries, src - rest)
      invariant calls.failed == old(calls.failed)
      decreases |rest|
    {
      var p :| p in rest;
      var entry;
      ok, entry := CopyNode(src, p, dst, calls, src.Keys - rest);
      if !ok { return; }
      ListsNext(entries, src, rest, p);
      assert src.Keys - (rest - {p}) == (src.Keys - rest) + {p};
      rest := rest - {p};
      if entry.Some? { entries := entries + [entry.value]; }
    }
    ok := true;
    assert src - rest == src;
    assert src.Keys - rest == src.Keys;
    if fresh0 { PartEnds(dst.tree, src); }
    EntriesTell(entries, src);
  }

  lemma EntriesTell(entries: seq<FileEntry>, t: Tree)
    requires Lists(entries, t)
    ensures forall e | e in entries :: e.path in t && t[e.path].File? && e.size == |t[e.path].data| && e.digest == DigestOf(t[e.path].data)
  {
  }

  lemma PartBegins(src: Tree)
    ensures PartOf(map[], src, src.Keys - src.Keys) && Lists([], src - src.Keys)
  {
  }

  lemma PartEnds(copy: Tree, src: Tree)
    ensures PartOf(copy, src, src.Keys) ==> copy == Flat(src)
  {
  }

  lemma ListsNext(entries: seq<FileEntry>, src: Tree, rest: set<Path>, p: Path)
    requires p in rest && rest <= src.Keys && Lists(entries, src - rest)
    ensures Lists(if src[p].Dir? then entries else entries + [EntryOf(p, src[p])], src - (rest - {p}))
  {
    var t, u := src - rest, src - (rest - {p});
    var next := if src[p].Dir? then entries else entries + [EntryOf(p, src[p])];
    forall q | q in u && u[q].File? ensures exists e | e in next :: e.path == q {
      if q == p {
        assert next[|next| - 1] in next;
      } else {
        assert q in t && t[q].File?;
        var e :| e in entries && e.path == q;
        assert e in next;
      }
    }
    forall e | e in next ensures e.path in u && u[e.path].File? && e == EntryOf(e.path, u[e.path]) {
      if e in entries { assert e.path in t; }
    }
    forall i, j | 0 <= i < j < |next| ensures next[i].path != next[j].path {
      assert entries[i] in entries;
      assert next[i] == entries[i];
      if j < |entries| { assert next[j] == entries[j]; }
    }
  }

  // ---- A stored backup -------------------------------------------------------------------------

  class Stored {
    const data: Folder
    const bundles: Folder
    const models: Folder
    var manifest: Option<Manifest>

    ghost predicate Valid()
      reads this, data, bundles, models
    {
      && data != bundles && data != models && bundles != models
      && WellFormed(data.tree) && WellFormed(bundles.tree) && WellFormed(models.tree)
    }

    /** A new, empty backup directory. */
    constructor ()
      ensures fresh(data) && fresh(bundles) && fresh(models) && Valid()
      ensures data.tree == map[] && bundles.tree == map[] && models.tree == map[] && manifest.None?
    {
      data := new Folder(map[]);
      bundles := new Folder(map[]);
      models := new Folder(map[]);
      manifest := None;
    }
  }

  predicate Intact(entries: seq<FileEntry>, t: Tree) {
    forall i | 0 <= i < |entries| ::
      entries[i].path in t && t[entries[i].path].File? && entries[i].digest == DigestOf(t[entries[i].path].data)
  }

  method VerifyEntries(folder: Folder, entries: seq<FileEntry>, calls: Calls) returns (ok: bool)
    modifies calls
    ensures calls.failed >= old(calls.failed) && (ok <==> calls.failed == old(calls.failed) && Intact(entries, folder.tree))
  {
    ok := true;
    for i := 0 to |entries|
      invariant calls.failed >= old(calls.failed)
      invariant ok <==> calls.failed == old(calls.failed) && Intact(entries[..i], folder.tree)
    {
      var p := entries[i].path;
      var read := calls.Attempt();
      assert entries[..i + 1] == entries[..i] + [entries[i]];
      if !(read && p in folder.tree && folder.tree[p].File? && entries[i].digest == DigestOf(folder.tree[p].data)) { ok := false; }
    }
    assert entries[..|entries|] == entries;
  }

  /** Every file that the manifest lists is in place with its digest. */
  ghost predicate Sound(b: Stored)
    reads b, b.data, b.bundles, b.models
  {
    && b.manifest.Some? && Intact(b.manifest.value.files, b.data.tree)
    && Intact(b.manifest.value.policyFiles, b.bundles.tree) && Intact(b.manifest.value.modelFiles, b.models.tree)
  }

  /** Fails closed: any listed file that is missing, unreadable or altered makes the whole backup unusable. */
  method Verify(b: Stored, calls: Calls) returns (ok: bool)
    modifies calls
    ensures calls.failed >= old(calls.failed) && (ok <==> calls.failed == old(calls.failed) && Sound(b))
  {
    ok := calls.Attempt();
    if !ok || b.manifest.None? { return false; }
    var m := b.manifest.value;
    var data := VerifyEntries(b.data, m.files, calls);
    var bundles := VerifyEntries(b.bundles, m.policyFiles, calls);
    var models := VerifyEntries(b.models, m.modelFiles, calls);
    ok := data && bundles && models;
  }

  // ---- The host --------------------------------------------------------------------------------

  /** The host directories, how often K3s was stopped successfully and asked to start, and whether it is down now: only then may
      its directories be copied or replaced. */
  class Host {
    const data: Folder
    const bundles: Folder
    const models: Folder
    const calls: Calls
    ghost var stops: nat
    ghost var starts: nat
    ghost var down: bool

    ghost predicate Valid()
      reads this, data, bundles, models
    {
      && data != bundles && data != models && bundles != models
      && WellFormed(data.tree) && WellFormed(bundles.tree) && WellFormed(models.tree)
    }

    constructor (data: Folder, bundles: Folder, models: Folder, calls: Calls)
      ensures this.data == data && this.bundles == bundles && this.models == models && this.calls == calls
      ensures stops == 0 && starts == 0 && !down
    {
      this.data, this.bundles, this.models, this.calls, this.stops, this.starts, this.down :=
        data, bundles, models, calls, 0, 0, false;
    }

    ghost predicate Apart(b: Stored) {
      {data, bundles, models} !! {b.data, b.bundles, b.models}
    }

    method Stop() returns (ok: bool)
      modifies this`stops, this`down, calls
      ensures calls.failed == if ok then old(calls.failed) else old(calls.failed) + 1
      ensures stops == if ok then old(stops) + 1 else old(stops)
      ensures down == (ok || old(down))
    {
      ok := calls.Attempt();
      if ok { stops, down := stops + 1, true; }
    }

    method EnableAndStart() returns (ok: bool)
      modifies this`starts, this`down, calls
      ensures calls.failed == if ok then old(calls.failed) else old(calls.failed) + 1
      ensures starts == old(starts) + 1 && down == (!ok && old(down))
    {
      ok := calls.Attempt();
      starts, down := starts + 1, !ok && down;
    }

    /** The optional parts of a backup: a directory that was not given is not copied, absent bundles are skipped, absent models fail. */
    method CopyParts(b: Stored, bundlesDir: string, modelsDir: string, version: string) returns (ok: bool)
      requires Valid() && b.Valid() && Apart(b) && down
      requires b.data.tree == map[] && b.bundles.tree == map[] && b.models.tree == map[]
      modifies b, b.data, b.bundles, b.models, calls
      ensures calls.failed >= old(calls.failed)
      ensures ok <==> calls.failed == old(calls.failed) && data.tree != map[] && (Blank(modelsDir) || models.tree != map[])
      ensures ok ==> b.data.tree == Flat(data.tree) && data.tree != map[]
      ensures ok ==> b.bundles.tree == if Blank(bundlesDir) then map[] else Flat(bundles.tree)
      ensures ok ==> b.models.tree == if Blank(modelsDir) then map[] else Flat(models.tree)
      ensures ok ==> b.manifest.Some? && b.manifest.value.version == version && Lists(b.manifest.value.files, data.tree)
                     && (if Blank(bundlesDir) then b.manifest.value.policyFiles == [] else Lists(b.manifest.value.policyFiles, bundles.tree))
                     && (if Blank(modelsDir) then b.manifest.value.modelFiles == [] else Lists(b.manifest.value.modelFiles, models.tree))
      ensures ok && !Blank(modelsDir) ==> models.tree != map[]
    {
      var files;
      ok, files := CopyDir(data.tree, b.data, calls);
      if !ok { return; }
      var policyFiles: seq<FileEntry>, modelFiles: seq<FileEntry> := [], [];
      if !Blank(bundlesDir) {
        ok := calls.Attempt(); // stat
        if !ok { return; }
        if bundles.tree != map[] {
          ok, policyFiles := CopyDir(bundles.tree, b.bundles, calls);
          if !ok { return; }
        }
      }
      if !Blank(modelsDir) {
        ok, modelFiles := CopyDir(models.tree, b.models, calls);
        if !ok { return; }
      }
      ok := calls.Attempt(); // save the manifest
      if ok { b.manifest := Some(Manifest(version, files, policyFiles, modelFiles)); }
    }

    /** `create`: one stop, one copy, and one attempt to start however the copy ended. The host's directories stay as they are. */
    method Create(bundlesDir: string, modelsDir: string, version: string) returns (ok: bool, b: Stored)
      requires Valid()
      modifies this`stops, this`starts, this`down, calls
      ensures ok <==> calls.failed == old(calls.failed) && data.tree != map[] && (Blank(modelsDir) || models.tree != map[])
      ensures Valid() && fresh(b) && fresh({b.data, b.bundles, b.models}) && Apart(b)
      ensures stops - old(stops) == starts - old(starts) && (ok ==> stops == old(stops) + 1 && !down)
      ensures ok ==> IsBackup(b, data.tree, bundles.tree, models.tree, bundlesDir, modelsDir) && b.Valid() && Sound(b)
    {
      b := new Stored();
      ok := Stop();
      if !ok { return; }
      ok := CopyParts(b, bundlesDir, modelsDir, version);
      var started := EnableAndStart();
      if ok {
        FlatWellFormed(data.tree);
        FlatWellFormed(bundles.tree);
        FlatWellFormed(models.tree);
      }
      ok := ok && started;
      if ok { FreshBackupIsSound(b, data.tree, bundles.tree, models.tree, bundlesDir, modelsDir); }
    }

    /** A cleared directory receives a copy. */
    method Replace(target: Folder, source: Tree) returns (ok: bool)
      requires WellFormed(source) && down
      modifies target, calls
      ensures calls.failed >= old(calls.failed) && (ok <==> calls.failed == old(calls.failed) && source != map[])
      ensures ok ==> target.tree == Flat(source)
    {
      ok := target.RemoveAll(calls);
      if !ok { return; }
      var entries;
      ok, entries := CopyDir(source, target, calls);
    }

    method ReplaceParts(b: Stored, bundlesDir: string, modelsDir: string) returns (ok: bool)
      requires Valid() && b.Valid() && Apart(b) && b.manifest.Some? && down
      modifies data, bundles, models, calls
      ensures calls.failed >= old(calls.failed)
      ensures ok <==> calls.failed == old(calls.failed) && b.data.tree != map[]
                      && (Blank(modelsDir) || b.manifest.value.modelFiles == [] || b.models.tree != map[])
      ensures ok ==> data.tree == Flat(b.data.tree)
      ensures ok ==> bundles.tree == if Blank(bundlesDir) || b.bundles.tree == map[] then old(bundles.tree) else Flat(b.bundles.tree)
      ensures ok ==> models.tree == if Blank(modelsDir) || b.manifest.value.modelFiles == [] then old(models.tree) else Flat(b.models.tree)
    {
      ok := Replace(data, b.data.tree);
      if !ok { return; }
      if !Blank(bundlesDir) {
        ok := calls.Attempt(); // stat
        if !ok { return; }
        if b.bundles.tree != map[] {
          ok := Replace(bundles, b.bundles.tree);
          if !ok { return; }
        }
      }
      if !Blank(modelsDir) && b.manifest.value.modelFiles != [] {
        ok := Replace(models, b.models.tree);
      }
    }

    /** `restore`: nothing is touched before the backup has been verified; then one stop and one attempt to start. */
    method Restore(b: Stored, bundlesDir: string, modelsDir: string) returns (ok: bool, ghost verified: bool)
      requires Valid() && b.Valid() && Apart(b)
      modifies this`stops, this`starts, this`down, data, bundles, models, calls
      ensures ok <==> calls.failed == old(calls.failed) && Sound(b) && b.data.tree != map[]
      ensures verified ==> Sound(b)
      ensures !verified ==> data.tree == old(data.tree) && bundles.tree == old(bundles.tree) && models.tree == old(models.tree)
                            && stops == old(stops)
      ensures stops - old(stops) == starts - old(starts) && stops <= old(stops) + 1
      ensures stops == old(stops) ==>
                data.tree == old(data.tree) && bundles.tree == old(bundles.tree) && models.tree == old(models.tree)
      ensures ok ==> stops == old(stops) + 1 && !down
      ensures ok ==> Restored(b, bundlesDir, modelsDir, old(bundles.tree), old(models.tree), data.tree, bundles.tree, models.tree)
    {
      verified := false;
      ok := calls.Attempt(); // load the manifest
      if !ok || b.manifest.None? { return false, verified; }
      ok := Verify(b, calls);
      verified := ok;
      if !ok { return; }
      assert b.manifest.value.modelFiles != [] ==> b.manifest.value.modelFiles[0].path in b.models.tree;
      ok := Stop();
      if !ok { return; }
      ok := ReplaceParts(b, bundlesDir, modelsDir);
      var started := EnableAndStart();
      ok := ok && started;
    }
  }

  /** The backup of three directory trees, taken with or without the two optional ones. */
  ghost predicate IsBackup(b: Stored, data: Tree, bundles: Tree, models: Tree, bundlesDir: string, modelsDir: string)
    reads b, b.data, b.bundles, b.models
  {
    && b.manifest.Some?
    && b.data.tree == Flat(data) && data != map[] && Lists(b.manifest.value.files, data)
    && (if Blank(bundlesDir) then b.bundles.tree == map[] && b.manifest.value.policyFiles == []
        else b.bundles.tree == Flat(bundles) && Lists(b.manifest.value.policyFiles, bundles))
    && (if Blank(modelsDir) then b.models.tree == map[] && b.manifest.value.modelFiles == []
        else b.models.tree == Flat(models) && models != map[] && Lists(b.manifest.value.modelFiles, models))
  }

  lemma FlatWellFormed(t: Tree)
    requires WellFormed(t)
    ensures WellFormed(Flat(t))
  {
  }

  /** What a copy is: the names of the original, its directories, and the contents of its files, with one mode for either. */
  lemma FlatIsCopy(t: Tree)
    ensures Flat(t).Keys == t.Keys
    ensures forall p | p in t && t[p].Dir? :: Flat(t)[p] == Dir(7 * 64 + 5 * 8)
    ensures forall p | p in t && t[p].File? :: Flat(t)[p] == File(t[p].data, 6 * 64 + 4 * 8)
  {
  }

  /** What verification looks at: in all three trees, every listed file, for its content. */
  lemma SoundCoversAll(b: Stored)
    ensures Sound(b) <==>
              && b.manifest.Some?
              && (forall e | e in b.manifest.value.files :: Stands(e, b.data.tree))
              && (forall e | e in b.manifest.value.policyFiles :: Stands(e, b.bundles.tree))
              && (forall e | e in b.manifest.value.modelFiles :: Stands(e, b.models.tree))
  {
    if b.manifest.Some? {
      IntactIff(b.manifest.value.files, b.data.tree);
      IntactIff(b.manifest.value.policyFiles, b.bundles.tree);
      IntactIff(b.manifest.value.modelFiles, b.models.tree);
    }
  }

  predicate Stands(e: FileEntry, t: Tree) { e.path in t && t[e.path].File? && DigestOf(t[e.path].data) == e.digest }

  lemma IntactIff(entries: seq<FileEntry>, t: Tree)
    ensures Intact(entries, t) <==> forall e | e in entries :: Stands(e, t)
  {
    assert forall i | 0 <= i < |entries| :: entries[i] in entries;
  }

  /** What a successful restore leaves on the host. */
  ghost predicate Restored(b: Stored, bundlesDir: string, modelsDir: string, bundlesBefore: Tree, modelsBefore: Tree,
                           data: Tree, bundles: Tree, models: Tree)
    reads b, b.data, b.bundles, b.models
  {
    && b.manifest.Some?
    && data == Flat(b.data.tree)
    && bundles == (if Blank(bundlesDir) || b.bundles.tree == map[] then bundlesBefore else Flat(b.bundles.tree))
    && models == (if Blank(modelsDir) || b.manifest.value.modelFiles == [] then modelsBefore else Flat(b.models.tree))
  }

  /** Names and contents are those of the original. */
  ghost predicate SameContents(t: Tree, u: Tree) { Flat(t) == Flat(u) }

  lemma NoFilesListed(entries: seq<FileEntry>, t: Tree)
    requires Lists(entries, t)
    ensures entries == [] <==> !HasFiles(t)
  {
    if entries != [] { assert entries[0] in entries; }
    if HasFiles(t) {
      var p :| p in t && t[p].File?;
      var e :| e in entries && e.path == p;
    }
  }

  /** Restoring a backup, on any host, gives back the data tree; and each optional tree exactly when it was given both
      times and, for bundles, existed, and for models, held a file at all, or when the host happened to hold it already. */
  lemma BackupThenRestore(b: Stored, data: Tree, bundles: Tree, models: Tree, bundlesDir: string, modelsDir: string,
                          data': Tree, bundles': Tree, models': Tree, bundlesBefore: Tree, modelsBefore: Tree)
    requires IsBackup(b, data, bundles, models, bundlesDir, modelsDir)
    requires Restored(b, bundlesDir, modelsDir, bundlesBefore, modelsBefore, data', bundles', models')
    ensures Sound(b)
    ensures SameContents(data', data) && data' == Flat(data)
    ensures data'.Keys == data.Keys
    ensures forall p | p in data && data[p].File? :: data'[p].File? && data'[p].data == data[p].data
    ensures SameContents(bundles', bundles) <==> (!Blank(bundlesDir) && bundles != map[]) || SameContents(bundlesBefore, bundles)
    ensures SameContents(models', models) <==> (!Blank(modelsDir) && HasFiles(models)) || SameContents(modelsBefore, models)
  {
    FreshBackupIsSound(b, data, bundles, models, bundlesDir, modelsDir);
    FlatTwice(data);
    FlatTwice(bundles);
    FlatTwice(models);
    if !Blank(modelsDir) { NoFilesListed(b.manifest.value.modelFiles, models); }
    assert bundles != map[] ==> Flat(bundles) != map[] by {
      if bundles != map[] { var p :| p in bundles; assert p in Flat(bundles); }
    }
  }

  /** What was listed while it was copied is found when it is verified: only failed calls can stop the restore of a new backup. */
  lemma FreshBackupIsSound(b: Stored, data: Tree, bundles: Tree, models: Tree, bundlesDir: string, modelsDir: string)
    requires IsBackup(b, data, bundles, models, bundlesDir, modelsDir)
    ensures Sound(b) && b.data.tree != map[]
  {
    hide Lists, Flat;
    ListedIsIntact(b.manifest.value.files, data);
    if !Blank(bundlesDir) { ListedIsIntact(b.manifest.value.policyFiles, bundles); }
    if !Blank(modelsDir) { ListedIsIntact(b.manifest.value.modelFiles, models); }
  }

  lemma ListedIsIntact(entries: seq<FileEntry>, t: Tree)
    requires Lists(entries, t)
    ensures Intact(entries, Flat(t)) && (t != map[] ==> Flat(t) != map[])
  {
    forall i | 0 <= i < |entries|
      ensures entries[i].path in Flat(t) && Flat(t)[entries[i].path].File? && entries[i].digest == DigestOf(Flat(t)[entries[i].path].data)
    {
      assert entries[i] in entries;
    }
    if t != map[] {
      var p :| p in t;
      assert p in Flat(t);
    }
  }

  lemma FlatTwice(t: Tree)
    ensures Flat(Flat(t)) == Flat(t)
  {
  }

  /** A listed file that was altered after the backup is never restored: what lands on the host is what was backed up. */
  lemma RestoredFilesAreListed(entries: seq<FileEntry>, original: Tree, stored: Tree, restored: Tree, p: Path)
    requires Lists(entries, original) && Intact(entries, stored) && restored == Flat(stored)
    requires p in original && original[p].File?
    ensures p in restored && restored[p] == Flattened(original[p])
  {
    var e :| e in entries && e.path == p;
    var i :| 0 <= i < |entries| && entries[i] == e;
  }

  function FilesOf(t: Tree): Tree { map p | p in t && t[p].File? :: t[p] }

  /** Every file in the tree is on the list. */
  predicate AllListed(entries: seq<FileEntry>, t: Tree) {
    forall p | p in t && t[p].File? :: exists i | 0 <= i < |entries| :: entries[i].path == p
  }

  /** A verified backup restores exactly the files that were backed up if and only if it holds no file that is not listed, and
      exactly the tree if moreover its directories are the old ones. */
  lemma RestoresOriginalIffAllListed(entries: seq<FileEntry>, original: Tree, stored: Tree)
    requires Lists(entries, original) && Intact(entries, stored)
    ensures FilesOf(Flat(stored)) == FilesOf(Flat(original)) <==> AllListed(entries, stored)
    ensures Flat(stored) == Flat(original)
       <==> AllListed(entries, stored) && SameDirs(stored, original)
  {
    var s, o := FilesOf(Flat(stored)), FilesOf(Flat(original));
    forall p | p in o ensures p in s && s[p] == o[p] { RestoredFilesAreListed(entries, original, stored, Flat(stored), p); }
    forall p ensures p in o <==> exists i | 0 <= i < |entries| :: entries[i].path == p {
      if p in o {
        var e :| e in entries && e.path == p;
        var i :| 0 <= i < |entries| && entries[i] == e;
      }
      if i :| 0 <= i < |entries| && entries[i].path == p { assert entries[i] in entries; }
    }
    if AllListed(entries, stored) {
      forall p | p in s ensures p in o { assert p in stored && stored[p].File?; }
      assert s == o;
    }
    if s == o {
      forall p | p in stored && stored[p].File? ensures exists i | 0 <= i < |entries| :: entries[i].path == p { assert p in s && p in o; }
    }
    SameTree(stored, original);
  }

  ghost predicate SameDirs(t: Tree, u: Tree) { forall p :: (p in t && t[p].Dir?) <==> (p in u && u[p].Dir?) }

  lemma SameTree(t: Tree, u: Tree)
    ensures Flat(t) == Flat(u) <==> FilesOf(Flat(t)) == FilesOf(Flat(u)) && SameDirs(t, u)
  {
    var f, g := Flat(t), Flat(u);
    SplitTree(f);
    SplitTree(g);
    if f == g {
      forall p ensures (p in t && t[p].Dir?) <==> (p in u && u[p].Dir?) { assert p in f <==> p in g; }
    }
    if SameDirs(t, u) { assert DirsOf(f) == DirsOf(g); }
  }

  function DirsOf(t: Tree): Tree { map p | p in t && t[p].Dir? :: t[p] }

  lemma SplitTree(t: Tree)
    ensures t == FilesOf(t) + DirsOf(t)
  {
  }

  /** A file that the manifest does not list passes verification and is restored with the rest. */
  lemma UnlistedFilesAreRestored(entries: seq<FileEntry>, stored: Tree, p: Path, data: string)
    requires Intact(entries, stored) && p !in stored
    ensures Intact(entries, stored[p := File(data, FILE_MODE)]) && Flat(stored[p := File(data, FILE_MODE)])[p] == File(data, FILE_MODE)
  {
  }
}
