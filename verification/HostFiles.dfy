/** Files as the transactional host operations see them. */
module HostFiles {
  import opened SystemCalls
  import opened Text

  /** Permission bits, and the set-id and sticky bits beside them. */
  datatype Mode = Mode(permissions: nat, special: nat)

  datatype File = File(data: string, mode: Mode)

  type Tree = map<string, File>

  function Lookup(t: Tree, path: string): Option<File> { if path in t then Some(t[path]) else None }

  function Data(f: Option<File>): Option<string> { if f.Some? then Some(f.value.data) else None }

  /** Content and absence; the modes may differ. */
  predicate SameContent(t: Tree, u: Tree, path: string) { Data(Lookup(t, path)) == Data(Lookup(u, path)) }

  /** Everything but `paths` is as it was. */
  ghost predicate SameElsewhere(t: Tree, u: Tree, paths: set<string>) {
    forall path | path !in paths :: Lookup(t, path) == Lookup(u, path)
  }

  /** A file system in which any call may fail. */
  class Files {
    var tree: Tree
    const calls: Calls

    constructor (tree: Tree, calls: Calls)
      ensures this.tree == tree && this.calls == calls
    {
      this.tree, this.calls := tree, calls;
    }

    method Read(path: string) returns (r: Outcome<Option<File>>)
      modifies calls
      ensures calls.failed == if r.Ok? then old(calls.failed) else old(calls.failed) + 1
      ensures r.Ok? ==> r.value == Lookup(tree, path)
    {
      var ok := calls.Attempt();
      return if ok then Ok(Lookup(tree, path)) else Err;
    }

    /** Temporary file, then rename: all or nothing, with the given permissions. */
    method WriteAtomic(path: string, data: string, permissions: nat) returns (ok: bool)
      modifies this, calls
      ensures calls.failed == if ok then old(calls.failed) else old(calls.failed) + 1
      ensures tree == if ok then old(tree)[path := File(data, Mode(permissions, 0))] else old(tree)
    {
      ok := calls.Attempt();
      if ok { tree := tree[path := File(data, Mode(permissions, 0))]; }
    }

    /** Truncate and write in place: an existing file keeps its mode, and a failure may leave it half written. */
    method Overwrite(path: string, data: string, mode: Mode) returns (ok: bool)
      modifies this, calls
      ensures calls.failed == if ok then old(calls.failed) else old(calls.failed) + 1
      ensures ok ==> tree == old(tree)[path := File(data, if path in old(tree) then old(tree)[path].mode else mode)]
      ensures SameElsewhere(tree, old(tree), {path})
    {
      ok := calls.Attempt();
      var partial: bool, written: string := *, *;
      if ok || partial {
        tree := tree[path := File(if ok then data else written, if path in tree then tree[path].mode else mode)];
      }
    }

    /** Removing a file that is not there is no error. */
    method Remove(path: string) returns (ok: bool)
      modifies this, calls
      ensures calls.failed == if ok then old(calls.failed) else old(calls.failed) + 1
      ensures tree == if ok then old(tree) - {path} else old(tree)
    {
      ok := calls.Attempt();
      if ok { tree := tree - {path}; }
    }
  }
}
