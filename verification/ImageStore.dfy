/** The containerd image store, and what `ctr` may do to it. */
module ImageStore {
  import opened Text
  import opened ImageReferences
  import opened ImageOrder

  /** Image references and the content digest each is bound to. */
  type Refs = map<string, string>

  /** One `ctr` call that may change the store. */
  datatype Op =
    | Removed(name: string, before: Refs, after: Refs, ok: bool)
    | Imported(image: Image, before: Refs, after: Refs, ok: bool)
    | Tagged(source: string, target: string, before: Refs, after: Refs, ok: bool)

  /** The manifest digest of an OCI archive, empty for any other. */
  function Content(img: Image): string {
    if img.archive.index.OCI? then Trim(img.archive.index.manifestDigest) else ""
  }

  predicate Agrees(shown: Refs, refs: Refs) { forall n | n in shown :: n in refs && shown[n] == refs[n] }

  predicate Rebound(n: string, before: Refs, after: Refs) {
    n in after && !(n in before && before[n] == after[n])
  }

  /** The store. `listed` says that no listing has failed so far, `complete` that none left out a digest, and `readable` that
      no archive could not be read. */
  class Store {
    var refs: Refs
    ghost var log: seq<Op>
    ghost var listed: bool
    ghost var complete: bool
    ghost var readable: bool

    constructor (refs: Refs)
      ensures this.refs == refs && log == [] && listed && complete && readable
    {
      this.refs, this.log, this.listed, this.complete, this.readable := refs, [], true, true, true;
    }

    /** One pass over an archive file. */
    method ReadArchive() returns (ok: bool)
      modifies this`readable
      ensures readable == (old(readable) && ok)
    {
      ok := *;
      readable := readable && ok;
    }

    method Names() returns (names: Option<set<string>>)
      modifies this`listed
      ensures names.Some? ==> names.value == refs.Keys && listed == old(listed)
      ensures names.None? ==> !listed
    {
      var ok: bool := *;
      if ok { return Some(refs.Keys); }
      listed := false;
      return None;
    }

    /** The digest column may be missing for some references. */
    method Digests() returns (digests: Option<Refs>)
      modifies this`listed, this`complete
      ensures digests.Some? ==> Agrees(digests.value, refs) && listed == old(listed)
      ensures digests.None? ==> !listed
      ensures complete ==> old(complete) && (digests.Some? ==> digests.value == refs)
    {
      var ok: bool := *;
      if !ok { listed := false; return None; }
      var missing: set<string> := *;
      var shown := refs - missing;
      complete := complete && shown == refs;
      return Some(shown);
    }

    method Remove(name: string) returns (ok: bool)
      modifies this`refs, this`log
      ensures refs == old(refs) - {name} || (!ok && refs == old(refs))
      ensures log == old(log) + [Removed(name, old(refs), refs, ok)]
    {
      ok := *;
      var gone: bool := *;
      ghost var before := refs;
      if ok || gone { refs := refs - {name}; }
      log := log + [Removed(name, before, refs, ok)];
    }

    /** An import may bind any number of names, and may do so before it fails. */
    method Import(image: Image) returns (ok: bool)
      modifies this`refs, this`log
      ensures old(refs).Keys <= refs.Keys
      ensures log == old(log) + [Imported(image, old(refs), refs, ok)]
    {
      ok := *;
      var bound: Refs := *;
      ghost var before := refs;
      refs := refs + bound;
      log := log + [Imported(image, before, refs, ok)];
    }

    /** A source that is no reference may resolve to any content. */
    method Tag(source: string, target: string) returns (ok: bool)
      modifies this`refs, this`log
      ensures (target in refs && refs == old(refs)[target := refs[target]]) || (!ok && refs == old(refs))
      ensures ok && source in old(refs) ==> refs == old(refs)[target := old(refs)[source]]
      ensures log == old(log) + [Tagged(source, target, old(refs), refs, ok)]
    {
      ok := *;
      var partial: bool, resolved: string := *, *;
      ghost var before := refs;
      if ok || partial {
        refs := refs[target := if source in refs then refs[source] else resolved];
      }
      log := log + [Tagged(source, target, before, refs, ok)];
    }
  }

  // ---- What may be asked of `ctr` --------------------------------------------------------------

  /** An import binds its own manifest digest, and no name that the release lists for other content. */
  ghost predicate HonestOp(op: Op, images: seq<Image>) {
    op.Imported? ==>
      && op.before.Keys <= op.after.Keys
      && forall n | Rebound(n, op.before, op.after) ::
           && (Content(op.image) != "" ==> op.after[n] == Content(op.image))
           && forall i | 0 <= i < |images| && images[i].name == n :: Content(images[i]) == Content(op.image)
  }

  ghost predicate Honest(log: seq<Op>, from: nat, images: seq<Image>) {
    forall i | from <= i < |log| :: HonestOp(log[i], images)
  }

  predicate CleanDigests(refs: Refs) { forall n | n in refs :: refs[n] != "" && Trim(refs[n]) == refs[n] }

  /** A call that works: an import is honest, and brings the wanted name itself where no manifest digest tells what to tag; and a
      tag from a source whose text names the wanted content binds that content. */
  ghost predicate SmoothOp(op: Op, images: seq<Image>) {
    && op.ok && HonestOp(op, images)
    && (op.Imported? && op.image.requireReference && Content(op.image) == "" ==> op.image.name in op.after)
    && (op.Tagged? ==>
          && CleanDigests(op.before) && op.target in op.after
          && forall i | 0 <= i < |images| && images[i].name == op.target && Qualified(op.source, Content(images[i])) ::
               op.after[op.target] == Content(images[i]))
  }

  ghost predicate Smooth(log: seq<Op>, from: nat, images: seq<Image>) {
    forall i | from <= i < |log| :: SmoothOp(log[i], images)
  }

  lemma SmoothParts(shorter: seq<Op>, log: seq<Op>, from: nat, images: seq<Image>)
    requires shorter <= log && Smooth(log, from, images)
    ensures Smooth(shorter, from, images) && (from <= |shorter| ==> Smooth(log, |shorter|, images))
  {
    hide SmoothOp;
    assert forall i | from <= i < |shorter| :: shorter[i] == log[i];
  }

  lemma SmoothForOne(log: seq<Op>, from: nat, images: seq<Image>, i: nat)
    requires Smooth(log, from, images) && i < |images|
    ensures Smooth(log, from, [images[i]])
  {
    hide Content, Qualified;
    forall k | from <= k < |log| ensures SmoothOp(log[k], [images[i]]) { assert SmoothOp(log[k], images); }
  }

  /** A call that fails adds no reference. */
  ghost predicate FailuresAddNothing(log: seq<Op>, from: nat) {
    forall i | from <= i < |log| :: !log[i].ok ==> log[i].after.Keys <= log[i].before.Keys
  }

  /** A reference that is there can be removed. */
  ghost predicate RemovalsWork(log: seq<Op>, from: nat) {
    forall i | from <= i < |log| :: log[i].Removed? && log[i].name in log[i].before ==> log[i].ok
  }

  /** Imports create names; they do not rebind any that are there. */
  ghost predicate NoRebind(log: seq<Op>, from: nat) {
    forall i | from <= i < |log| && log[i].Imported? :: forall n | n in log[i].before :: n in log[i].after && log[i].after[n] == log[i].before[n]
  }

  function RemovedNames(log: seq<Op>, from: nat): (r: set<string>) {
    set i | from <= i < |log| && log[i].Removed? :: log[i].name
  }

  lemma OfPrefix(shorter: seq<Op>, log: seq<Op>, from: nat, images: seq<Image>)
    requires shorter <= log
    ensures Honest(log, from, images) ==> Honest(shorter, from, images)
    ensures FailuresAddNothing(log, from) ==> FailuresAddNothing(shorter, from)
    ensures RemovalsWork(log, from) ==> RemovalsWork(shorter, from)
    ensures NoRebind(log, from) ==> NoRebind(shorter, from)
    ensures RemovedNames(shorter, from) <= RemovedNames(log, from)
    ensures from <= |shorter| ==> RemovedNames(log, from) == RemovedNames(shorter, from) + RemovedNames(log, |shorter|)
  {
    hide HonestOp;
    assert forall i | from <= i < |shorter| :: shorter[i] == log[i];
  }
}
