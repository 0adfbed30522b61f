/** Preloading the images of a release into the store, with rollback bookkeeping. */
module Preload {
  import opened Text
  import opened ImageReferences
  import opened ImageOrder
  import opened ImageStore
  import T = ClusterTopology

  /** What a run knows of the store, and what it has brought in: its three variables. */
  datatype Book = Book(already: set<string>, digests: Refs, newly: seq<string>)

  /** The archive may serve the reference: a pinned digest is the archive's manifest, and the annotation fits. */
  predicate ReferenceFits(img: Image) {
    var ref := Trim(img.name);
    var pinned := DigestFromRef(ref);
    && ref != ""
    && (pinned.Some? && img.archive.index.OCI? ==>
          && Trim(img.archive.index.manifestDigest) == pinned.value
          && (Trim(img.archive.index.annotation) != "" ==>
                AnnotationCompatible(Trim(img.archive.index.annotation), ref, pinned.value)))
    && (pinned.Some? ==> !img.archive.index.BadIndex?)
  }

  /** A required reference is not blank. If it pins a digest, an archive with a manifest must have just that one, under an annotation
      that fits if there is any; an archive without a manifest serves it, one with an unusable index does not. */
  lemma ReferenceFitsIff(img: Image)
    ensures ReferenceFits(img) <==>
              && !Blank(img.name)
              && match DigestFromRef(img.name)
                 case None => true
                 case Some(d) =>
                   match img.archive.index
                   case NotOCI => true
                   case BadIndex => false
                   case OCI(manifest, annotation) =>
                     Trim(manifest) == d && (Blank(annotation) || AnnotationCompatible(annotation, img.name, d))
  {
    BlankTrims(img.name);
    TrimmedAlike(img.name);
    if img.archive.index.OCI? {
      BlankTrims(img.archive.index.annotation);
      TrimmedAlike(img.archive.index.annotation);
      if DigestFromRef(img.name).Some? { AnnotationsAlike(img.archive.index.annotation, img.name, DigestFromRef(img.name).value); }
    }
    hide DigestFromRef, AnnotationCompatible, Trim, Blank, LocalName;
  }

  lemma AnnotationsAlike(annotation: string, ref: string, digest: string)
    ensures AnnotationCompatible(Trim(annotation), Trim(ref), digest) == AnnotationCompatible(annotation, ref, digest)
  {
    AnnotationFitsIff(annotation, ref, digest);
    AnnotationFitsIff(Trim(annotation), Trim(ref), digest);
    TrimmedAlike(annotation);
    TrimmedAlike(ref);
    hide DigestFromRef, AnnotationCompatible, Trim, LocalName;
  }

  /** What a workload needs of a required image: its exact reference, bound to the content of its archive. */
  predicate Bound(img: Image, refs: Refs) {
    img.requireReference ==>
      img.name in refs && ReferenceFits(img) && (Content(img) != "" ==> refs[img.name] == Content(img))
  }

  /** The same, as far as the run's own bookkeeping knows. */
  predicate SeenBound(img: Image, book: Book) {
    img.requireReference ==>
      && img.name in book.already && ReferenceFits(img)
      && (Content(img) != "" ==> img.name in book.digests && book.digests[img.name] == Content(img))
  }

  predicate InSync(refs: Refs, book: Book) {
    book.already == refs.Keys && Agrees(book.digests, refs)
  }

  /** No two required images claim one name for different content. */
  ghost predicate Consistent(images: seq<Image>) {
    forall i, j | 0 <= i < |images| && 0 <= j < |images| && images[i].requireReference && images[j].requireReference
                  && images[i].name == images[j].name && Content(images[i]) != "" && Content(images[j]) != "" ::
      Content(images[i]) == Content(images[j])
  }

  ghost predicate AllBound(images: seq<Image>, refs: Refs) {
    forall i | 0 <= i < |images| :: Bound(images[i], refs)
  }

  /** Everything in the store was there at the start or is on the list to roll back. */
  predicate Tracked(base: set<string>, refs: Refs, book: Book) {
    && (forall n | n in refs :: n in base || n in book.newly)
    && (forall n | n in book.already :: n in base || n in book.newly)
  }

  /** What was there at the start is still there, or this run removed it; only so can it be on the list. */
  predicate Accounted(base: set<string>, refs: Refs, book: Book, removed: set<string>) {
    && (forall n | n in base && n !in removed :: n in refs && n in book.already)
    && (forall n | n in book.newly && n in base :: n in removed)
  }

  /** The invariant behind rollback, whatever calls fail. `base` is what the store held when the log was `from` long. */
  ghost predicate Kept(base: set<string>, from: nat, store: Store, book: Book)
    reads store`refs, store`log, store`listed
  {
    && from <= |store.log|
    && (store.listed && FailuresAddNothing(store.log, from) ==> Tracked(base, store.refs, book))
    && Accounted(base, store.refs, book, RemovedNames(store.log, from))
  }

  // ---- Newly appeared references ---------------------------------------------------------------

  predicate StrictlyAscending(s: seq<string>) { forall i, j | 0 <= i < j < |s| :: T.Less(s[i], s[j]) }

  method InsertRef(sorted: seq<string>, ref: string) returns (r: seq<string>)
    requires StrictlyAscending(sorted) && ref !in sorted
    ensures StrictlyAscending(r) && forall n :: n in r <==> n in sorted || n == ref
  {
    var k := 0;
    while k < |sorted| && T.Less(sorted[k], ref)
      invariant 0 <= k <= |sorted|
      invariant forall j | 0 <= j < k :: T.Less(sorted[j], ref)
    {
      k := k + 1;
    }
    if k < |sorted| {
      T.LessTotal(sorted[k], ref);
      forall j | k < j < |sorted| ensures T.Less(ref, sorted[j]) { T.LessTransitive(ref, sorted[k], sorted[j]); }
    }
    r := sorted[..k] + [ref] + sorted[k..];
    assert forall n | n in sorted :: n in sorted[..k] || n in sorted[k..];
  }

  /** The references that a listing shows and the previous one did not, sorted. */
  method NewReferences(before: set<string>, after: set<string>) returns (refs: seq<string>)
    ensures StrictlyAscending(refs)
    ensures forall n :: n in refs <==> n in after && n !in before
  {
    refs := [];
    var rest := after;
    while rest != {}
      invariant rest <= after && StrictlyAscending(refs)
      invariant forall n :: n in refs <==> n in after - rest && n !in before
      decreases |rest|
    {
      var ref :| ref in rest;
      rest := rest - {ref};
      if ref !in before { refs := InsertRef(refs, ref); }
    }
  }

  // ---- One image -------------------------------------------------------------------------------

  /** The archive is the one that the release lists, its index is usable, and it may serve the reference if one is required. */
  predicate SoundArchive(img: Image) {
    && img.archive.fileDigest == img.expectedDigest && !img.archive.index.BadIndex?
    && (img.requireReference ==> ReferenceFits(img))
  }

  /** Digest, decompression, index and reference of one archive; any of the reads may fail. */
  method CheckArchive(store: Store, img: Image) returns (content: Option<string>)
    modifies store`readable
    ensures store.readable ==> old(store.readable)
    ensures content.Some? ==> content.value == Content(img) && SoundArchive(img)
    ensures store.readable && SoundArchive(img) ==> content.Some?
  {
    var verified := store.ReadArchive();
    if !verified || img.archive.fileDigest != img.expectedDigest { return None; }
    var prepared := store.ReadArchive();
    if !prepared { return None; }
    var read := store.ReadArchive();
    if !read || img.archive.index.BadIndex? { return None; }
    if img.requireReference {
      var reread := store.ReadArchive();
      if !reread || !ReferenceFits(img) { return None; }
    }
    return Some(Content(img));
  }

  /** What `ctr` may be asked to tag from: the content itself, or a safe candidate in the store. */
  ghost function Sources(content: string, present: set<string>, preferred: seq<string>, digests: Refs): iset<string> {
    iset src | src == content || (src in present && Candidate(src, Trim(content), present, preferred, digests))
  }

  ghost predicate TagsFrom(log0: seq<Op>, log: seq<Op>, sources: iset<string>) {
    log0 <= log && forall i | |log0| <= i < |log| :: log[i].Tagged? && log[i].source in sources
  }

  /** Since `log0` only `target` has been tagged, and as long as every call failed to add it, nothing was added. */
  ghost predicate OnlyTagged(log0: seq<Op>, refs0: Refs, log: seq<Op>, refs: Refs, target: string, ok: bool) {
    && log0 <= log
    && (forall i | |log0| <= i < |log| :: log[i].Tagged? && log[i].target == target)
    && (forall i | |log0| <= i < |log| - 1 :: !log[i].ok)
    && (ok && |log| > |log0| ==> log[|log| - 1].ok)
    && (!ok && |log| > |log0| ==> !log[|log| - 1].ok)
    && (forall n | n != target :: n in refs <==> n in refs0)
    && (forall n | n != target && n in refs :: refs[n] == refs0[n])
    && refs0.Keys <= refs.Keys
    && (!ok && FailuresAddNothing(log, |log0|) ==> refs.Keys <= refs0.Keys)
  }

  ghost predicate Tried(log: seq<Op>, from: nat, source: string) {
    exists k | from <= k < |log| :: log[k].Tagged? && log[k].source == source
  }

  predicate LastTag(op: Op, source: string, target: string, before: Refs, after: Refs, ok: bool) {
    && op == Tagged(source, target, before, after, ok)
    && (ok && source in before ==> target in after && after[target] == before[source])
  }

  /** The one call that tagged the wanted name, from a safe source. */
  ghost predicate TaggedOnce(log0: seq<Op>, refs0: Refs, log: seq<Op>, refs: Refs, target: string, sources: iset<string>) {
    && |log| > |log0| && log[|log| - 1].Tagged? && log[|log| - 1].source in sources
    && LastTag(log[|log| - 1], log[|log| - 1].source, target, log[|log| - 1].before, refs, true)
    && (|log| == |log0| + 1 ==> log[|log| - 1].before == refs0)
  }

  method TryTag(store: Store, source: string, target: string, ghost log0: seq<Op>, ghost refs0: Refs, ghost sources: iset<string>)
    returns (ok: bool)
    requires OnlyTagged(log0, refs0, store.log, store.refs, target, false)
    requires TagsFrom(log0, store.log, sources) && source in sources
    modifies store`refs, store`log
    ensures OnlyTagged(log0, refs0, store.log, store.refs, target, ok)
    ensures TagsFrom(log0, store.log, sources) && |store.log| > |log0|
    ensures |store.log| == |old(store.log)| + 1 && store.log[|old(store.log)|].ok == ok && old(store.log) <= store.log
    ensures Tried(store.log, |log0|, source) && forall src | Tried(old(store.log), |log0|, src) :: Tried(store.log, |log0|, src)
    ensures ok && (|old(store.log)| == |log0| ==> old(store.refs) == refs0) ==> TaggedOnce(log0, refs0, store.log, store.refs, target, sources)
  {
    ghost var before := store.log;
    ok := store.Tag(source, target);
    OfPrefix(before, store.log, |log0|, []);
    assert store.log[|before|].ok == ok;
  }

  /** Tags the wanted name from the first source that `ctr` accepts, in the end from the bare content. */
  method EnsureImageReference(store: Store, name: string, content: string, present: set<string>, preferred: seq<string>,
                              digests: Refs)
    returns (ok: bool)
    modifies store`refs, store`log
    ensures OnlyTagged(old(store.log), old(store.refs), store.log, store.refs, Trim(name), ok)
    ensures Trim(name) in present ==> store.log == old(store.log) && store.refs == old(store.refs)
    ensures ok && Trim(name) !in present ==> |store.log| > |old(store.log)|
    ensures TagsFrom(old(store.log), store.log, Sources(content, present, preferred, digests))
    ensures ok && Trim(name) !in present ==>
              TaggedOnce(old(store.log), old(store.refs), store.log, store.refs, Trim(name), Sources(content, present, preferred, digests))
    ensures !ok && Trim(name) != "" && Trim(name) !in present && content != "" ==>
              && Tried(store.log, |old(store.log)|, content)
              && forall src | Candidate(src, Trim(content), present, preferred, digests) && src in present && src != Trim(name) ::
                   Tried(store.log, |old(store.log)|, src)
    ensures Trim(name) != "" && Trim(name) !in present && content != "" ==>
              |store.log| > |old(store.log)| && (store.log[|old(store.log)|].ok ==> ok && |store.log| == |old(store.log)| + 1)
  {
    var desired := Trim(name);
    ghost var log0, refs0 := store.log, store.refs;
    if desired == "" { return false; }
    if desired in present {
      return !(KnownDigest(digests, desired) != "" && KnownDigest(digests, desired) != content);
    }
    if content == "" { return false; }
    var sources, head := TagCandidates(content, present, preferred, digests);
    ghost var safe := Sources(content, present, preferred, digests);
    hide OnlyTagged, TagsFrom, Candidate, TaggedOnce, LastTag, Sources, Tried;
    for i := 0 to |sources|
      invariant OnlyTagged(log0, refs0, store.log, store.refs, desired, false) && TagsFrom(log0, store.log, safe)
      invariant forall j | 0 <= j < i && sources[j] != desired && sources[j] in present :: Tried(store.log, |log0|, sources[j])
      invariant if |store.log| == |log0| then store.refs == refs0 else |store.log| > |log0| && !store.log[|log0|].ok
    {
      if sources[i] != desired && (sources[i] in present || sources[i] == content) {
        ok := TryTag(store, sources[i], desired, log0, refs0, safe);
        if ok { return true; }
      }
    }
    ok := TryTag(store, content, desired, log0, refs0, safe);
  }

  /** Both listings again; what a failing one leaves of the bookkeeping is what the run goes on with. */
  method Relist(store: Store, book: Book) returns (ok: bool, next: Book, newRefs: seq<string>)
    modifies store`listed, store`complete
    ensures (store.listed ==> old(store.listed)) && (store.complete ==> old(store.complete))
    ensures store.listed ==> ok
    ensures next.newly == book.newly + newRefs
    ensures if next.already == book.already && newRefs == [] then true
            else next.already == store.refs.Keys && forall n :: n in newRefs <==> n in store.refs && n !in book.already
    ensures ok ==> next.already == store.refs.Keys && (forall n :: n in newRefs <==> n in store.refs && n !in book.already)
    ensures ok ==> Agrees(next.digests, store.refs) && (store.complete ==> next.digests == store.refs)
  {
    next, newRefs := book, [];
    var names := store.Names();
    if names.None? { return false, next, newRefs; }
    newRefs := NewReferences(book.already, names.value);
    var digests := store.Digests();
    next := Book(names.value, if digests.Some? then digests.value else map[], book.newly + newRefs);
    ok := digests.Some?;
  }

  /** One import, and the two listings after it. */
  method ImportArchive(store: Store, img: Image, book: Book, ghost base: set<string>, ghost from: nat)
    returns (ok: bool, next: Book, newRefs: seq<string>)
    requires Kept(base, from, store, book)
    modifies store`refs, store`log, store`listed, store`complete
    ensures Kept(base, from, store, next)
    ensures |store.log| == |old(store.log)| + 1 && old(store.log) <= store.log
    ensures store.log[|old(store.log)|] == Imported(img, old(store.refs), store.refs, store.log[|old(store.log)|].ok)
    ensures old(store.refs).Keys <= store.refs.Keys && (store.listed ==> old(store.listed)) && (store.complete ==> old(store.complete))
    ensures ok ==> next.already == store.refs.Keys && Agrees(next.digests, store.refs)
    ensures ok && store.complete ==> next.digests == store.refs
    ensures !ok && store.listed ==> next == book
    ensures store.listed && store.log[|old(store.log)|].ok ==> ok
    ensures ok ==> forall n | n in store.refs && n !in book.already :: n in next.newly
    ensures forall n | n in book.newly :: n in next.newly
  {
    ghost var log0 := store.log;
    next, newRefs := book, [];
    ok := store.Import(img);
    OfPrefix(log0, store.log, from, []);
    assert store.log[|log0|].ok == ok;
    if !ok { return; }
    ok, next, newRefs := Relist(store, book);
  }

  /** A safe source, listed with its digest or named by it, gives the wanted name the wanted content. */
  lemma SmoothTagBinds(log0: seq<Op>, refs0: Refs, log: seq<Op>, refs: Refs, img: Image, content: string, present: set<string>,
                       preferred: seq<string>, digests: Refs)
    requires TaggedOnce(log0, refs0, log, refs, Trim(img.name), Sources(content, present, preferred, digests))
    requires Smooth(log, |log0|, [img]) && content == Content(img) && content != "" && img.name == Trim(img.name)
    requires log[|log0|].ok ==> |log| == |log0| + 1
    requires present == refs0.Keys && digests == refs0
    ensures img.name in refs && refs[img.name] == content
  {
    assert SmoothOp(log[|log0|], [img]);
    var op := log[|log| - 1];
    assert SmoothOp(op, [img]) && op.before == refs0;
    assert Trim(content) == content by { if img.archive.index.OCI? { TrimIdempotent(img.archive.index.manifestDigest); } }
    assert [img][0] == img;
    if op.source == content {
      assert Qualified(op.source, content);
    } else {
      CandidatesAreSafe(op.source, content, present, preferred, digests);
    }
    hide Acceptable;
  }

  /** Without the wanted name after the import: tag it, list again, and believe only the listed digest. */
  method TagImported(store: Store, img: Image, content: string, newRefs: seq<string>, book: Book,
                     ghost base: set<string>, ghost from: nat)
    returns (ok: bool, next: Book)
    requires Kept(base, from, store, book)
    requires book.already == store.refs.Keys && img.name !in store.refs && content != ""
    modifies store`refs, store`log, store`listed, store`complete
    ensures Kept(base, from, store, next)
    ensures exists tagged :: OnlyTagged(old(store.log), old(store.refs), store.log, store.refs, Trim(img.name), tagged)
    ensures forall n | n in old(store.refs) :: n in store.refs && store.refs[n] == old(store.refs)[n]
    ensures ok ==> img.name in next.newly && (store.complete ==> next.digests == store.refs)
    ensures forall n | n in book.newly :: n in next.newly
    ensures ok ==> InSync(store.refs, next)
    ensures ok ==> img.name == Trim(img.name) && img.name in store.refs && store.refs[img.name] == content
    ensures (store.listed ==> old(store.listed)) && (store.complete ==> old(store.complete))
    ensures (&& store.listed && store.complete && Smooth(store.log, |old(store.log)|, [img]) && book.digests == old(store.refs)
             && content == Content(img) && img.name == Trim(img.name) && img.name != "") ==> ok
  {
    next := book;
    ghost var log0, refs0 := store.log, store.refs;
    ok := EnsureImageReference(store, img.name, content, book.already, newRefs, book.digests);
    if ok && Smooth(store.log, |log0|, [img]) && book.digests == refs0 && content == Content(img) && img.name == Trim(img.name) {
      SmoothTagBinds(log0, refs0, store.log, store.refs, img, content, book.already, newRefs, book.digests);
    }
    OfPrefix(log0, store.log, from, []);
    assert FailuresAddNothing(store.log, from) ==> FailuresAddNothing(store.log, |log0|);
    if !ok { return; }
    var more;
    ok, next, more := Relist(store, book);
    ok := ok && (if img.name in next.digests then next.digests[img.name] else "") == content && img.name in next.already;
  }

  /** An honest import leaves every listed binding as it is. */
  lemma HonestImportKeepsBound(op: Op, images: seq<Image>, i: nat)
    requires op.Imported? && HonestOp(op, images) && i < |images| && Bound(images[i], op.before)
    ensures Bound(images[i], op.after)
  {
    hide ReferenceFits;
    if images[i].requireReference { assert images[i].name in op.after.Keys; }
  }

  /** A name that the import created is bound to the archive's manifest. */
  lemma HonestImportBinds(op: Op, images: seq<Image>)
    requires op.Imported? && HonestOp(op, images) && ReferenceFits(op.image)
    requires op.image.name !in op.before && op.image.name in op.after
    ensures Bound(op.image, op.after)
  {
    hide ReferenceFits;
    assert Rebound(op.image.name, op.before, op.after);
  }

  /** The image's reference is there, but listed with other content than its archive's, or with none. */
  predicate Removes(img: Image, book: Book) {
    && img.requireReference && Content(img) != "" && img.name in book.already
    && !(img.name in book.digests && book.digests[img.name] == Content(img))
  }

  /** An image's turn, as far as the rollback list is concerned: only a stale reference is removed, and then it is listed. */
  ghost predicate ExactTurn(img: Image, book: Book, log: seq<Op>, refs: Refs, book': Book, log': seq<Op>, refs': Refs, complete: bool) {
    && log <= log'
    && (forall n | n in book.newly :: n in book'.newly)
    && RemovedNames(log', |log|) == (if Removes(img, book) then {img.name} else {})
    && (Removes(img, book) ==> img.name in book'.newly)
    && (NoRebind(log', |log|) ==> forall n | n in refs && n !in RemovedNames(log', |log|) :: n in refs' && refs'[n] == refs[n])
    && (complete && book.digests == refs ==> book'.digests == refs')
  }

  /** Verify, drop a stale reference, import, and see that the wanted reference is there. */
  method PreloadImage(store: Store, img: Image, book: Book, ghost images: seq<Image>, ghost base: set<string>, ghost from: nat)
    returns (ok: bool, next: Book)
    requires Kept(base, from, store, book)
    modifies store
    ensures Kept(base, from, store, next)
    ensures old(store.log) <= store.log
    ensures (store.listed ==> old(store.listed)) && (store.complete ==> old(store.complete))
    ensures ok && InSync(old(store.refs), book) ==> InSync(store.refs, next)
    ensures ok && InSync(old(store.refs), book) && Honest(store.log, |old(store.log)|, images) ==> Bound(img, store.refs)
    ensures ok && InSync(old(store.refs), book) && Honest(store.log, |old(store.log)|, images) ==>
              forall i | 0 <= i < |images| && images[i].name != img.name && Bound(images[i], old(store.refs)) :: Bound(images[i], store.refs)
    ensures img.name in book.already && (!img.requireReference || Content(img) == "") ==> store.refs == old(store.refs)
    ensures img.requireReference && SeenBound(img, book) ==> store.log == old(store.log) && store.refs == old(store.refs) && next == book
    ensures !img.requireReference ==> if store.log == old(store.log) then store.refs == old(store.refs) else
              && |store.log| == |old(store.log)| + 1
              && store.log[|old(store.log)|].before == old(store.refs) && store.log[|old(store.log)|].after == store.refs
    ensures !img.requireReference ==>
              forall k | |old(store.log)| <= k < |store.log| :: store.log[k].Imported? && store.log[k].image == img
    ensures !img.requireReference && store.listed && store.complete ==>
              next == book || (next.already == store.refs.Keys && next.digests == store.refs)
    ensures ok ==> ExactTurn(img, book, old(store.log), old(store.refs), next, store.log, store.refs, store.complete)
    ensures (store.readable ==> old(store.readable)) && (ok ==> SoundArchive(img))
    ensures (store.listed && store.complete && store.readable && Smooth(store.log, |old(store.log)|, [img])
             && SoundArchive(img) && TrimmedName(img)) ==> ok
    ensures !SoundArchive(img) ==> store.log == old(store.log) && store.refs == old(store.refs) && next == book
    ensures OpsOf(store.log, |old(store.log)|, img)
  {
    next := book;
    hide ReferenceFits, ExactTurn, NoRebind, SmoothOp, Kept, Smooth, RemovedNames, HonestOp, Content, SoundArchive;
    ghost var log0, refs0 := store.log, store.refs;
    var content := CheckArchive(store, img);
    if content.None? { return false, next; }
    KnownIsBound(img, book, refs0);
    if img.name in book.already {
      var existing := if img.name in book.digests then book.digests[img.name] else "";
      if !img.requireReference || content.value == "" || existing == content.value {
        NoTurn(img, book, log0, refs0, store.complete);
        return true, next;
      }
      ok := RemoveStale(store, img.name, book, base, from);
      if Smooth(store.log, |log0|, [img]) { RemovalIsSmooth(store.log, |log0|, img); }
      if !ok { return; }
      next := book.(already := book.already - {img.name}, digests := book.digests - {img.name});
    }
    ghost var log1, refs1 := store.log, store.refs;
    ok, next := ImportAndBind(store, img, content.value, next, images, base, from);
    if Smooth(store.log, |log0|, [img]) { SmoothParts(log1, store.log, |log0|, [img]); }
    OpsJoin(log1, store.log, |log0|, img);
    if ok { FullTurn(img, book, log0, refs0, log1, refs1, next, store.log, store.refs, store.complete); }
  }

  lemma KnownIsBound(img: Image, book: Book, refs: Refs)
    requires SoundArchive(img)
    ensures img.requireReference ==> ReferenceFits(img)
    ensures InSync(refs, book) && img.name in book.already
            && (!img.requireReference || Content(img) == "" || (img.name in book.digests && book.digests[img.name] == Content(img))) ==>
              Bound(img, refs)
  {
    hide ReferenceFits;
  }

  lemma RemovalIsSmooth(log: seq<Op>, from: nat, img: Image)
    requires Smooth(log, from, [img]) && from < |log|
    ensures log[from].ok
  {
    assert SmoothOp(log[from], [img]);
  }

  lemma NoTurn(img: Image, book: Book, log: seq<Op>, refs: Refs, complete: bool)
    requires !Removes(img, book)
    ensures ExactTurn(img, book, log, refs, book, log, refs, complete)
  {
  }

  lemma FullTurn(img: Image, book: Book, log0: seq<Op>, refs0: Refs, log1: seq<Op>, refs1: Refs, next: Book, log: seq<Op>, refs: Refs,
                 complete: bool)
    requires if Removes(img, book) then log1 == log0 + [Removed(img.name, refs0, refs1, true)] && refs1 == refs0 - {img.name}
             else log1 == log0 && refs1 == refs0
    requires log1 <= log && forall k | |log1| <= k < |log| :: !log[k].Removed?
    requires forall n | n in book.newly :: n in next.newly
    requires Removes(img, book) ==> img.name in next.newly
    requires NoRebind(log, |log1|) ==> forall n | n in refs1 :: n in refs && refs[n] == refs1[n]
    requires complete ==> next.digests == refs
    ensures ExactTurn(img, book, log0, refs0, next, log, refs, complete)
  {
    hide Removes;
    if Removes(img, book) { assert log[|log0|] == log1[|log0|] && log[|log0|].Removed?; }
    if NoRebind(log, |log0|) { LaterNoRebind(log, |log0|, |log1|); }
    assert RemovedNames(log, |log0|) == if Removes(img, book) then {img.name} else {};
  }

  /** A required reference is written as the store will list it. */
  predicate TrimmedName(img: Image) { img.requireReference ==> img.name != "" && img.name == Trim(img.name) }

  lemma ImportDelivers(log: seq<Op>, from: nat, img: Image)
    requires Smooth(log, from, [img]) && from < |log| && log[from].Imported? && log[from].image == img
    ensures log[from].ok && (img.requireReference && Content(img) == "" ==> img.name in log[from].after)
  {
    assert SmoothOp(log[from], [img]);
  }

  /** A call that is made for this image: its import, the removal of its required reference, or a tag of it. */
  predicate OpOf(op: Op, img: Image) {
    match op
    case Imported(image, _, _, _) => image == img
    case Removed(name, _, _, _) => img.requireReference && name == img.name
    case Tagged(_, target, _, _, _) => img.requireReference && target == Trim(img.name)
  }

  predicate OpsOf(log: seq<Op>, from: nat, img: Image) { forall k | from <= k < |log| :: OpOf(log[k], img) }

  lemma OpsJoin(shorter: seq<Op>, log: seq<Op>, from: nat, img: Image)
    requires shorter <= log && OpsOf(shorter, from, img) && OpsOf(log, |shorter|, img)
    ensures OpsOf(log, from, img)
  {
  }

  /** Import an image that the run does not know to be there, and tag what is still missing. */
  method ImportAndBind(store: Store, img: Image, content: string, book: Book, ghost images: seq<Image>, ghost base: set<string>, ghost from: nat)
    returns (ok: bool, next: Book)
    requires Kept(base, from, store, book) && content == Content(img) && (img.requireReference ==> ReferenceFits(img))
    modifies store`refs, store`log, store`listed, store`complete
    ensures Kept(base, from, store, next) && old(store.log) < store.log
    ensures (store.listed ==> old(store.listed)) && (store.complete ==> old(store.complete))
    ensures ok ==> InSync(store.refs, next)
    ensures ok && img.requireReference && img.name !in book.already ==> img.name in next.newly
    ensures ok && store.complete ==> next.digests == store.refs
    ensures forall n | n in book.newly :: n in next.newly
    ensures forall k | |old(store.log)| <= k < |store.log| :: !store.log[k].Removed?
    ensures NoRebind(store.log, |old(store.log)|) ==> forall n | n in old(store.refs) :: n in store.refs && store.refs[n] == old(store.refs)[n]
    ensures ok && Honest(store.log, |old(store.log)|, images) ==>
              && (img.name !in old(store.refs) ==> Bound(img, store.refs))
              && forall i | 0 <= i < |images| && images[i].name != img.name && Bound(images[i], old(store.refs)) :: Bound(images[i], store.refs)
    ensures !img.requireReference ==>
              && |store.log| == |old(store.log)| + 1
              && store.log[|old(store.log)|] == Imported(img, old(store.refs), store.refs, store.log[|old(store.log)|].ok)
              && (store.listed && store.complete ==> next == book || (next.already == store.refs.Keys && next.digests == store.refs))
    ensures store.listed && store.complete && Smooth(store.log, |old(store.log)|, [img]) && TrimmedName(img) ==> ok
    ensures OpsOf(store.log, |old(store.log)|, img)
  {
    hide ReferenceFits, SmoothOp, Bound, HonestOp, Honest, Smooth, Kept, NoRebind, OpsOf, OnlyTagged, Content;
    ghost var log0, refs0 := store.log, store.refs;
    var newRefs;
    ok, next, newRefs := ImportArchive(store, img, book, base, from);
    ghost var refs1, op, log1 := store.refs, store.log[|log0|], store.log;
    ImportTurn(img, images, log0, refs0, log1, refs1, log1, refs1, false);
    if Smooth(log1, |log0|, [img]) { ImportDelivers(log1, |log0|, img); }
    if ok && img.requireReference && img.name !in next.already {
      if content == "" { return false, next; }
      ok, next := TagImported(store, img, content, newRefs, next, base, from);
      ghost var tagged :| OnlyTagged(log1, refs1, store.log, store.refs, Trim(img.name), tagged);
      ImportTurn(img, images, log0, refs0, log1, refs1, store.log, store.refs, tagged);
      if Smooth(store.log, |log0|, [img]) { SmoothParts(log1, store.log, |log0|, [img]); }
    }
    if ok && Honest(store.log, |log0|, images) { HonestTurn(op, images, store.refs); }
  }

  /** One import, and then perhaps tags of the wanted name. */
  lemma ImportTurn(img: Image, images: seq<Image>, log0: seq<Op>, refs0: Refs, log1: seq<Op>, refs1: Refs, log: seq<Op>, refs: Refs,
                   tagged: bool)
    requires |log1| == |log0| + 1 && log0 <= log1 && log1[|log0|].Imported? && log1[|log0|].image == img
    requires log1[|log0|].before == refs0 && log1[|log0|].after == refs1
    requires (log == log1 && refs == refs1) || (img.requireReference && OnlyTagged(log1, refs1, log, refs, Trim(img.name), tagged))
    requires forall n | n in refs1 :: n in refs && refs[n] == refs1[n]
    ensures log0 < log && log[|log0|] == log1[|log0|] && OpsOf(log, |log0|, img)
    ensures forall k | |log0| <= k < |log| :: !log[k].Removed?
    ensures NoRebind(log, |log0|) ==> forall n | n in refs0 :: n in refs && refs[n] == refs0[n]
    ensures Honest(log, |log0|, images) ==> HonestOp(log1[|log0|], images)
  {
    hide HonestOp;
    assert log[|log0|] == log1[|log0|];
  }

  /** After an honest import and, if need be, a tag that was checked, the image is bound, and the others still are. */
  lemma HonestTurn(op: Op, images: seq<Image>, after: Refs)
    requires op.Imported? && HonestOp(op, images)
    requires forall n | n in op.after :: n in after && after[n] == op.after[n]
    requires op.image.requireReference ==>
               ReferenceFits(op.image) && op.image.name in after && (op.image.name in op.after || after[op.image.name] == Content(op.image))
    ensures op.image.name !in op.before ==> Bound(op.image, after)
    ensures forall i | 0 <= i < |images| && images[i].name != op.image.name && Bound(images[i], op.before) :: Bound(images[i], after)
  {
    hide ReferenceFits;
    forall i | 0 <= i < |images| && images[i].name != op.image.name && Bound(images[i], op.before) ensures Bound(images[i], after) {
      HonestImportKeepsBound(op, images, i);
    }
    if op.image.requireReference && op.image.name !in op.before && op.image.name in op.after { HonestImportBinds(op, images); }
  }

  method RemoveStale(store: Store, name: string, book: Book, ghost base: set<string>, ghost from: nat) returns (ok: bool)
    requires Kept(base, from, store, book)
    modifies store`refs, store`log
    ensures Kept(base, from, store, book)
    ensures ok ==> Kept(base, from, store, book.(already := book.already - {name}, digests := book.digests - {name}))
    ensures old(store.log) <= store.log && |store.log| == |old(store.log)| + 1
    ensures store.log[|old(store.log)|] == Removed(name, old(store.refs), store.refs, ok)
    ensures ok ==> store.refs == old(store.refs) - {name}
  {
    ghost var log0 := store.log;
    ok := store.Remove(name);
    OfPrefix(log0, store.log, from, []);
    assert store.log[|log0|].name == name;
    assert name in RemovedNames(store.log, from);
  }

  // ---- All images ------------------------------------------------------------------------------

  lemma SameImages(images: seq<Image>, ordered: seq<Image>, log: seq<Op>, from: nat, refs: Refs)
    requires forall x :: x in ordered <==> x in images
    ensures Honest(log, from, images) <==> Honest(log, from, ordered)
    ensures AllBound(images, refs) <==> AllBound(ordered, refs)
    ensures Consistent(images) <==> Consistent(ordered)
  {
    hide ReferenceFits, Bound;
    assert forall i | 0 <= i < |images| :: images[i] in ordered;
    assert forall i | 0 <= i < |ordered| :: ordered[i] in images;
  }

  /** What a run has bound so far that has met no failure but archives that are not sound. */
  ghost predicate BoundSoFar(ordered: seq<Image>, i: nat, from: nat, log: seq<Op>, refs: Refs, book: Book)
    requires i <= |ordered|
  {
    && InSync(refs, book)
    && (Honest(log, from, ordered) && Consistent(ordered) ==> forall j | 0 <= j < i && SoundArchive(ordered[j]) :: Bound(ordered[j], refs))
  }

  /** The calls were imports of images that need no exact reference, and nothing else. */
  ghost predicate Quiet(log: seq<Op>, from: nat) {
    forall k | from <= k < |log| :: log[k].Imported? && !log[k].image.requireReference
  }

  ghost predicate StillSettled(ordered: seq<Image>, from: nat, accurate: bool, log: seq<Op>, refs: Refs, book: Book) {
    accurate && Honest(log, from, ordered) ==>
      && Quiet(log, from)
      && forall j | 0 <= j < |ordered| :: Bound(ordered[j], refs) && SeenBound(ordered[j], book)
  }

  /** The next image is bound, and those before it stay bound. */
  lemma BoundNext(ordered: seq<Image>, i: nat, from: nat, log: seq<Op>, refs: Refs, book: Book,
                  log': seq<Op>, refs': Refs, book': Book)
    requires i < |ordered| && from <= |log| && log <= log'
    requires BoundSoFar(ordered, i, from, log, refs, book)
    requires InSync(refs', book')
    requires SoundArchive(ordered[i]) && (Honest(log', |log|, ordered) ==> Bound(ordered[i], refs'))
    requires Honest(log', |log|, ordered) ==>
               forall j | 0 <= j < |ordered| && ordered[j].name != ordered[i].name && Bound(ordered[j], refs) :: Bound(ordered[j], refs')
    requires ordered[i].name in refs && (!ordered[i].requireReference || Content(ordered[i]) == "") ==> refs' == refs
    ensures BoundSoFar(ordered, i + 1, from, log', refs', book')
  {
    hide ReferenceFits, SoundArchive;
    OfPrefix(log, log', from, ordered);
    if Honest(log', from, ordered) && Consistent(ordered) {
      assert Honest(log', |log|, ordered);
      forall j | 0 <= j < i && SoundArchive(ordered[j]) ensures Bound(ordered[j], refs') {
        assert Bound(ordered[j], refs);
      }
    }
  }

  /** An archive that is not sound is passed over. */
  lemma BoundSkip(ordered: seq<Image>, i: nat, from: nat, log: seq<Op>, refs: Refs, book: Book)
    requires i < |ordered| && BoundSoFar(ordered, i, from, log, refs, book) && !SoundArchive(ordered[i])
    ensures BoundSoFar(ordered, i + 1, from, log, refs, book)
  {
    hide SoundArchive, Bound;
  }

  /** A settled store is still settled after any image; one that needs its exact reference is not even touched. */
  lemma SettledNext(ordered: seq<Image>, i: nat, from: nat, accurate: bool, log: seq<Op>, refs: Refs, book: Book,
                    accurate': bool, log': seq<Op>, refs': Refs, book': Book)
    requires i < |ordered| && from <= |log| && log <= log' && (accurate' ==> accurate)
    requires StillSettled(ordered, from, accurate, log, refs, book)
    requires ordered[i].requireReference && SeenBound(ordered[i], book) ==> log' == log && refs' == refs && book' == book
    requires !ordered[i].requireReference ==>
               && (forall k | |log| <= k < |log'| :: log'[k].Imported? && log'[k].image == ordered[i])
               && (accurate' ==> book' == book || (book'.already == refs'.Keys && book'.digests == refs'))
               && (log' == log ==> refs' == refs)
               && (log' != log ==> |log'| == |log| + 1 && log'[|log|].before == refs && log'[|log|].after == refs')
    ensures StillSettled(ordered, from, accurate', log', refs', book')
  {
    hide ReferenceFits;
    OfPrefix(log, log', from, ordered);
    if accurate' && Honest(log', from, ordered) && !ordered[i].requireReference && log' != log {
      assert HonestOp(log'[|log|], ordered);
      forall j | 0 <= j < |ordered| ensures Bound(ordered[j], refs') && SeenBound(ordered[j], book') {
        assert Bound(ordered[j], refs) && SeenBound(ordered[j], book);
        HonestImportKeepsBound(log'[|log|], ordered, j);
      }
    }
  }

  /** A name that a required image finds bound to other content than its archive's. */
  ghost predicate StaleName(images: seq<Image>, refs: Refs, n: string) {
    exists i | 0 <= i < |images| :: IsStale(images[i], refs) && images[i].name == n
  }

  predicate IsStale(img: Image, refs: Refs) {
    img.requireReference && Content(img) != "" && img.name in refs && refs[img.name] != Content(img)
  }

  /** What a run without failure has removed and listed so far, of the references `refs0` that it found. */
  ghost predicate ListSoFar(ordered: seq<Image>, i: nat, refs0: Refs, from: nat, complete: bool, log: seq<Op>, refs: Refs, book: Book)
    requires i <= |ordered|
  {
    && InSync(refs, book) && (complete ==> book.digests == refs)
    && (forall n | n in RemovedNames(log, from) :: n in book.newly)
    && (NoRebind(log, from) ==>
          && (forall n | n in refs0 && n !in RemovedNames(log, from) :: n in refs && refs[n] == refs0[n])
          && (complete ==> forall n | n in RemovedNames(log, from) && n in refs0 :: StaleName(ordered, refs0, n))
          && (forall j | 0 <= j < i && IsStale(ordered[j], refs0) :: ordered[j].name in RemovedNames(log, from)))
  }

  lemma ListNext(ordered: seq<Image>, i: nat, refs0: Refs, from: nat, complete: bool, log: seq<Op>, refs: Refs, book: Book,
                 complete': bool, log': seq<Op>, refs': Refs, book': Book)
    requires i < |ordered| && from <= |log| && log <= log' && (complete' ==> complete)
    requires ListSoFar(ordered, i, refs0, from, complete, log, refs, book) && InSync(refs', book')
    requires ExactTurn(ordered[i], book, log, refs, book', log', refs', complete')
    ensures ListSoFar(ordered, i + 1, refs0, from, complete', log', refs', book')
  {
    hide StaleName, Content, RemovedNames, NoRebind;
    OfPrefix(log, log', from, ordered);
    if NoRebind(log', from) {
      assert NoRebind(log', |log|) by { LaterNoRebind(log', from, |log|); }
      if complete' && Removes(ordered[i], book) && ordered[i].name !in RemovedNames(log, from) && ordered[i].name in refs0 {
        assert IsStale(ordered[i], refs0);
        StaleAt(ordered, i, refs0);
      }
    }
  }

  lemma LaterNoRebind(log: seq<Op>, from: nat, later: nat)
    requires NoRebind(log, from) && from <= later
    ensures NoRebind(log, later)
  {
  }

  lemma StaleAt(images: seq<Image>, i: nat, refs: Refs)
    requires i < |images| && IsStale(images[i], refs)
    ensures StaleName(images, refs, images[i].name)
  {
  }

  predicate AllTrimmed(images: seq<Image>) { forall i | 0 <= i < |images| :: TrimmedName(images[i]) }

  /** The release is one that can be preloaded: every archive is sound, every required reference is written as it is listed. */
  predicate Preloadable(images: seq<Image>) { AllTrimmed(images) && forall i | 0 <= i < |images| :: SoundArchive(images[i]) }

  /** Since `from` no call has failed or said anything but the truth. */
  ghost predicate Smoothly(store: Store, from: nat, images: seq<Image>)
    reads store
  {
    store.listed && store.complete && store.readable && Smooth(store.log, from, images)
  }

  lemma SmoothSame(images: seq<Image>, ordered: seq<Image>, log: seq<Op>, from: nat)
    requires (forall x :: x in ordered <==> x in images) && Smooth(log, from, images)
    ensures Smooth(log, from, ordered)
  {
    hide Content, Qualified;
    assert forall i | 0 <= i < |ordered| :: ordered[i] in images;
    forall k | from <= k < |log| ensures SmoothOp(log[k], ordered) { assert SmoothOp(log[k], images); }
  }

  lemma PreloadableSame(images: seq<Image>, ordered: seq<Image>)
    requires forall x :: x in ordered <==> x in images
    ensures Preloadable(images) <==> Preloadable(ordered)
  {
    hide SoundArchive, TrimmedName;
    assert forall i | 0 <= i < |ordered| :: ordered[i] in images;
    assert forall i | 0 <= i < |images| :: images[i] in ordered;
  }

  /** Every call is made for an image of the release, and for none whose archive has not been found sound. */
  ghost predicate ProperOps(log: seq<Op>, from: nat, images: seq<Image>) {
    forall k | from <= k < |log| :: ProperOp(log[k], images)
  }

  ghost predicate ProperOp(op: Op, images: seq<Image>) {
    exists i | 0 <= i < |images| :: SoundArchive(images[i]) && OpOf(op, images[i])
  }

  lemma ProperNext(log: seq<Op>, log': seq<Op>, from: nat, images: seq<Image>, i: nat)
    requires i < |images| && log <= log' && from <= |log| && ProperOps(log, from, images)
    requires OpsOf(log', |log|, images[i]) && (log' != log ==> SoundArchive(images[i]))
    ensures ProperOps(log', from, images)
  {
    hide SoundArchive, OpOf;
    forall k | from <= k < |log'| ensures ProperOp(log'[k], images) {
      if k < |log| { assert ProperOp(log[k], images); } else { assert SoundArchive(images[i]) && OpOf(log'[k], images[i]); }
    }
  }

  lemma ProperSame(images: seq<Image>, ordered: seq<Image>, log: seq<Op>, from: nat)
    requires (forall x :: x in ordered <==> x in images) && ProperOps(log, from, ordered)
    ensures ProperOps(log, from, images)
  {
    hide SoundArchive, OpOf;
    forall k | from <= k < |log| ensures ProperOp(log[k], images) {
      assert ProperOp(log[k], ordered);
      var i :| 0 <= i < |ordered| && SoundArchive(ordered[i]) && OpOf(log[k], ordered[i]);
      assert ordered[i] in images;
    }
  }

  method PreloadNext(store: Store, ordered: seq<Image>, i: nat, book: Book, okSoFar: bool, ghost settled: bool,
                     ghost refs0: Refs, ghost base: set<string>, ghost from: nat)
    returns (ok: bool, next: Book)
    requires i < |ordered| && Kept(base, from, store, book)
    requires okSoFar ==> ListSoFar(ordered, i, refs0, from, store.complete, store.log, store.refs, book)
    requires okSoFar || (Smoothly(store, from, ordered) && AllTrimmed(ordered)) ==> BoundSoFar(ordered, i, from, store.log, store.refs, book)
    requires settled ==> StillSettled(ordered, from, store.listed && store.complete, store.log, store.refs, book)
    requires Smoothly(store, from, ordered) && Preloadable(ordered) ==> okSoFar
    modifies store
    ensures Kept(base, from, store, next) && old(store.log) <= store.log
    ensures Smoothly(store, from, ordered) && Preloadable(ordered) ==> ok
    ensures ok ==> okSoFar && SoundArchive(ordered[i])
    requires ProperOps(store.log, from, ordered)
    ensures ProperOps(store.log, from, ordered)
    ensures ok || (Smoothly(store, from, ordered) && AllTrimmed(ordered)) ==>
              BoundSoFar(ordered, i + 1, from, store.log, store.refs, next)
    ensures ok ==> ListSoFar(ordered, i + 1, refs0, from, store.complete, store.log, store.refs, next)
    ensures settled ==> StillSettled(ordered, from, store.listed && store.complete, store.log, store.refs, next)
  {
    hide Kept, BoundSoFar, StillSettled, ListSoFar, ExactTurn, Bound, SeenBound, Honest, Smooth, SoundArchive, TrimmedName, OpsOf, ProperOps;
    ghost var log0, refs1, accurate, complete := store.log, store.refs, store.listed && store.complete, store.complete;
    assert from <= |log0| by { KeptBounds(base, from, store, book); }
    ok, next := PreloadImage(store, ordered[i], book, ordered, base, from);
    if Smooth(store.log, from, ordered) {
      SmoothParts(log0, store.log, from, ordered);
      SmoothForOne(store.log, |log0|, ordered, i);
    }
    ProperNext(log0, store.log, from, ordered, i);
    if (ok && okSoFar) || (Smoothly(store, from, ordered) && AllTrimmed(ordered)) {
      BoundSoFarInSync(ordered, i, from, log0, refs1, book);
      if ok { BoundNext(ordered, i, from, log0, refs1, book, store.log, store.refs, next); } else { BoundSkip(ordered, i, from, log0, refs1, book); }
    }
    ok := ok && okSoFar;
    if ok {
      BoundSoFarInSync(ordered, i, from, log0, refs1, book);
      ListNext(ordered, i, refs0, from, complete, log0, refs1, book, store.complete, store.log, store.refs, next);
    }
    if settled {
      SettledNext(ordered, i, from, accurate, log0, refs1, book, store.listed && store.complete, store.log, store.refs, next);
    }
  }

  lemma KeptBounds(base: set<string>, from: nat, store: Store, book: Book)
    requires Kept(base, from, store, book)
    ensures from <= |store.log|
  {
  }

  lemma BoundSoFarInSync(ordered: seq<Image>, i: nat, from: nat, log: seq<Op>, refs: Refs, book: Book)
    requires i <= |ordered| && BoundSoFar(ordered, i, from, log, refs, book)
    ensures InSync(refs, book)
  {
  }

  lemma ListIsExact(images: seq<Image>, ordered: seq<Image>, refs0: Refs, from: nat, log: seq<Op>, refs: Refs, book: Book)
    requires ListSoFar(ordered, |ordered|, refs0, from, true, log, refs, book) && NoRebind(log, from)
    requires (forall x :: x in ordered <==> x in images) && Accounted(refs0.Keys, refs, book, RemovedNames(log, from))
    ensures forall n | n in refs0 :: n in book.newly <==> StaleName(images, refs0, n)
  {
    hide IsStale, RemovedNames, NoRebind;
    forall n | n in refs0 ensures n in book.newly <==> StaleName(images, refs0, n) {
      StaleSame(images, ordered, refs0, n);
    }
  }

  lemma StaleSame(images: seq<Image>, ordered: seq<Image>, refs: Refs, n: string)
    requires forall x :: x in ordered <==> x in images
    ensures StaleName(images, refs, n) <==> StaleName(ordered, refs, n)
  {
    hide IsStale;
    assert forall i | 0 <= i < |images| :: images[i] in ordered;
    assert forall i | 0 <= i < |ordered| :: ordered[i] in images;
  }

  lemma AllSound(images: seq<Image>, ordered: seq<Image>, ok: bool)
    requires forall x :: x in ordered <==> x in images
    requires ok ==> forall j | 0 <= j < |ordered| :: SoundArchive(ordered[j])
    ensures ok ==> forall i | 0 <= i < |images| :: SoundArchive(images[i])
    ensures forall i | 0 <= i < |images| && SoundArchive(images[i]) ::
              && images[i].archive.fileDigest == images[i].expectedDigest && !images[i].archive.index.BadIndex?
              && (images[i].requireReference ==> ReferenceFits(images[i]))
  {
    hide ReferenceFits;
    assert forall i | 0 <= i < |images| :: images[i] in ordered;
  }

  lemma SmoothlySame(store: Store, images: seq<Image>, ordered: seq<Image>, from: nat)
    requires forall x :: x in ordered <==> x in images
    ensures Smoothly(store, from, images) ==> Smoothly(store, from, ordered)
    ensures Preloadable(images) <==> Preloadable(ordered)
  {
    PreloadableSame(images, ordered);
    if Smoothly(store, from, images) { SmoothSame(images, ordered, store.log, from); }
  }

  /** The loop over the ordered images; a failure does not stop it. */
  method PreloadEach(store: Store, ordered: seq<Image>, first: Book, ghost settled: bool, ghost refs0: Refs, ghost base: set<string>,
                     ghost from: nat)
    returns (ok: bool, book: Book)
    requires from == |store.log| && Kept(base, from, store, first)
    requires BoundSoFar(ordered, 0, from, store.log, store.refs, first)
    requires ListSoFar(ordered, 0, refs0, from, store.complete, store.log, store.refs, first)
    requires settled ==> StillSettled(ordered, from, store.listed && store.complete, store.log, store.refs, first)
    modifies store
    ensures old(store.log) <= store.log && Kept(base, from, store, book)
    ensures ok ==> forall j | 0 <= j < |ordered| :: SoundArchive(ordered[j])
    ensures ProperOps(store.log, from, ordered)
    ensures Smoothly(store, from, ordered) && Preloadable(ordered) ==> ok
    ensures ok || (Smoothly(store, from, ordered) && AllTrimmed(ordered)) ==>
              BoundSoFar(ordered, |ordered|, from, store.log, store.refs, book)
    ensures ok ==> ListSoFar(ordered, |ordered|, refs0, from, store.complete, store.log, store.refs, book)
    ensures settled ==> StillSettled(ordered, from, store.listed && store.complete, store.log, store.refs, book)
  {
    hide *;
    ok, book := true, first;
    NoOps(store.log, ordered);
    for i := 0 to |ordered|
      invariant old(store.log) <= store.log && Kept(base, from, store, book)
      invariant ok ==> forall j | 0 <= j < i :: SoundArchive(ordered[j])
      invariant ProperOps(store.log, from, ordered)
      invariant Smoothly(store, from, ordered) && Preloadable(ordered) ==> ok
      invariant ok || (Smoothly(store, from, ordered) && AllTrimmed(ordered)) ==> BoundSoFar(ordered, i, from, store.log, store.refs, book)
      invariant ok ==> ListSoFar(ordered, i, refs0, from, store.complete, store.log, store.refs, book)
      invariant settled ==> StillSettled(ordered, from, store.listed && store.complete, store.log, store.refs, book)
    {
      ok, book := PreloadNext(store, ordered, i, book, ok, settled, refs0, base, from);
    }
  }

  lemma NoOps(log: seq<Op>, images: seq<Image>)
    ensures ProperOps(log, |log|, images)
  {
  }

  lemma KeptAccounts(base: set<string>, from: nat, store: Store, book: Book)
    requires Kept(base, from, store, book)
    ensures store.listed && FailuresAddNothing(store.log, from) ==> forall n | n in store.refs :: n in base || n in book.newly
    ensures Accounted(base, store.refs, book, RemovedNames(store.log, from))
  {
  }

  lemma BoundAtEnd(ordered: seq<Image>, from: nat, log: seq<Op>, refs: Refs, book: Book, ok: bool)
    requires ok ==> BoundSoFar(ordered, |ordered|, from, log, refs, book) && forall j | 0 <= j < |ordered| :: SoundArchive(ordered[j])
    ensures ok && Honest(log, from, ordered) ==> (AllBound(ordered, refs) <==> Consistent(ordered))
  {
    hide ReferenceFits, SoundArchive;
  }

  /** What the run has done for the sound archives, whatever was wrong with others. */
  lemma SoundAtEnd(store: Store, images: seq<Image>, ordered: seq<Image>, from: nat, book: Book)
    requires forall x :: x in ordered <==> x in images
    requires Smoothly(store, from, ordered) && AllTrimmed(ordered) ==>
               BoundSoFar(ordered, |ordered|, from, store.log, store.refs, book)
    ensures Smoothly(store, from, images) && AllTrimmed(images) && Consistent(images) ==>
              forall i | 0 <= i < |images| && SoundArchive(images[i]) :: Bound(images[i], store.refs)
  {
    SmoothlySame(store, images, ordered, from);
    SameImages(images, ordered, store.log, from, store.refs);
    hide SoundArchive, TrimmedName, Bound, HonestOp, Consistent;
    assert forall i | 0 <= i < |ordered| :: ordered[i] in images;
    assert forall i | 0 <= i < |images| :: images[i] in ordered;
    if Smoothly(store, from, ordered) {
      forall k | from <= k < |store.log| ensures HonestOp(store.log[k], ordered) { assert SmoothOp(store.log[k], ordered); }
    }
  }

  lemma SettledAtEnd(ordered: seq<Image>, from: nat, store: Store, book: Book, settled: bool)
    requires settled ==> StillSettled(ordered, from, store.listed && store.complete, store.log, store.refs, book)
    ensures settled && store.listed && store.complete && Honest(store.log, from, ordered) ==> Quiet(store.log, from)
  {
  }

  lemma FirstBook(store: Store, ordered: seq<Image>, book: Book)
    requires InSync(store.refs, book) && book.newly == [] && (store.complete ==> book.digests == store.refs)
    ensures Kept(store.refs.Keys, |store.log|, store, book)
    ensures BoundSoFar(ordered, 0, |store.log|, store.log, store.refs, book)
    ensures ListSoFar(ordered, 0, store.refs, |store.log|, store.complete, store.log, store.refs, book)
    ensures AllBound(ordered, store.refs) ==>
              StillSettled(ordered, |store.log|, store.listed && store.complete, store.log, store.refs, book)
  {
    hide ReferenceFits;
  }

  method PreloadAll(store: Store, images: seq<Image>) returns (ok: bool, newly: seq<string>)
    modifies store
    ensures old(store.log) <= store.log
    ensures ok && Honest(store.log, |old(store.log)|, images) ==> (AllBound(images, store.refs) <==> Consistent(images))
    ensures store.listed && FailuresAddNothing(store.log, |old(store.log)|) ==>
              forall n | n in store.refs :: n in old(store.refs) || n in newly
    ensures forall n | n in newly && n in old(store.refs) :: n in RemovedNames(store.log, |old(store.log)|)
    ensures forall n | n in old(store.refs) && n !in store.refs :: n in RemovedNames(store.log, |old(store.log)|)
    ensures ok && store.complete && NoRebind(store.log, |old(store.log)|) ==>
              forall n | n in old(store.refs) :: n in newly <==> StaleName(images, old(store.refs), n)
    ensures AllBound(images, old(store.refs)) && store.listed && store.complete && Honest(store.log, |old(store.log)|, images) ==>
              Quiet(store.log, |old(store.log)|)
    ensures ok ==> forall i | 0 <= i < |images| ::
              && images[i].archive.fileDigest == images[i].expectedDigest && !images[i].archive.index.BadIndex?
              && (images[i].requireReference ==> ReferenceFits(images[i]))
    ensures Smoothly(store, |old(store.log)|, images) && Preloadable(images) ==> ok
    ensures ProperOps(store.log, |old(store.log)|, images)
    ensures Smoothly(store, |old(store.log)|, images) && AllTrimmed(images) && Consistent(images) ==>
              forall i | 0 <= i < |images| && SoundArchive(images[i]) :: Bound(images[i], store.refs)
  {
    hide Kept, BoundSoFar, ListSoFar, StillSettled, Preloadable, SoundArchive, AllBound, Consistent, Honest, StaleName, NoRebind,
         Quiet, ReferenceFits, Bound, RemovedNames;
    ghost var from, refs0, base := |store.log|, store.refs, store.refs.Keys;
    newly := [];
    var names := store.Names();
    if names.None? { return false, newly; }
    var digests := store.Digests();
    if digests.None? { return false, newly; }
    hide Smoothly, ProperOps;
    var book := Book(names.value, digests.value, []);
    var ordered := Ordered(images);
    StableOrderPermutes(images, ordered);
    ghost var settled := AllBound(ordered, refs0);
    FirstBook(store, ordered, book);
    ok, book := PreloadEach(store, ordered, book, settled, refs0, base, from);
    KeptAccounts(base, from, store, book);
    BoundAtEnd(ordered, from, store.log, store.refs, book, ok);
    SoundAtEnd(store, images, ordered, from, book);
    SettledAtEnd(ordered, from, store, book, settled);
    newly := book.newly;
    SameImages(images, ordered, store.log, from, store.refs);
    SameImages(images, ordered, store.log, from, refs0);
    AllSound(images, ordered, ok);
    ProperSame(images, ordered, store.log, from);
    SmoothlySame(store, images, ordered, from);
    if ok && store.complete && NoRebind(store.log, from) { ListIsExact(images, ordered, refs0, from, store.log, store.refs, book); }
  }

  // ---- Rollback --------------------------------------------------------------------------------

  /** Removes every name, going on after a failure. */
  method Rollback(store: Store, names: seq<string>) returns (ok: bool)
    modifies store`refs, store`log
    ensures old(store.log) <= store.log && |store.log| == |old(store.log)| + |names|
    ensures forall k | |old(store.log)| <= k < |store.log| :: store.log[k].Removed? && store.log[k].name == names[k - |old(store.log)|]
    ensures store.refs.Keys <= old(store.refs).Keys && Agrees(store.refs, old(store.refs))
    ensures forall n | n in old(store.refs) && n !in names :: n in store.refs
    ensures ok <==> forall k | |old(store.log)| <= k < |store.log| :: store.log[k].ok
    ensures RemovalsWork(store.log, |old(store.log)|) ==> forall n | n in names :: n !in store.refs
  {
    ghost var from := |store.log|;
    ok := true;
    for i := 0 to |names|
      invariant old(store.log) <= store.log && |store.log| == from + i
      invariant forall k | from <= k < |store.log| :: store.log[k].Removed? && store.log[k].name == names[k - from]
      invariant store.refs.Keys <= old(store.refs).Keys && Agrees(store.refs, old(store.refs))
      invariant forall n | n in old(store.refs) && n !in names[..i] :: n in store.refs
      invariant ok <==> forall k | from <= k < |store.log| :: store.log[k].ok
      invariant RemovalsWork(store.log, from) ==> forall j | 0 <= j < i :: names[j] !in store.refs
    {
      ghost var before := store.log;
      var removed := store.Remove(names[i]);
      OfPrefix(before, store.log, from, []);
      assert store.log[from + i].ok == removed;
      assert names[..i + 1] == names[..i] + [names[i]];
      ok := ok && removed;
    }
  }

  /** Preloading as an installation step that a later failure undoes; its own failure registers nothing to undo. `later` says
      whether the rest of the installation succeeds. */
  method PreloadStep(store: Store, images: seq<Image>, later: bool) returns (preloaded: bool, undone: bool)
    modifies store
    ensures undone <==> preloaded && !later
    ensures undone && store.listed && FailuresAddNothing(store.log, |old(store.log)|) && RemovalsWork(store.log, |old(store.log)|) ==>
              store.refs.Keys <= old(store.refs).Keys
    ensures preloaded && !undone && Honest(store.log, |old(store.log)|, images) ==> (AllBound(images, store.refs) <==> Consistent(images))
  {
    var newly;
    preloaded, newly := PreloadAll(store, images);
    undone := preloaded && !later;
    if undone {
      ghost var mid := store.log;
      var removed := Rollback(store, newly);
      OfPrefix(mid, store.log, |old(store.log)|, images);
    }
  }

  /** What the result is for: whatever preloading returns, a mis-tagged and rejected reference included, removing the names
      on its list leaves no reference that was not there before. */
  method PreloadAndRollback(store: Store, images: seq<Image>) returns (preloaded: bool, newly: seq<string>, removed: bool)
    modifies store
    ensures store.listed && FailuresAddNothing(store.log, |old(store.log)|) && RemovalsWork(store.log, |old(store.log)|) ==>
              store.refs.Keys <= old(store.refs).Keys
    ensures forall n | n in old(store.refs) && n !in store.refs :: n in RemovedNames(store.log, |old(store.log)|)
  {
    preloaded, newly := PreloadAll(store, images);
    ghost var mid, refs1 := store.log, store.refs;
    removed := Rollback(store, newly);
    OfPrefix(mid, store.log, |old(store.log)|, images);
    ghost var from := |old(store.log)|;
    assert RemovalsWork(store.log, from) ==> RemovalsWork(store.log, |mid|);
    forall n | n in old(store.refs) && n !in store.refs ensures n in RemovedNames(store.log, from) {
      if n in refs1 {
        var j :| 0 <= j < |newly| && newly[j] == n;
        assert store.log[|mid| + j].Removed? && store.log[|mid| + j].name == newly[|mid| + j - |mid|];
      }
    }
  }

  const APP := Image("app", Archive("file", OCI("sha256:new", "")), "file", 1, true)

  /** An input on which the list holds an old name: one required reference, bound to other content than its archive's. */
  method StaleReferenceIsListed() returns (store: Store, preloaded: bool, newly: seq<string>)
    ensures fresh(store)
    ensures preloaded && store.complete && NoRebind(store.log, 0) ==> "app" in newly
  {
    StaleApp();
    store := new Store(map["app" := "sha256:old"]);
    ghost var refs0 := store.refs;
    preloaded, newly := PreloadAll(store, [APP]);
    assert StaleName([APP], refs0, "app");
  }

  lemma StaleApp()
    ensures Content(APP) == "sha256:new" && StaleName([APP], map["app" := "sha256:old"], "app")
  {
    TrimStable("sha256:new");
    assert IsStale([APP][0], map["app" := "sha256:old"]);
  }

  /** The calls of that run, with nothing failing and the import honest: the old name goes and comes back, rebound. */
  lemma StaleRun() returns (log: seq<Op>)
    ensures |log| == 2 && log[0] == Removed("app", map["app" := "sha256:old"], map[], true)
    ensures log[1] == Imported(APP, map[], map["app" := "sha256:new"], true)
    ensures Honest(log, 0, [APP]) && NoRebind(log, 0) && FailuresAddNothing(log, 0) && RemovalsWork(log, 0)
    ensures Smooth(log, 0, [APP]) && Preloadable([APP])
    ensures Bound(APP, log[1].after)
  {
    StaleApp();
    AppFits();
    hide ReferenceFits, Content;
    log := [Removed("app", map["app" := "sha256:old"], map[], true), Imported(APP, map[], map["app" := "sha256:new"], true)];
  }

  lemma AppFits()
    ensures ReferenceFits(APP)
  {
    TrimStable("app");
    assert DigestFromRef("app") == None;
  }

  /** A successful preload makes every digest-pinned reference of an OCI archive tell the truth. */
  lemma PinnedReferencesAreTrue(images: seq<Image>, refs: Refs, i: nat, d: string)
    requires AllBound(images, refs) && i < |images|
    requires images[i].requireReference && images[i].archive.index.OCI?
    requires Digest(d) && HasSuffix(Trim(images[i].name), "@" + d)
    ensures images[i].name in refs && refs[images[i].name] == d
  {
    var img := images[i];
    TrimIdempotent(img.name);
    PinnedDigest(Trim(img.name), d);
    assert Bound(img, refs);
  }
}
