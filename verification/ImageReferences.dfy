/** Image references, the digests they may pin, and the sources from which a missing reference may be tagged. */
module ImageReferences {
  import opened Text

  const BUNDLED_TAG := "bundled"

  predicate LowerHex(c: char) { '0' <= c <= '9' || 'a' <= c <= 'f' }

  predicate HasPrefix(s: string, prefix: string) { prefix <= s }

  predicate HasSuffix(s: string, suffix: string) { |suffix| <= |s| && s[|s| - |suffix|..] == suffix }

  /** A `sha256:` digest with 64 lower-case hexadecimal digits. */
  predicate Digest(s: string) {
    && HasPrefix(s, "sha256:") && |s| == 7 + 64
    && forall i | 7 <= i < |s| :: LowerHex(s[i])
  }

  /** `strings.LastIndex` for one character, -1 when it does not occur. */
  function LastIndex(s: string, c: char): (i: int)
    ensures -1 <= i < |s|
    ensures i >= 0 ==> s[i] == c
    ensures forall k | i < k < |s| :: s[k] != c
  {
    if s == "" then -1 else if s[|s| - 1] == c then |s| - 1 else LastIndex(s[..|s| - 1], c)
  }

  function FirstIndex(s: string, c: char): (i: int)
    ensures -1 <= i < |s|
    ensures i >= 0 ==> s[i] == c
    ensures forall k | 0 <= k < (if i < 0 then |s| else i) :: s[k] != c
  {
    if s == "" then -1 else if s[0] == c then 0
    else var i := FirstIndex(s[1..], c); if i < 0 then -1 else i + 1
  }

  function DigestFromRef(ref: string): Option<string> {
    var trimmed := Trim(ref);
    var at := LastIndex(trimmed, '@');
    if at < 0 then None
    else if Digest(trimmed[at + 1..]) then Some(trimmed[at + 1..]) else None
  }

  /** A reference pins a digest exactly when it ends in `@` and that digest. */
  lemma PinnedDigest(ref: string, d: string)
    ensures DigestFromRef(ref) == Some(d) <==> Digest(d) && HasSuffix(Trim(ref), "@" + d)
  {
    var s, at := Trim(ref), LastIndex(Trim(ref), '@');
    if Digest(d) && HasSuffix(s, "@" + d) {
      var k := |s| - |d| - 1;
      assert s[k..][0] == '@' && s[k..][1..] == d;
      assert forall i | k < i < |s| :: s[i] == d[i - k - 1];
      assert "sha256:"[0] == 's' && "sha256:"[6] == ':';
      assert forall i | 0 <= i < 7 :: d[i] == "sha256:"[i] && d[i] != '@';
      assert at == k;
    }
  }

  function LocalName(ref: string): string {
    var trimmed := Trim(ref);
    var at := FirstIndex(trimmed, '@');
    var bare := if at >= 0 then trimmed[..at] else trimmed;
    var colon := LastIndex(bare, ':');
    if colon >= 0 && '/' !in bare[colon + 1..] && '/' in bare[..colon] then bare[..colon] else bare
  }

  predicate AnnotationCompatible(annotation: string, expectedRef: string, expectedDigest: string) {
    var a, ref := Trim(annotation), Trim(expectedRef);
    var pinned := DigestFromRef(a);
    var localName := LocalName(ref);
    if a == ref then true
    else if pinned.Some? then pinned.value == expectedDigest
    else || a == localName || a == localName + ":" + BUNDLED_TAG
         || (HasPrefix(a, localName + ":") && '@' !in a)
  }

  /** A local name is the reference up to its digest, or up to the tag of a name with a path. */
  lemma LocalNameIsStart(ref: string)
    ensures var s, l, at := Trim(ref), LocalName(ref), FirstIndex(Trim(ref), '@');
            && l <= s && '@' !in l
            && (|l| == |s| || |l| == at
                || (s[|l|] == ':' && '/' in l && forall k | |l| < k < (if at < 0 then |s| else at) :: s[k] != ':' && s[k] != '/'))
  {
    var s, at := Trim(ref), FirstIndex(Trim(ref), '@');
    var bare := if at >= 0 then s[..at] else s;
    assert '@' !in bare;
    assert bare <= s;
    var colon := LastIndex(bare, ':');
    if LocalName(ref) != bare {
      assert LocalName(ref) == bare[..colon] == s[..colon];
      forall k | colon < k < |bare| ensures s[k] != ':' && s[k] != '/' {
        assert s[k] == bare[k] && bare[colon + 1..][k - colon - 1] == bare[k];
      }
    }
  }

  lemma LocalNameHasNoDigest(ref: string)
    ensures '@' !in LocalName(ref)
  {
    LocalNameIsStart(ref);
  }

  lemma TrimmedAlike(ref: string)
    ensures Trim(Trim(ref)) == Trim(ref) && LocalName(Trim(ref)) == LocalName(ref) && DigestFromRef(Trim(ref)) == DigestFromRef(ref)
  {
    TrimIdempotent(ref);
  }

  /** An annotation fits a reference that it repeats; one that pins a digest must pin the expected one; and any other must be the
      local name, with or without a tag. */
  lemma AnnotationFitsIff(annotation: string, ref: string, digest: string)
    ensures AnnotationCompatible(annotation, ref, digest) <==>
              || Trim(annotation) == Trim(ref)
              || (if DigestFromRef(annotation).Some? then DigestFromRef(annotation).value == digest
                  else || Trim(annotation) == LocalName(ref)
                       || (LocalName(ref) + ":" <= Trim(annotation) && '@' !in Trim(annotation)))
  {
    hide LocalName, DigestFromRef, Trim;
    TrimmedAlike(annotation);
    TrimmedAlike(ref);
    LocalNameHasNoDigest(ref);
    if Trim(annotation) == LocalName(ref) + ":" + BUNDLED_TAG {
      assert '@' !in BUNDLED_TAG && '@' !in ":";
    }
  }

  // ---- Sources for `ctr image tag` -------------------------------------------------------------

  /** The text itself names the wanted content. */
  predicate Qualified(ref: string, digest: string) { ref == digest || HasSuffix(ref, "@" + digest) }

  function KnownDigest(digests: map<string, string>, ref: string): string {
    if ref in digests then Trim(digests[ref]) else ""
  }

  predicate Acceptable(src: string, digest: string, digests: map<string, string>, requireKnown: bool) {
    var s, d := Trim(src), Trim(digest);
    if s == "" || d == "" then false
    else if Qualified(s, d) then true
    else if KnownDigest(digests, s) != "" then KnownDigest(digests, s) == d
    else !requireKnown
  }

  /** A source may be tried that names the wanted content, or is listed with it; one listed with other content may not, and one
      listed with none only if this import brought it. */
  lemma AcceptableIff(src: string, digest: string, digests: map<string, string>, requireKnown: bool)
    requires Trim(src) == src && Trim(digest) == digest && src != "" && digest != ""
    ensures Acceptable(src, digest, digests, requireKnown) <==>
              || src == digest || (exists prefix: string :: src == prefix + "@" + digest)
              || (src in digests && Trim(digests[src]) == digest)
              || (!requireKnown && (src in digests ==> Trim(digests[src]) == ""))
  {
    if HasSuffix(src, "@" + digest) {
      var prefix := src[..|src| - |digest| - 1];
      assert src == prefix + src[|src| - |digest| - 1..];
      assert src == prefix + "@" + digest;
    }
    if prefix: string :| src == prefix + "@" + digest {
      assert src == prefix + ("@" + digest);
      assert src[|src| - |"@" + digest|..] == "@" + digest;
    }
  }

  /** The sources the code considers safe for `digest`. */
  ghost predicate Candidate(src: string, digest: string, present: set<string>, preferred: seq<string>, digests: map<string, string>) {
    || (src == digest && Acceptable(src, digest, digests, false))
    || (exists i | 0 <= i < |preferred| :: src == Trim(preferred[i]) && Acceptable(src, digest, digests, false))
    || (exists ref | ref in present :: src == Trim(ref) && Acceptable(src, digest, digests, true))
  }

  predicate Distinct<T(==)>(s: seq<T>) { forall i, j | 0 <= i < j < |s| :: s[i] != s[j] }

  /** One candidate: blank, repeated and unacceptable references are skipped. */
  method Add(out: seq<string>, ref: string, digest: string, digests: map<string, string>, requireKnown: bool)
    returns (r: seq<string>)
    requires Distinct(out)
    ensures Distinct(r)
    ensures r == out || r == out + [Trim(ref)]
    ensures r != out ==> Acceptable(Trim(ref), digest, digests, requireKnown)
    ensures Acceptable(Trim(ref), digest, digests, requireKnown) ==> Trim(ref) in r
  {
    var trimmed := Trim(ref);
    TrimIdempotent(ref);
    if trimmed == "" || trimmed in out || !Acceptable(trimmed, digest, digests, requireKnown) { return out; }
    r := out + [trimmed];
  }

  ghost predicate Leads(src: string, digest: string, preferred: seq<string>) {
    src == digest || exists r | r in preferred :: Qualified(r, digest) && src == Trim(r)
  }

  /** Every safe source once; those of this import that name the content, then the content itself, come first. */
  method TagCandidates(contentDigest: string, present: set<string>, preferred: seq<string>, digests: map<string, string>)
    returns (out: seq<string>, ghost head: nat)
    ensures Distinct(out)
    ensures forall src :: src in out <==> Candidate(src, Trim(contentDigest), present, preferred, digests)
    ensures head <= |out| && forall s | s in out[..head] :: Leads(s, Trim(contentDigest), preferred)
    ensures Trim(contentDigest) != "" ==> Trim(contentDigest) in out[..head]
    ensures forall r | r in preferred && Qualified(r, Trim(contentDigest)) && Acceptable(Trim(r), Trim(contentDigest), digests, false) ::
              Trim(r) in out[..head]
  {
    var digest := Trim(contentDigest);
    TrimIdempotent(contentDigest);
    assert digest != "" ==> Acceptable(digest, digest, digests, false);
    assert digest == "" ==> !Acceptable(digest, digest, digests, false);
    hide Acceptable, Qualified, Trim;
    out := AddPreferred([], digest, present, preferred, digests, true);
    out := Add(out, digest, digest, digests, false);
    head := |out|;
    ghost var first := out;
    out := AddPreferred(out, digest, present, preferred, digests, false);
    out := AddPresent(out, digest, present, preferred, digests, true);
    out := AddPresent(out, digest, present, preferred, digests, false);
    assert out[..head] == first;
  }

  /** One pass over the references of this import, in their order. */
  method AddPreferred(out: seq<string>, digest: string, ghost present: set<string>, preferred: seq<string>,
                      digests: map<string, string>, onlyQualified: bool)
    returns (r: seq<string>)
    requires Distinct(out) && forall s | s in out :: Candidate(s, digest, present, preferred, digests)
    ensures Distinct(r) && out <= r && forall s | s in r :: Candidate(s, digest, present, preferred, digests)
    ensures onlyQualified && out == [] ==> forall s | s in r :: Leads(s, digest, preferred)
    ensures forall p | p in preferred && (!onlyQualified || Qualified(p, digest)) && Acceptable(Trim(p), digest, digests, false) :: Trim(p) in r
  {
    hide Acceptable, Qualified, Trim;
    r := out;
    for i := 0 to |preferred|
      invariant Distinct(r) && out <= r && forall s | s in r :: Candidate(s, digest, present, preferred, digests)
      invariant onlyQualified && out == [] ==> forall s | s in r :: Leads(s, digest, preferred)
      invariant forall j | 0 <= j < i && (!onlyQualified || Qualified(preferred[j], digest))
                           && Acceptable(Trim(preferred[j]), digest, digests, false) :: Trim(preferred[j]) in r
    {
      if !onlyQualified || Qualified(preferred[i], digest) { r := Add(r, preferred[i], digest, digests, false); }
    }
  }

  /** One pass over the present references, in no particular order. */
  method AddPresent(out: seq<string>, digest: string, present: set<string>, ghost preferred: seq<string>,
                    digests: map<string, string>, onlyQualified: bool)
    returns (r: seq<string>)
    requires Distinct(out) && forall s | s in out :: Candidate(s, digest, present, preferred, digests)
    ensures Distinct(r) && out <= r && forall s | s in r :: Candidate(s, digest, present, preferred, digests)
    ensures !onlyQualified ==> forall ref | ref in present && Acceptable(Trim(ref), digest, digests, true) :: Trim(ref) in r
  {
    hide Acceptable, Qualified, Trim;
    r := out;
    var rest := present;
    while rest != {}
      invariant rest <= present && Distinct(r) && out <= r
      invariant forall s | s in r :: Candidate(s, digest, present, preferred, digests)
      invariant !onlyQualified ==> forall ref | ref in present - rest && Acceptable(Trim(ref), digest, digests, true) :: Trim(ref) in r
      decreases |rest|
    {
      var ref :| ref in rest;
      rest := rest - {ref};
      if !onlyQualified || Qualified(ref, digest) { r := Add(r, ref, digest, digests, true); }
    }
  }

  /** No candidate is known to hold other content, unless its own text names the wanted content. */
  lemma CandidatesAreSafe(src: string, digest: string, present: set<string>, preferred: seq<string>, digests: map<string, string>)
    requires Trim(digest) == digest && Candidate(src, digest, present, preferred, digests)
    ensures src != "" && (Qualified(src, digest) || KnownDigest(digests, src) == digest
                          || (KnownDigest(digests, src) == "" && exists r | r in preferred :: src == Trim(r)))
  {
    forall r: string ensures Trim(Trim(r)) == Trim(r) { TrimIdempotent(r); }
  }
}
