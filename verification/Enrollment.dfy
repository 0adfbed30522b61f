/** Signed, node-bound join authorisations. Ed25519 is ideal: a signature names its key and its payload. */
module EnrollmentArtifact {
  import opened Text
  import opened ClusterTopology
  import opened Keys

  const LEGACY_VERSION := 1
  const EMBEDDED_ETCD_VERSION := 2

  const MINUTE: int := 60_000_000_000
  const HOUR: int := 60 * MINUTE

  datatype PublicKey = PublicOf(key: Key) | NoKey(text: string)

  datatype Signature = Signed(signer: Key, payload: Enrollment) | NotASignature(text: string)

  datatype Enrollment = Enrollment(
    version: int, clusterID: string, name: string, profile: string, zone: string, controlPlaneNode: string,
    role: string, topology: string, fingerprint: InventoryDigest, releaseID: string, releaseVersion: string,
    controlEndpoint: Endpoint, caHash: CADigest, expectedNode: string, token: string, tokenHash: TokenDigest,
    issuedAt: int, expiresAt: int, nonce: string, signerKey: PublicKey, signature: Signature)

  function Unsigned(e: Enrollment): Enrollment { e.(signature := NotASignature("")) }

  function SignWith(e: Enrollment, key: Key): Enrollment {
    var keyed := e.(signerKey := PublicOf(key));
    keyed.(signature := Signed(key, Unsigned(keyed)))
  }

  /** Exactly what the bearer of `key` signed, unaltered. */
  predicate GenuineUnder(e: Enrollment, key: Key) {
    e.signerKey == PublicOf(key) && e.signature == Signed(key, Unsigned(e))
  }

  predicate IsLegacy(e: Enrollment) { e.topology == "" && e.fingerprint == NotADigest("") && e.zone == "" }

  predicate HttpsURL(u: Endpoint) { u.Https? && u.host != Malformed("") }

  predicate Complete(e: Enrollment) {
    && e.clusterID != "" && e.name != "" && e.profile != "" && e.controlPlaneNode != "" && e.role != ""
    && e.releaseID != "" && e.releaseVersion != "" && e.controlEndpoint != OtherURL("") && e.caHash != OtherCA("")
    && e.expectedNode != "" && e.token != "" && e.tokenHash != OtherToken("") && e.nonce != ""
    && e.signerKey != NoKey("") && e.signature != NotASignature("")
  }

  predicate TimelyAt(e: Enrollment, now: int) {
    now < e.expiresAt && e.issuedAt <= now + 5 * MINUTE
  }

  /** Verification of an artifact against a pinned signer fingerprint. */
  predicate Verifies(e: Enrollment, now: int, expected: KeyDigest) {
    && (e.version == LEGACY_VERSION || e.version == EMBEDDED_ETCD_VERSION)
    && (e.version == LEGACY_VERSION ==> IsLegacy(e))
    && (e.version == EMBEDDED_ETCD_VERSION ==>
          e.topology == EMBEDDED_ETCD_V1 && e.role == "server" && !Blank(e.zone) && e.fingerprint.DigestOf?)
    && Complete(e)
    && TimelyAt(e, now)
    && e.expiresAt - e.issuedAt <= 24 * HOUR
    && (e.version == LEGACY_VERSION ==> e.role in {"worker", "inference", "prime"})
    && e.caHash.CADigestOf?
    && HttpsURL(e.controlEndpoint)
    && e.tokenHash == TokenDigestOf(e.token)
    && e.signerKey.PublicOf?
    && !(expected.OtherText? && Blank(expected.text))
    && KeyDigestOf(e.signerKey.key) == expected
    && e.signature.Signed?
    && GenuineUnder(e, e.signerKey.key)
  }

  /** A valid artifact was signed, as it stands, by the key whose fingerprint was pinned. */
  lemma ValidIsGenuine(e: Enrollment, now: int, expected: KeyDigest)
    requires Verifies(e, now, expected)
    ensures expected.KeyDigestOf? && GenuineUnder(e, expected.key)
    ensures forall e' | GenuineUnder(e', expected.key) && Unsigned(e') == Unsigned(e) :: e' == e
  {
  }

  /** Verification of a topology-bound artifact, in its own terms: it is for a server, complete, timely, valid for a day at most,
      vouches for its own token, and was signed as it stands by the pinned key. */
  lemma BoundVerifiesIff(e: Enrollment, now: int, expected: KeyDigest)
    requires e.version == 2
    ensures Verifies(e, now, expected) <==>
              && e.role == "server" && e.topology == "embedded-etcd-v1" && e.fingerprint.DigestOf? && !Blank(e.zone)
              && "" !in {e.clusterID, e.name, e.profile, e.controlPlaneNode, e.releaseID, e.releaseVersion, e.expectedNode, e.token, e.nonce}
              && e.issuedAt - 300_000_000_000 <= now < e.expiresAt && e.expiresAt <= e.issuedAt + 86_400_000_000_000
              && e.caHash.CADigestOf? && e.controlEndpoint.Https? && e.controlEndpoint.host != Malformed("")
              && e.tokenHash == TokenDigestOf(e.token)
              && expected.KeyDigestOf? && e.signerKey == PublicOf(expected.key)
              && e.signature == Signed(expected.key, e.(signature := NotASignature("")))
  {
    hide Blank;
  }

  /** The older artifacts carry no topology, and are for the other roles; there are no other versions. */
  lemma LegacyVerifiesOnlyIf(e: Enrollment, now: int, expected: KeyDigest)
    requires Verifies(e, now, expected) && e.version != 2
    ensures e.version == 1 && e.topology == "" && e.zone == "" && !e.fingerprint.DigestOf?
    ensures e.role == "worker" || e.role == "inference" || e.role == "prime"
    ensures e.tokenHash == TokenDigestOf(e.token) && e.issuedAt - 300_000_000_000 <= now < e.expiresAt <= e.issuedAt + 86_400_000_000_000
  {
  }

  /** The artifact under construction; signing fills in its own fields. */
  class Draft {
    var value: Enrollment

    constructor (value: Enrollment)
      ensures this.value == value
    {
      this.value := value;
    }

    /** Version 1 signing refuses a topology-bound artifact. */
    method Sign(private: Option<Key>) returns (ok: bool)
      modifies this
      ensures ok <==> IsLegacy(old(value)) && private.Some?
      ensures ok ==> value == SignWith(old(value).(version := LEGACY_VERSION), private.value)
      ensures !ok ==> Unsigned(value).(version := 0) == Unsigned(old(value)).(version := 0)
    {
      if value.topology != "" || value.fingerprint != NotADigest("") || value.zone != "" { return false; }
      value := value.(version := LEGACY_VERSION);
      ok := SignFields(private);
    }

    /** Version 2 signing binds a peer credential to an inventory. */
    method SignEmbeddedEtcd(private: Option<Key>) returns (ok: bool)
      modifies this
      ensures ok <==> && old(value).topology == EMBEDDED_ETCD_V1 && old(value).fingerprint != NotADigest("")
                      && old(value).role == "server" && private.Some?
      ensures ok ==> value == SignWith(old(value).(version := EMBEDDED_ETCD_VERSION), private.value)
      ensures !ok ==> Unsigned(value).(version := 0) == Unsigned(old(value)).(version := 0)
    {
      if value.topology != EMBEDDED_ETCD_V1 || value.fingerprint == NotADigest("") || value.role != "server" { return false; }
      value := value.(version := EMBEDDED_ETCD_VERSION);
      ok := SignFields(private);
    }

    method SignFields(private: Option<Key>) returns (ok: bool)
      modifies this
      ensures ok <==> private.Some?
      ensures ok ==> value == SignWith(old(value), private.value)
      ensures !ok ==> value == old(value)
    {
      if private.None? { return false; }
      value := value.(signerKey := PublicOf(private.value));
      value := value.(signature := Signed(private.value, Unsigned(value)));
      ok := true;
    }
  }
}
