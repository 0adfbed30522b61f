/** The local bootstrap receipt of an unfinished server, and the receipt of an installed appliance. */
module Receipt {
  import opened Text
  import opened ClusterTopology
  import opened Keys

  const STATE_VERSION := 1

  datatype Phase = Prepared | ServerReady | Joined | Finalized | UnknownPhase(text: string)

  datatype BootstrapState = BootstrapState(
    schemaVersion: int, topology: string, fingerprint: InventoryDigest, clusterID: string, name: string,
    profile: string, zone: string, releaseID: string, bundleVersion: string, k3sVersion: string,
    localNode: string, phase: Phase, nodeUID: string, signer: KeyDigest, createdAt: int, updatedAt: int)

  /** The zero `time.Time`. */
  const ZERO_TIME: int := 0

  predicate Valid(s: BootstrapState) {
    && s.schemaVersion == STATE_VERSION && s.topology == EMBEDDED_ETCD_V1
    && s.fingerprint.DigestOf?
    && !Blank(s.clusterID) && !Blank(s.name) && !Blank(s.profile) && !Blank(s.zone)
    && !Blank(s.releaseID) && !Blank(s.bundleVersion) && !Blank(s.k3sVersion) && !Blank(s.localNode)
    && NodeName(s.localNode)
    && (s.signer == NO_DIGEST || s.signer.KeyDigestOf?)
    && (match s.phase
        case Prepared => s.nodeUID == ""
        case ServerReady => s.nodeUID == ""
        case Joined => !Blank(s.nodeUID)
        case Finalized => !Blank(s.nodeUID)
        case UnknownPhase(_) => false)
    && s.createdAt != ZERO_TIME && s.updatedAt != ZERO_TIME && s.createdAt <= s.updatedAt
  }

  /** An unfinished server has no Kubernetes UID yet, a registered one has; nothing else may be missing, and time goes forward. */
  lemma ValidIff(s: BootstrapState)
    ensures Valid(s) <==>
              && s.schemaVersion == 1 && s.topology == "embedded-etcd-v1" && s.fingerprint.DigestOf? && NodeName(s.localNode)
              && (forall text | text in {s.clusterID, s.name, s.profile, s.zone, s.releaseID, s.bundleVersion, s.k3sVersion} :: !Blank(text))
              && (s.signer.KeyDigestOf? || s.signer == OtherText(""))
              && (if s.phase in {Prepared, ServerReady} then s.nodeUID == "" else s.phase in {Joined, Finalized} && !Blank(s.nodeUID))
              && 0 != s.createdAt && 0 != s.updatedAt && s.createdAt <= s.updatedAt
  {
    if NodeName(s.localNode) { NodeNameNotBlank(s.localNode); }
    hide Blank, NodeName;
  }

  /** The appliance identity and the release a command was given. */
  datatype Identity = Identity(name: string, profile: string, zone: string)

  datatype Bundle = Bundle(releaseID: string, version: string, k3sVersion: string, embeddedEtcd: bool, postgres: bool)

  predicate MatchesSubstrate(s: BootstrapState, inv: Inventory, k3sVersion: string, nodeName: string, id: Identity) {
    && Valid(s)
    && ClusterTopology.Valid(inv)
    && s.fingerprint == Fingerprint(inv)
    && s.k3sVersion == k3sVersion
    && s.localNode == nodeName
    && s.name == id.name && s.profile == id.profile && s.zone == id.zone
  }

  predicate Matches(s: BootstrapState, inv: Inventory, bundle: Bundle, nodeName: string, id: Identity) {
    && MatchesSubstrate(s, inv, bundle.k3sVersion, nodeName, id)
    && s.releaseID == bundle.releaseID && s.bundleVersion == bundle.version
  }

  /** A receipt takes one set of inputs only: the same servers in any order, release, K3s version, node and identity. */
  lemma MatchesOnce(s: BootstrapState, x: Inventory, y: Inventory, a: Bundle, b: Bundle, m: string, n: string, i: Identity, j: Identity)
    requires Matches(s, x, a, m, i) && Matches(s, y, b, n, j)
    ensures SameServers(x, y) && m == n && i == j
    ensures a.releaseID == b.releaseID && a.version == b.version && a.k3sVersion == b.k3sVersion
  {
    FingerprintIdentifiesServers(x, y);
    hide Valid, ClusterTopology.Valid, Fingerprint;
  }

  /** And it does take those of its own fields, for every inventory of its fingerprint. */
  lemma MatchesOwnFields(s: BootstrapState, inv: Inventory, bundle: Bundle)
    requires Valid(s) && ClusterTopology.Valid(inv) && s.fingerprint == Fingerprint(inv)
    requires bundle.releaseID == s.releaseID && bundle.version == s.bundleVersion && bundle.k3sVersion == s.k3sVersion
    ensures Matches(s, inv, bundle, s.localNode, Identity(s.name, s.profile, s.zone))
  {
    hide Valid, ClusterTopology.Valid, Fingerprint;
  }

  /** The part of the installed receipt that the bootstrap protocol reads and writes. */
  datatype InstalledState = InstalledState(
    instanceID: string, version: string, releaseID: string, name: string, profile: string, zone: string,
    embeddedEtcd: bool, owned: bool, ownerVersion: string, members: seq<Member>)

  /** A recorded cluster member: its node name and immutable Kubernetes UID. */
  datatype Member = Member(name: string, uid: string)

  /** The installed receipt is the product that a finalized bootstrap receipt recorded. */
  predicate InstallMatchesFinalizedStage(installed: Option<InstalledState>, staged: Option<BootstrapState>, bundleVersion: string) {
    && installed.Some? && staged.Some?
    && staged.value.phase == Finalized
    && installed.value.embeddedEtcd
    && installed.value.instanceID == staged.value.clusterID
    && installed.value.releaseID == staged.value.releaseID
    && installed.value.version == bundleVersion
    && installed.value.name == staged.value.name
    && installed.value.profile == staged.value.profile
    && installed.value.zone == staged.value.zone
  }

  /** A finalized receipt vouches for one product, at one version. */
  lemma OneProduct(s: BootstrapState, i: InstalledState, j: InstalledState, v: string, w: string)
    requires InstallMatchesFinalizedStage(Some(i), Some(s), v) && InstallMatchesFinalizedStage(Some(j), Some(s), w)
    ensures s.phase == Finalized && i.embeddedEtcd && j.embeddedEtcd
    ensures i.instanceID == j.instanceID == s.clusterID && i.releaseID == j.releaseID == s.releaseID
    ensures i.name == j.name == s.name && i.profile == j.profile == s.profile && i.zone == j.zone == s.zone
    ensures i.version == v && j.version == w
  {
  }

  /** A host is the bootstrap server of the inventory that its receipt pins. */
  predicate IsBootstrap(s: BootstrapState) {
    s.fingerprint.DigestOf? && s.fingerprint.form.bootstrapNode == s.localNode
  }

  /** The facts that every receipt of one cluster shares. */
  ghost predicate SameCluster(x: BootstrapState, y: BootstrapState) {
    && x.clusterID == y.clusterID
    && x.signer == y.signer
    && x.fingerprint == y.fingerprint
    && x.name == y.name && x.profile == y.profile && x.zone == y.zone
  }

  /** A receipt that pins a fingerprint fixes the role of its host for every inventory that matches it. */
  lemma RoleIsPinned(s: BootstrapState, inv: Inventory, k3sVersion: string, nodeName: string, id: Identity)
    requires MatchesSubstrate(s, inv, k3sVersion, nodeName, id)
    ensures IsBootstrap(s) <==> nodeName == inv.bootstrapNode
  {
  }
}
