/** Minting an enrollment on the bootstrap server, and matching one on the joining server. */
module EnrollmentCreate {
  import opened Text
  import opened ClusterTopology
  import opened Keys
  import opened EnrollmentArtifact
  import opened SystemCalls
  import R = Receipt

  const MINIMUM_TTL := MINUTE
  const MAXIMUM_TTL := 24 * HOUR

  /** What the command reads besides the inventory and the receipt; a missing or unreadable input is `None`. */
  datatype MintInputs = MintInputs(
    nodeName: string, serverName: string, ttl: int, outputAbsent: bool, dryRun: bool, signer: Option<Key>,
    token: Option<string>, ca: Option<string>, now: int, nonce: string)

  predicate MayMint(inv: Inventory, staged: Option<R.BootstrapState>, input: MintInputs) {
    && ClusterTopology.Valid(inv)
    && input.nodeName == inv.bootstrapNode && HasNode(inv, input.serverName) && input.serverName != inv.bootstrapNode
    && MINIMUM_TTL <= input.ttl <= MAXIMUM_TTL
    && staged.Some? && R.Valid(staged.value)
    && (staged.value.phase == R.ServerReady || staged.value.phase == R.Joined || staged.value.phase == R.Finalized)
    && staged.value.localNode == input.nodeName && staged.value.fingerprint == Fingerprint(inv)
    && input.outputAbsent
    && !input.dryRun
    && input.signer.Some? && KeyDigestOf(input.signer.value) == staged.value.signer
    && input.token.Some? && !Blank(input.token.value)
    && input.ca.Some?
    && input.nonce != ""
  }

  /** The artifact for one peer, copied from the bootstrap receipt. */
  function Minted(inv: Inventory, staged: R.BootstrapState, input: MintInputs): Enrollment
    requires input.signer.Some? && input.token.Some? && input.ca.Some?
  {
    var token := Trim(input.token.value);
    SignWith(
      Enrollment(EMBEDDED_ETCD_VERSION, staged.clusterID, staged.name, staged.profile, staged.zone, inv.bootstrapNode,
                 "server", staged.topology, Fingerprint(inv), staged.releaseID, staged.bundleVersion,
                 BootstrapEndpoint(inv), CADigestOf(input.ca.value), input.serverName, token, TokenDigestOf(token),
                 input.now, input.now + input.ttl, input.nonce, NoKey(""), NotASignature("")),
      input.signer.value)
  }

  /** What the joining server relies on: the artifact admits one peer to the bootstrap's own cluster, at the bootstrap's address,
      with the bootstrap's K3s token and certificate authority, for a time that begins now, and is signed as it stands. */
  ghost predicate AdmitsPeer(e: Enrollment, inv: Inventory, staged: R.BootstrapState, input: MintInputs) {
    && input.signer.Some? && input.token.Some? && input.ca.Some?
    && e.token == Trim(input.token.value) && e.tokenHash == TokenDigestOf(Trim(input.token.value))
    && e.caHash == CADigestOf(input.ca.value) && e.nonce == input.nonce
    && e.issuedAt == input.now && e.expiresAt == input.now + input.ttl
    && 60_000_000_000 <= e.expiresAt - e.issuedAt <= 86_400_000_000_000
    && e.expectedNode == input.serverName && e.controlPlaneNode == inv.bootstrapNode
    && e.controlEndpoint.Https? && Node(inv.bootstrapNode, e.controlEndpoint.host) in inv.nodes
    && e.clusterID == staged.clusterID && e.releaseID == staged.releaseID && e.releaseVersion == staged.bundleVersion
    && e.name == staged.name && e.profile == staged.profile && e.zone == staged.zone
    && e.version == 2 && e.role == "server" && e.topology == EMBEDDED_ETCD_V1 && e.fingerprint == Fingerprint(inv)
    && GenuineUnder(e, input.signer.value)
  }

  lemma MintedAdmitsPeer(inv: Inventory, staged: R.BootstrapState, input: MintInputs)
    requires MayMint(inv, Some(staged), input)
    ensures AdmitsPeer(Minted(inv, staged, input), inv, staged, input)
  {
    EndpointsOnceBootstrapFirst(inv);
    var i :| 0 <= i < |inv.nodes| && inv.nodes[i].name == inv.bootstrapNode;
    assert inv.nodes[i] in inv.nodes;
    hide R.Valid, NodeName, GlobalUnicastV4, Fingerprint, Blank, Trim;
  }

  /** And nothing else is such an artifact. */
  lemma AdmitsPeerOnce(e: Enrollment, inv: Inventory, staged: R.BootstrapState, input: MintInputs)
    requires MayMint(inv, Some(staged), input) && AdmitsPeer(e, inv, staged, input)
    ensures e == Minted(inv, staged, input)
  {
    MintedAdmitsPeer(inv, staged, input);
    var b := Node(inv.bootstrapNode, e.controlEndpoint.host);
    FindNodeUnique(inv.nodes, b);
    EndpointsOnceBootstrapFirst(inv);
    hide MayMint, Minted, Fingerprint;
    SignedAlike(e, Minted(inv, staged, input), input.signer.value);
  }

  lemma SignedAlike(e: Enrollment, f: Enrollment, key: Key)
    requires GenuineUnder(e, key) && GenuineUnder(f, key)
    requires e.(signerKey := f.signerKey, signature := f.signature) == f
    ensures e == f
  {
  }

  lemma MintedEndpoint(inv: Inventory)
    requires ClusterTopology.Valid(inv)
    ensures HttpsURL(BootstrapEndpoint(inv)) && EndpointList(inv) != []
  {
    EndpointsOnceBootstrapFirst(inv);
    var list := EndpointList(inv);
    assert list[0] in list;
  }

  lemma ServerNameNotEmpty(inv: Inventory, name: string)
    requires ClusterTopology.Valid(inv) && HasNode(inv, name)
    ensures name != ""
  {
  }

  lemma ReceiptFieldsNotEmpty(s: R.BootstrapState)
    requires R.Valid(s)
    ensures s.clusterID != "" && s.name != "" && s.profile != "" && s.zone != "" && s.releaseID != "" && s.bundleVersion != ""
  {
    assert Blank("");
  }

  lemma MintedComplete(inv: Inventory, staged: R.BootstrapState, input: MintInputs)
    requires MayMint(inv, Some(staged), input)
    ensures Complete(Minted(inv, staged, input))
  {
    BlankTrims(input.token.value);
    MintedEndpoint(inv);
    ServerNameNotEmpty(inv, input.serverName);
    ServerNameNotEmpty(inv, inv.bootstrapNode);
    ReceiptFieldsNotEmpty(staged);
  }

  /** A minted artifact is valid under its signer from five minutes before it was issued until it expires, and only then. */
  lemma MintedValidityWindow(inv: Inventory, staged: R.BootstrapState, input: MintInputs, clock: int)
    requires MayMint(inv, Some(staged), input)
    ensures Verifies(Minted(inv, staged, input), clock, staged.signer)
       <==> input.now - 5 * MINUTE <= clock < input.now + input.ttl
  {
    MintedEndpoint(inv);
    MintedComplete(inv, staged, input);
    var e := Minted(inv, staged, input);
    assert TimelyAt(e, clock) <==> input.now - 5 * MINUTE <= clock < input.now + input.ttl;
    assert GenuineUnder(e, input.signer.value);
    assert e.role == "server";
  }

  /** Minting takes the bootstrap's own ready receipt and key, one of its two peers, and an output that is not there. */
  lemma MintingNeeds(inv: Inventory, staged: Option<R.BootstrapState>, input: MintInputs)
    requires MayMint(inv, staged, input)
    ensures input.nodeName == inv.bootstrapNode && input.serverName != inv.bootstrapNode
    ensures exists n | n in inv.nodes :: n.name == input.serverName
    ensures |inv.nodes| == 3
    ensures 60_000_000_000 <= input.ttl <= 86_400_000_000_000 && input.outputAbsent && !input.dryRun
    ensures staged.Some? && staged.value.phase in {R.ServerReady, R.Joined, R.Finalized}
    ensures staged.value.localNode == inv.bootstrapNode && staged.value.fingerprint == Fingerprint(inv)
    ensures input.signer.Some? && staged.value.signer == KeyDigestOf(input.signer.value)
    ensures input.token.Some? && !Blank(input.token.value) && input.ca.Some? && input.nonce != ""
  {
    var i :| 0 <= i < |inv.nodes| && inv.nodes[i].name == input.serverName;
    assert inv.nodes[i] in inv.nodes;
    var j :| 0 <= j < |inv.nodes| && inv.nodes[j].name == inv.bootstrapNode;
    hide NodeName, GlobalUnicastV4, R.Valid;
  }

  /** And nothing more, on a host whose receipt is valid. */
  lemma MintingSucceeds(inv: Inventory, s: R.BootstrapState, input: MintInputs, n: Node)
    requires ClusterTopology.Valid(inv) && R.Valid(s) && n in inv.nodes && n.name == input.serverName != inv.bootstrapNode
    requires input.nodeName == inv.bootstrapNode == s.localNode && s.fingerprint == Fingerprint(inv)
    requires s.phase in {R.ServerReady, R.Finalized} && input.signer.Some? && s.signer == KeyDigestOf(input.signer.value)
    requires 60_000_000_000 <= input.ttl <= 86_400_000_000_000 && input.outputAbsent && !input.dryRun
    requires input.token.Some? && !Blank(input.token.value) && input.ca.Some? && input.nonce != ""
    ensures MayMint(inv, Some(s), input)
  {
    var i :| 0 <= i < |inv.nodes| && inv.nodes[i] == n;
    hide R.Valid, ClusterTopology.Valid, Fingerprint, Blank;
  }

  /** The refusals of the command, in its order. */
  method CheckMint(inv: Inventory, staged: Option<R.BootstrapState>, input: MintInputs) returns (ok: bool)
    ensures ok <==> MayMint(inv, staged, input)
  {
    ok := ClusterTopology.Validate(inv);
    if !ok { return false; }
    if input.nodeName != inv.bootstrapNode || !HasNode(inv, input.serverName) || input.serverName == inv.bootstrapNode {
      return false;
    }
    if input.ttl < MINIMUM_TTL || input.ttl > MAXIMUM_TTL { return false; }
    if staged.None? || !R.Valid(staged.value) { return false; }
    var receipt := staged.value;
    if receipt.phase != R.ServerReady && receipt.phase != R.Joined && receipt.phase != R.Finalized { return false; }
    if receipt.localNode != input.nodeName || receipt.fingerprint != Fingerprint(inv) { return false; }
    if !input.outputAbsent || input.dryRun { return false; }
    if input.signer.None? || KeyDigestOf(input.signer.value) != receipt.signer { return false; }
    if input.token.None? || Blank(input.token.value) || input.ca.None? || input.nonce == "" { return false; }
    return true;
  }

  /** The command: refuse, or build the artifact, sign it in place, validate it and write it; only the write can still fail. */
  method CreateServerEnrollment(inv: Inventory, staged: Option<R.BootstrapState>, input: MintInputs, calls: Calls)
    returns (written: Option<Enrollment>)
    modifies calls
    ensures written.Some? <==> MayMint(inv, staged, input) && calls.failed == old(calls.failed)
    ensures written.Some? ==> written.value == Minted(inv, staged.value, input)
    ensures written.Some? ==> AdmitsPeer(written.value, inv, staged.value, input)
    ensures !MayMint(inv, staged, input) ==> calls.failed == old(calls.failed)
  {
    var ok := CheckMint(inv, staged, input);
    if !ok { return None; }
    MintedEndpoint(inv);
    var endpoints := APIEndpoints(inv);
    var artifact := BuildAndSign(inv, endpoints[0], staged.value, input);
    MintedValidityWindow(inv, staged.value, input, input.now);
    MintedAdmitsPeer(inv, staged.value, input);
    if !Verifies(artifact, input.now, staged.value.signer) { return None; }
    ok := calls.Attempt(); // write the file
    if ok { written := Some(artifact); } else { written := None; }
  }

  method BuildAndSign(inv: Inventory, endpoint: Endpoint, receipt: R.BootstrapState, input: MintInputs)
    returns (artifact: Enrollment)
    requires endpoint == BootstrapEndpoint(inv) && receipt.topology == EMBEDDED_ETCD_V1
    requires input.signer.Some? && input.token.Some? && input.ca.Some?
    ensures artifact == Minted(inv, receipt, input)
  {
    var token := Trim(input.token.value);
    var draft := new Draft(
      Enrollment(0, receipt.clusterID, receipt.name, receipt.profile, receipt.zone, inv.bootstrapNode,
                 "server", receipt.topology, Fingerprint(inv), receipt.releaseID, receipt.bundleVersion,
                 endpoint, CADigestOf(input.ca.value), input.serverName, token, TokenDigestOf(token),
                 input.now, input.now + input.ttl, input.nonce, NoKey(""), NotASignature("")));
    var signed := draft.SignEmbeddedEtcd(input.signer);
    assert signed;
    artifact := draft.value;
  }

  // ---- The joining server ----------------------------------------------------------------------

  /** The release condition of the match; a joined or finalized member accepts the release it recorded. */
  predicate ReleaseMatches(e: Enrollment, bundle: R.Bundle, staged: Option<R.BootstrapState>) {
    || (e.releaseID == bundle.releaseID && e.releaseVersion == bundle.version)
    || (&& staged.Some? && (staged.value.phase == R.Joined || staged.value.phase == R.Finalized)
        && e.releaseID == staged.value.releaseID && e.releaseVersion == staged.value.bundleVersion
        && staged.value.bundleVersion == bundle.version)
  }

  /** A verified artifact is for this node, this inventory, this release and this appliance. */
  predicate StageAccepts(e: Enrollment, inv: Inventory, nodeName: string, bundle: R.Bundle, id: R.Identity,
                         staged: Option<R.BootstrapState>)
  {
    && e.version == EMBEDDED_ETCD_VERSION
    && e.topology == EMBEDDED_ETCD_V1
    && e.fingerprint == Fingerprint(inv)
    && e.expectedNode == nodeName
    && e.controlPlaneNode == inv.bootstrapNode
    && e.controlEndpoint == BootstrapEndpoint(inv)
    && ReleaseMatches(e, bundle, staged)
    && e.profile == id.profile && e.name == id.name && e.zone == id.zone
  }

  /** A minted artifact is accepted exactly by the peer it names, whatever order lists the servers, with the release that the
      bootstrap recorded; a peer that has joined accepts the release that it recorded itself, at the same version. */
  lemma MintedAcceptedExactlyByItsPeer(inv: Inventory, staged: R.BootstrapState, input: MintInputs, inv': Inventory, nodeName: string,
                                       bundle: R.Bundle, id: R.Identity, receipt: Option<R.BootstrapState>)
    requires MayMint(inv, Some(staged), input)
    requires ClusterTopology.Valid(inv')
    ensures StageAccepts(Minted(inv, staged, input), inv', nodeName, bundle, id, receipt)
       <==> && nodeName == input.serverName
            && SameServers(inv', inv)
            && id == R.Identity(staged.name, staged.profile, staged.zone)
            && bundle.version == staged.bundleVersion
            && (|| bundle.releaseID == staged.releaseID
                || (&& receipt.Some? && receipt.value.phase in {R.Joined, R.Finalized}
                    && receipt.value.releaseID == staged.releaseID && receipt.value.bundleVersion == staged.bundleVersion))
  {
    FingerprintIdentifiesServers(inv', inv);
    if SameServers(inv', inv) { SameServersSameBootstrapEndpoint(inv', inv); }
    hide R.Valid, ClusterTopology.Valid, Fingerprint, BootstrapEndpoint, Blank, Trim;
  }
}
