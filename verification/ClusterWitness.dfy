/** The protocol gets somewhere: for every valid inventory and release there are logs of the commands in which the bootstrap is
    brought up, a peer joins under its key, and the bootstrap is finalized. The theorems about all runs are about these, too. */
module ClusterWitness {
  import opened Text
  import opened ClusterTopology
  import opened Keys
  import opened EnrollmentArtifact
  import opened HostDisk
  import opened ClusterProtocol
  import EnrollmentCreate
  import Finalize
  import Stage
  import O = Ownership
  import Readiness
  import K3sConfig
  import R = Receipt

  /** What the operators of a cluster choose: its servers, one peer, the release and the identity. */
  datatype Setup = Setup(inv: Inventory, peer: Node, bundle: R.Bundle, id: R.Identity, clusterID: string, key: Key)

  const UID := "u"
  const CA := "ca"

  const EMPTY_DISK := Disk(None, None, NoUnit, None, None, false, {}, map[], None, NoToken)

  function Prepared(u: Setup, node: string, signer: KeyDigest): R.BootstrapState {
    R.BootstrapState(R.STATE_VERSION, EMBEDDED_ETCD_V1, Fingerprint(u.inv), u.clusterID, u.id.name, u.id.profile, u.id.zone,
                     u.bundle.releaseID, u.bundle.version, u.bundle.k3sVersion, node, R.Prepared, "", signer, 1, 1)
  }

  /** Everything that must not be blank is not, and the peer is a planned server other than the bootstrap. */
  predicate Sensible(u: Setup) {
    && ClusterTopology.Valid(u.inv) && u.bundle.embeddedEtcd
    && u.peer in u.inv.nodes && u.peer.name != u.inv.bootstrapNode
    && !Blank(u.clusterID) && !Blank(u.id.name) && !Blank(u.id.profile) && !Blank(u.id.zone)
    && !Blank(u.bundle.releaseID) && !Blank(u.bundle.version) && !Blank(u.bundle.k3sVersion)
  }

  function RunOn(u: Setup, n: Node, enrollment: Option<Enrollment>, signer: KeyDigest): Stage.Run {
    Stage.Run(u.bundle, u.id, u.inv, n.name, {n.address}, false, true, "/data", "/token", true, enrollment, signer, true, 1, 1,
              Some(O.Signal(false, false, false, "", [])), u.clusterID, u.key, Some(CA), Some(UID))
  }

  function Input(u: Setup): EnrollmentCreate.MintInputs {
    EnrollmentCreate.MintInputs(u.inv.bootstrapNode, u.peer.name, HOUR, true, false, Some(u.key), Some("t"), Some(CA), 0, "n")
  }

  function Staged(u: Setup): R.BootstrapState {
    Prepared(u, u.inv.bootstrapNode, NO_DIGEST).(phase := R.ServerReady, signer := KeyDigestOf(u.key))
  }

  lemma PreparedValid(u: Setup, n: Node, signer: KeyDigest)
    requires Sensible(u) && n in u.inv.nodes && (signer == NO_DIGEST || signer.KeyDigestOf?)
    ensures R.Valid(Prepared(u, n.name, signer))
    ensures R.Valid(Prepared(u, n.name, signer).(phase := R.ServerReady, signer := KeyDigestOf(u.key)))
    ensures FindNode(u.inv.nodes, n.name) == Some(n)
  {
    NodeNameNotBlank(n.name);
    FindNodeUnique(u.inv.nodes, n);
    hide Blank, Canonical;
  }

  lemma Bootstrap(u: Setup) returns (n: Node)
    requires Sensible(u)
    ensures n in u.inv.nodes && n.name == u.inv.bootstrapNode
  {
    var i :| 0 <= i < |u.inv.nodes| && u.inv.nodes[i].name == u.inv.bootstrapNode;
    n := u.inv.nodes[i];
  }

  // ---- The bootstrap server --------------------------------------------------------------------

  function Boot(u: Setup, n: Node): Stage.Run { RunOn(u, n, None, NO_DIGEST) }

  lemma BootAdmits(u: Setup, n: Node, receipt: Option<R.BootstrapState>)
    requires Sensible(u) && n in u.inv.nodes && n.name == u.inv.bootstrapNode
    requires receipt == None || receipt == Some(Prepared(u, n.name, NO_DIGEST)) || receipt == Some(Staged(u))
    ensures Stage.Admits(Boot(u, n), receipt, None)
  {
    PreparedValid(u, n, NO_DIGEST);
    hide R.Valid, ClusterTopology.Valid, Fingerprint, FindNode, Blank, Verifies, EnrollmentCreate.StageAccepts;
  }

  // ---- What a bring-up logs --------------------------------------------------------------------

  function ConfigOf(u: Setup, n: Node): K3sConfig.Config { K3sConfig.MemberConfig(u.inv, n, "/data", "/token") }

  /** Configured, with its unit, with its binary, started. */
  function UpFrom(b: Disk, config: K3sConfig.Config, version: string, entry: string): seq<Disk> {
    var configured := b.(config := Some(Rendered(config)));
    var listed := configured.(unit := ReleaseOwned);
    var complete := listed.(binary := Some(version));
    [b, configured, listed, complete, complete.(active := true, data := b.data + {entry})]
  }

  lemma UpExtends(run: Stage.Run, b: Disk, config: K3sConfig.Config, version: string, entry: string)
    requires Stage.Admitted(run, b)
    ensures var log := UpFrom(b, config, version, entry); Stage.Extends(run, [b], log) && Stage.InOrder(log, config, version)
    ensures Stage.Admitted(run, UpFrom(b, config, version, entry)[4])
  {
    hide Stage.Admits, Stage.ReceiptWrite, Stage.MayReclaim;
    var log := UpFrom(b, config, version, entry);
    forall i | 1 <= i < |log| ensures Stage.Write(run, log[i - 1], log[i]) {
      assert Stage.HostWrite(run, log[i - 1], log[i]);
    }
  }

  /** A log of one run goes on with one more write. */
  lemma LogGrows(run: Stage.Run, log: seq<Disk>, d: Disk)
    requires log != [] && Stage.Extends(run, [log[0]], log) && Stage.Write(run, log[|log| - 1], d)
    ensures Stage.Extends(run, [log[0]], log + [d])
  {
    hide Stage.Write;
  }

  // ---- The bootstrap server's log --------------------------------------------------------------

  function PreparedDisk(receipt: R.BootstrapState): Disk { EMPTY_DISK.(receipt := Some(receipt)) }

  function BootPrepared(u: Setup): Disk { PreparedDisk(Prepared(u, u.inv.bootstrapNode, NO_DIGEST)) }

  function BootUp(u: Setup, n: Node, entry: string): seq<Disk> { UpFrom(BootPrepared(u), ConfigOf(u, n), u.bundle.k3sVersion, entry) }

  function BootKeyed(u: Setup, n: Node, entry: string): Disk { BootUp(u, n, entry)[4].(signer := Some(u.key)) }

  function BootReady(u: Setup, n: Node, entry: string): Disk { BootKeyed(u, n, entry).(receipt := Some(Staged(u))) }

  function BootLog(u: Setup, n: Node, entry: string): seq<Disk> {
    [EMPTY_DISK] + BootUp(u, n, entry) + [BootKeyed(u, n, entry), BootReady(u, n, entry)]
  }

  /** What the last state of the log is made of. */
  lemma BootReadyIs(u: Setup, n: Node, entry: string)
    ensures BootReady(u, n, entry)
         == Disk(Some(Staged(u)), None, ReleaseOwned, Some(u.bundle.k3sVersion), Some(Rendered(ConfigOf(u, n))), true, {entry}, map[],
                 Some(u.key), NoToken)
  {
    hide ConfigOf, Prepared, Staged;
  }

  lemma FirstIsWrite(run: Stage.Run, d: Disk, s: R.BootstrapState)
    requires Stage.Admitted(run, d) && d.receipt.None? && d.installed.None? && d.data == {} && d.db == map[] && Stage.NewReceipt(run, s)
    ensures Stage.Write(run, d, d.(receipt := Some(s)))
  {
    hide Stage.Admits, Stage.HostWrite, Stage.NewReceipt;
  }

  lemma KeyingIsWrite(run: Stage.Run, d: Disk)
    requires Stage.Admitted(run, d) && Stage.Bootstraps(run) && Stage.InPlace(run, d)
    requires d.receipt.Some? && d.receipt.value.phase == R.Prepared && d.signer.None?
    ensures Stage.Write(run, d, d.(signer := Some(run.freshKey)))
  {
    hide Stage.Admits, Stage.HostWrite, Stage.ReceiptWrite, Stage.InPlace;
  }

  lemma ReadyingIsWrite(run: Stage.Run, d: Disk, s': R.BootstrapState)
    requires Stage.Admitted(run, d) && d.receipt.Some? && d.installed.None? && Stage.Bootstraps(run) && Stage.InPlace(run, d)
    requires R.Matches(d.receipt.value, run.inv, run.bundle, run.nodeName, run.id) && Stage.ReadyReceipt(run, d.receipt.value, s', d.signer)
    ensures Stage.Write(run, d, d.(receipt := Some(s')))
  {
    hide Stage.Admits, Stage.HostWrite, Stage.ReadyReceipt, Stage.RenewedReceipt, R.Matches, Stage.InPlace;
  }

  /** What the bootstrap's run is given, and the receipts it writes. */
  lemma BootReceipts(u: Setup, n: Node)
    requires Sensible(u) && n in u.inv.nodes && n.name == u.inv.bootstrapNode
    ensures var run, s := Boot(u, n), Prepared(u, u.inv.bootstrapNode, NO_DIGEST);
            && Stage.Bootstraps(run) && run.freshKey == u.key && Stage.NewReceipt(run, s)
            && R.Matches(s, run.inv, run.bundle, run.nodeName, run.id) && Stage.ReadyReceipt(run, s, Staged(u), Some(u.key))
            && s.phase == R.Prepared
  {
    PreparedValid(u, n, NO_DIGEST);
    hide R.Valid, ClusterTopology.Valid, Fingerprint, FindNode, Blank;
  }

  lemma BootRecords(u: Setup, n: Node, entry: string)
    requires Sensible(u) && n in u.inv.nodes && n.name == u.inv.bootstrapNode
    ensures Stage.Write(Boot(u, n), EMPTY_DISK, BootPrepared(u)) && Stage.Admitted(Boot(u, n), BootPrepared(u))
    ensures Stage.Write(Boot(u, n), BootUp(u, n, entry)[4], BootKeyed(u, n, entry))
    ensures Stage.Write(Boot(u, n), BootKeyed(u, n, entry), BootReady(u, n, entry))
  {
    hide Sensible, Stage.Admits, Stage.InPlace, Stage.NewReceipt, Stage.ReadyReceipt, R.Matches, Stage.Write, Stage.Bootstraps, Boot,
         Prepared, Staged, ConfigOf;
    var run, s := Boot(u, n), Prepared(u, u.inv.bootstrapNode, NO_DIGEST);
    BootAdmits(u, n, None);
    BootAdmits(u, n, Some(s));
    BootReceipts(u, n);
    BootInPlace(u, n, entry);
    FirstIsWrite(run, EMPTY_DISK, s);
    KeyingIsWrite(run, BootUp(u, n, entry)[4]);
    ReadyingIsWrite(run, BootKeyed(u, n, entry), Staged(u));
  }

  lemma BootInPlace(u: Setup, n: Node, entry: string)
    requires Sensible(u) && n in u.inv.nodes && n.name == u.inv.bootstrapNode
    ensures Stage.InPlace(Boot(u, n), BootUp(u, n, entry)[4]) && Stage.InPlace(Boot(u, n), BootKeyed(u, n, entry))
  {
    PreparedValid(u, n, NO_DIGEST);
    hide Sensible, R.Valid, Fingerprint, FindNode, Blank, K3sConfig.MemberConfig;
  }

  /** The staging run on the bootstrap, write by write. */
  lemma BootLogs(u: Setup, n: Node, entry: string)
    requires Sensible(u) && n in u.inv.nodes && n.name == u.inv.bootstrapNode
    ensures Stage.Extends(Boot(u, n), [EMPTY_DISK], BootLog(u, n, entry))
    ensures Stage.InOrder(BootLog(u, n, entry)[..6], ConfigOf(u, n), u.bundle.k3sVersion)
  {
    BootRecords(u, n, entry);
    UpExtends(Boot(u, n), BootPrepared(u), ConfigOf(u, n), u.bundle.k3sVersion, entry);
    BootUpShape(u, n, entry);
    hide Sensible, Stage.Write, Stage.Admitted, Boot, BootPrepared, BootKeyed, BootReady, BootUp, ConfigOf;
    var run, log, up := Boot(u, n), BootLog(u, n, entry), BootUp(u, n, entry);
    forall i | 1 <= i < |log| ensures Stage.Write(run, log[i - 1], log[i]) {
      if 2 <= i < 6 { assert log[i - 1] == up[i - 2] && log[i] == up[i - 1] && Stage.Write(run, up[i - 2], up[i - 1]); }
    }
  }

  lemma BootUpShape(u: Setup, n: Node, entry: string)
    ensures var up := BootUp(u, n, entry);
            |up| == 5 && up[0] == BootPrepared(u) && up == UpFrom(BootPrepared(u), ConfigOf(u, n), u.bundle.k3sVersion, entry)
  {
  }

  lemma BootIsUp(u: Setup, n: Node, entry: string)
    requires Sensible(u) && n in u.inv.nodes && n.name == u.inv.bootstrapNode
    ensures Stage.BroughtUp(Boot(u, n), EMPTY_DISK, BootReady(u, n, entry))
  {
    PreparedValid(u, n, NO_DIGEST);
    BootReadyIs(u, n, entry);
    hide R.Valid, ClusterTopology.Valid, Fingerprint, FindNode, Blank, BootReady;
  }

  // ---- Minting, and the peer -------------------------------------------------------------------

  lemma MintsForPeer(u: Setup)
    requires Sensible(u)
    ensures EnrollmentCreate.MayMint(u.inv, Some(Staged(u)), Input(u))
  {
    var n := Bootstrap(u);
    PreparedValid(u, n, NO_DIGEST);
    assert !Blank("t") by { assert !IsSpace("t"[0]); }
    assert HasNode(u.inv, u.peer.name) by { var i :| 0 <= i < |u.inv.nodes| && u.inv.nodes[i] == u.peer; }
    hide R.Valid, ClusterTopology.Valid, Fingerprint, FindNode, Blank;
  }

  function Artifact(u: Setup): Enrollment { EnrollmentCreate.Minted(u.inv, Staged(u), Input(u)) }

  function Joining(u: Setup): Stage.Run { RunOn(u, u.peer, Some(Artifact(u)), KeyDigestOf(u.key)) }

  function PeerReceipt(u: Setup): R.BootstrapState { Prepared(u, u.peer.name, KeyDigestOf(u.key)) }

  lemma PeerAdmits(u: Setup, receipt: Option<R.BootstrapState>)
    requires Sensible(u) && (receipt == None || receipt == Some(PeerReceipt(u)))
    ensures Stage.Admits(Joining(u), receipt, None)
  {
    PreparedValid(u, u.peer, KeyDigestOf(u.key));
    MintsForPeer(u);
    EnrollmentCreate.MintedValidityWindow(u.inv, Staged(u), Input(u), 1);
    EnrollmentCreate.MintedAcceptedExactlyByItsPeer(u.inv, Staged(u), Input(u), u.inv, u.peer.name, u.bundle, u.id, None);
    StillAccepted(u, receipt);
    hide EnrollmentCreate.MayMint, EnrollmentCreate.StageAccepts, Verifies, ClusterTopology.Valid, Fingerprint, FindNode, Blank, R.Valid;
  }

  lemma StillAccepted(u: Setup, receipt: Option<R.BootstrapState>)
    requires EnrollmentCreate.StageAccepts(Artifact(u), u.inv, u.peer.name, u.bundle, u.id, None)
    ensures EnrollmentCreate.StageAccepts(Artifact(u), u.inv, u.peer.name, u.bundle, u.id, receipt)
  {
    hide EnrollmentCreate.Minted, Fingerprint;
  }

  // ---- The peer's log --------------------------------------------------------------------------

  function PeerPrepared(u: Setup): Disk { PreparedDisk(PeerReceipt(u)) }

  function PeerTokened(u: Setup): Disk { PeerPrepared(u).(token := RegularToken(Artifact(u).token + "\n")) }

  function PeerUp(u: Setup, entry: string): seq<Disk> { UpFrom(PeerTokened(u), ConfigOf(u, u.peer), u.bundle.k3sVersion, entry) }

  function PeerJoined(u: Setup, entry: string): Disk {
    PeerUp(u, entry)[4].(receipt := Some(PeerReceipt(u).(phase := R.Joined, nodeUID := UID)))
  }

  function PeerLog(u: Setup, entry: string): seq<Disk> { [EMPTY_DISK, PeerPrepared(u)] + PeerUp(u, entry) + [PeerJoined(u, entry)] }

  lemma JoinedValid(u: Setup)
    requires Sensible(u)
    ensures R.Valid(PeerReceipt(u)) && R.Valid(PeerReceipt(u).(phase := R.Joined, nodeUID := UID))
    ensures FindNode(u.inv.nodes, u.peer.name) == Some(u.peer)
  {
    PreparedValid(u, u.peer, KeyDigestOf(u.key));
    UIDIsValid();
    hide Blank, Canonical, ClusterTopology.Valid, Fingerprint, FindNode;
  }

  lemma TokenIsWrite(run: Stage.Run, d: Disk, token: TokenPath)
    requires Stage.Admitted(run, d)
    ensures Stage.Write(run, d, d.(token := token)) && Stage.Admitted(run, d.(token := token))
  {
    hide Stage.Admits, Stage.ReceiptWrite, Stage.MayReclaim;
  }

  lemma JoiningIsWrite(run: Stage.Run, d: Disk, s': R.BootstrapState)
    requires Stage.Admitted(run, d) && d.receipt.Some? && d.installed.None? && !Stage.Bootstraps(run) && Stage.InPlace(run, d)
    requires R.Matches(d.receipt.value, run.inv, run.bundle, run.nodeName, run.id) && Stage.JoinedReceipt(run, d.receipt.value, s')
    ensures Stage.Write(run, d, d.(receipt := Some(s')))
  {
    hide Stage.Admits, Stage.HostWrite, Stage.JoinedReceipt, Stage.RenewedReceipt, R.Matches, Stage.InPlace;
  }

  /** What the peer's run is given, and the receipts it writes. */
  lemma PeerReceipts(u: Setup)
    requires Sensible(u)
    ensures Stage.NewReceipt(Joining(u), PeerReceipt(u)) && !Stage.Bootstraps(Joining(u))
    ensures R.Matches(PeerReceipt(u), u.inv, u.bundle, u.peer.name, u.id)
    ensures Stage.JoinedReceipt(Joining(u), PeerReceipt(u), PeerReceipt(u).(phase := R.Joined, nodeUID := UID))
  {
    hide R.Valid, ClusterTopology.Valid, Fingerprint, FindNode, Blank, Joining, Artifact, Stage.ClusterOf;
    JoinedValid(u);
    JoiningInputs(u);
  }

  lemma PeerInPlace(u: Setup, entry: string)
    requires Sensible(u)
    ensures Stage.InPlace(Joining(u), PeerUp(u, entry)[4])
  {
    hide Sensible, FindNode, PeerReceipt, Artifact, Joining, Stage.UpReceipt, K3sConfig.MemberConfig, Stage.ClusterOf;
    PeerUpReceipt(u);
    PeerJoinedIs(u, entry);
    JoiningInputs(u);
  }

  lemma PeerJoins(u: Setup, entry: string)
    requires Sensible(u)
    ensures Stage.Write(Joining(u), PeerUp(u, entry)[4], PeerJoined(u, entry))
  {
    PeerReceipts(u);
    PeerAdmits(u, Some(PeerReceipt(u)));
    PeerInPlace(u, entry);
    hide Sensible, Stage.Admits, R.Matches, ConfigOf, Artifact, Stage.JoinedReceipt, Stage.Write, PeerReceipt, Stage.NewReceipt,
         Stage.InPlace;
    JoiningIsWrite(Joining(u), PeerUp(u, entry)[4], PeerReceipt(u).(phase := R.Joined, nodeUID := UID));
  }

  lemma PeerRecords(u: Setup, entry: string)
    requires Sensible(u)
    ensures Stage.Write(Joining(u), EMPTY_DISK, PeerPrepared(u)) && Stage.Write(Joining(u), PeerPrepared(u), PeerTokened(u))
    ensures Stage.Admitted(Joining(u), PeerTokened(u))
    ensures Stage.Write(Joining(u), PeerUp(u, entry)[4], PeerJoined(u, entry))
  {
    PeerAdmits(u, None);
    PeerAdmits(u, Some(PeerReceipt(u)));
    PeerReceipts(u);
    PeerJoins(u, entry);
    hide Sensible, Stage.Admits, Stage.NewReceipt, Stage.JoinedReceipt, Stage.Write, Artifact, PeerReceipt, Joining, PeerJoined, PeerUp,
         R.Matches;
    FirstIsWrite(Joining(u), EMPTY_DISK, PeerReceipt(u));
    TokenIsWrite(Joining(u), PeerPrepared(u), RegularToken(Artifact(u).token + "\n"));
  }

  /** The staging run on the peer, write by write. */
  lemma PeerLogs(u: Setup, entry: string)
    requires Sensible(u)
    ensures Stage.Extends(Joining(u), [EMPTY_DISK], PeerLog(u, entry))
    ensures Stage.InOrder(PeerLog(u, entry)[..7], ConfigOf(u, u.peer), u.bundle.k3sVersion)
  {
    PeerRecords(u, entry);
    UpExtends(Joining(u), PeerTokened(u), ConfigOf(u, u.peer), u.bundle.k3sVersion, entry);
    PeerUpShape(u, entry);
    hide Sensible, Stage.Write, Stage.Admitted, Joining, PeerPrepared, PeerTokened, PeerJoined, PeerUp, ConfigOf;
    var run, log, up := Joining(u), PeerLog(u, entry), PeerUp(u, entry);
    forall i | 1 <= i < |log| ensures Stage.Write(run, log[i - 1], log[i]) {
      if 3 <= i < 7 { assert log[i - 1] == up[i - 3] && log[i] == up[i - 2] && Stage.Write(run, up[i - 3], up[i - 2]); }
    }
  }

  lemma PeerUpShape(u: Setup, entry: string)
    ensures var up := PeerUp(u, entry);
            |up| == 5 && up[0] == PeerTokened(u) && up == UpFrom(PeerTokened(u), ConfigOf(u, u.peer), u.bundle.k3sVersion, entry)
  {
  }

  lemma PeerJoinedIs(u: Setup, entry: string)
    ensures PeerJoined(u, entry)
         == Disk(Some(PeerReceipt(u).(phase := R.Joined, nodeUID := UID)), None, ReleaseOwned, Some(u.bundle.k3sVersion),
                 Some(Rendered(ConfigOf(u, u.peer))), true, {entry}, map[], None, RegularToken(Artifact(u).token + "\n"))
  {
    hide ConfigOf, PeerReceipt, Artifact;
  }

  lemma JoiningInputs(u: Setup)
    ensures var run := Joining(u);
            && run.inv == u.inv && run.nodeName == u.peer.name && run.bundle == u.bundle && run.id == u.id
            && run.enrollment == Some(Artifact(u)) && run.signer == KeyDigestOf(u.key) && run.nodeUID == Some(UID)
            && run.dataDir == "/data" && run.tokenPath == "/token" && run.joinedCA == Some(CA) && run.now == run.later == 1
            && run.signal.Some? && !run.signal.value.detected
            && Stage.ClusterOf(run) == (if Stage.Bootstraps(run) then run.clusterID else u.clusterID)
    ensures Artifact(u).caHash == CADigestOf(CA) && Artifact(u).clusterID == u.clusterID
  {
    hide Fingerprint;
  }

  lemma PeerUpReceipt(u: Setup)
    requires Sensible(u)
    ensures Stage.UpReceipt(Joining(u), None, PeerReceipt(u).(phase := R.Joined, nodeUID := UID), None)
    ensures FindNode(u.inv.nodes, u.peer.name) == Some(u.peer) && !Stage.Bootstraps(Joining(u))
  {
    JoinedValid(u);
    PeerReceipts(u);
    JoiningInputs(u);
    hide Sensible, R.Valid, ClusterTopology.Valid, Fingerprint, FindNode, Artifact, Joining, Stage.ClusterOf, Stage.JoinedReceipt,
         Stage.NewReceipt;
  }

  lemma PeerIsUp(u: Setup, entry: string)
    requires Sensible(u)
    ensures Stage.BroughtUp(Joining(u), EMPTY_DISK, PeerJoined(u, entry)) && Stage.JoinedRightCluster(Joining(u))
  {
    hide Sensible, FindNode, PeerJoined, PeerReceipt, Artifact, Joining, Stage.UpReceipt, K3sConfig.MemberConfig, Stage.ClusterOf;
    PeerUpReceipt(u);
    PeerInPlace(u, entry);
    PeerJoinedIs(u, entry);
    JoiningInputs(u);
  }

  // ---- Logs played in the cluster --------------------------------------------------------------

  function At(boot: Disk, peer: Disk, minted: set<Enrollment>): System { System(map[0 := boot, 1 := peer], minted) }

  function With(s: System, h: HostId, d: Disk): System { s.(disks := s.disks[h := d]) }

  /** The writes of one staging run, one after the other, continue a behaviour. */
  lemma {:induction false} PlayStage(states: seq<System>, events: seq<Event>, s: System, h: HostId, run: Stage.Run, log: seq<Disk>, n: nat)
    returns (states': seq<System>, events': seq<Event>)
    requires Behaviour(states, events) && states != [] && states[|states| - 1] == s
    requires n < |log| && Stage.Extends(run, [log[0]], log) && h in s.disks && s.disks[h] == log[0]
    requires run.enrollment.Some? ==> run.enrollment.value in s.minted
    requires forall i | 0 < i < |log| && log[i].signer != log[i - 1].signer :: FreshKey(With(s, h, log[i - 1]), run.freshKey)
    ensures Behaviour(states', events') && states <= states' && |states'| == |states| + n && states'[|states'| - 1] == With(s, h, log[n])
    ensures events <= events' && forall i | |events| <= i < |events'| :: events'[i] == StageWrite(h, run)
  {
    hide Behaviour, Step, Stage.Write, FreshKey;
    if n == 0 {
      assert With(s, h, log[0]) == s;
      return states, events;
    }
    states', events' := PlayStage(states, events, s, h, run, log, n - 1);
    var now, next := With(s, h, log[n - 1]), With(s, h, log[n]);
    StageLogIsSteps(now, h, run, [log[0]], log, n);
    assert now.(disks := now.disks[h := log[n]]) == next;
    Extended(states', events', StageWrite(h, run), next);
    states', events' := states' + [next], events' + [StageWrite(h, run)];
  }

  lemma {:induction false} PlayFinalize(states: seq<System>, events: seq<Event>, s: System, h: HostId, run: Finalize.Run, open: bool,
                                        log: seq<Disk>, n: nat)
    returns (states': seq<System>, events': seq<Event>)
    requires Behaviour(states, events) && states != [] && states[|states| - 1] == s
    requires n < |log| && Finalize.Extends(run, open, [log[0]], log) && h in s.disks && s.disks[h] == log[0]
    requires forall i | 0 < i < |log| :: log[i].signer == log[i - 1].signer
    ensures Behaviour(states', events') && states <= states' && |states'| == |states| + n && states'[|states'| - 1] == With(s, h, log[n])
    ensures events <= events' && forall i | |events| <= i < |events'| :: events'[i] == FinalizeWrite(h, run, open)
  {
    hide Behaviour, Step, Finalize.Write, FreshKey;
    if n == 0 {
      assert With(s, h, log[0]) == s;
      return states, events;
    }
    states', events' := PlayFinalize(states, events, s, h, run, open, log, n - 1);
    var now, next := With(s, h, log[n - 1]), With(s, h, log[n]);
    FinalizeLogIsSteps(now, h, run, open, [log[0]], log, n);
    assert now.(disks := now.disks[h := log[n]]) == next;
    Extended(states', events', FinalizeWrite(h, run, open), next);
    states', events' := states' + [next], events' + [FinalizeWrite(h, run, open)];
  }

  lemma MintStep(u: Setup, boot: Disk, peer: Disk)
    requires Sensible(u) && boot.receipt == Some(Staged(u)) && boot.signer == Some(u.key)
    ensures Step(At(boot, peer, {}), Mint(0, u.inv, Input(u)), At(boot, peer, {Artifact(u)}))
  {
    MintsForPeer(u);
    hide EnrollmentCreate.MayMint, EnrollmentCreate.Minted, Sensible;
    assert {} + {Artifact(u)} == {Artifact(u)};
  }

  lemma Extended(states: seq<System>, events: seq<Event>, e: Event, s: System)
    requires Behaviour(states, events) && Step(states[|states| - 1], e, s)
    ensures Behaviour(states + [s], events + [e])
  {
    hide Step, Init;
  }

  lemma Begun()
    ensures Behaviour([At(EMPTY_DISK, EMPTY_DISK, {})], [])
  {
  }

  /** The key is on neither host before it is stored. */
  lemma BootKeyIsFresh(u: Setup, n: Node, entry: string, i: nat)
    requires 0 < i < |BootLog(u, n, entry)| && BootLog(u, n, entry)[i].signer != BootLog(u, n, entry)[i - 1].signer
    ensures FreshKey(With(At(EMPTY_DISK, EMPTY_DISK, {}), 0, BootLog(u, n, entry)[i - 1]), u.key)
  {
    hide ConfigOf;
  }

  lemma BootRuns(u: Setup, n: Node, entry: string) returns (states: seq<System>, events: seq<Event>)
    requires Sensible(u) && n in u.inv.nodes && n.name == u.inv.bootstrapNode
    ensures Behaviour(states, events) && |states| > 0
    ensures states[|states| - 1] == At(BootReady(u, n, entry), EMPTY_DISK, {})
  {
    hide *;
    Begun();
    BootLogs(u, n, entry);
    var start, log, run := At(EMPTY_DISK, EMPTY_DISK, {}), BootLog(u, n, entry), Boot(u, n);
    BootShape(u, n, entry);
    forall i | 0 < i < |log| && log[i].signer != log[i - 1].signer ensures FreshKey(With(start, 0, log[i - 1]), run.freshKey) {
      BootKeyIsFresh(u, n, entry, i);
    }
    states, events := PlayStage([start], [], start, 0, run, log, 7);
  }

  lemma BootShape(u: Setup, n: Node, entry: string)
    ensures |BootLog(u, n, entry)| == 8 && BootLog(u, n, entry)[0] == EMPTY_DISK && BootLog(u, n, entry)[7] == BootReady(u, n, entry)
    ensures Boot(u, n).enrollment.None? && Boot(u, n).freshKey == u.key
    ensures var start := At(EMPTY_DISK, EMPTY_DISK, {});
            0 in start.disks && start.disks[0] == EMPTY_DISK
            && With(start, 0, BootReady(u, n, entry)) == At(BootReady(u, n, entry), EMPTY_DISK, {})
  {
    hide BootKeyed, BootReady;
    assert map[0 := EMPTY_DISK, 1 := EMPTY_DISK][0 := BootReady(u, n, entry)] == map[0 := BootReady(u, n, entry), 1 := EMPTY_DISK];
  }

  lemma PeerShape(u: Setup, boot: Disk, entry: string)
    ensures |PeerLog(u, entry)| == 8 && PeerLog(u, entry)[0] == EMPTY_DISK && PeerLog(u, entry)[7] == PeerJoined(u, entry)
    ensures forall i | 0 < i < 8 :: PeerLog(u, entry)[i].signer == PeerLog(u, entry)[i - 1].signer
    ensures Joining(u).enrollment == Some(Artifact(u))
    ensures var start := At(boot, EMPTY_DISK, {Artifact(u)});
            1 in start.disks && start.disks[1] == EMPTY_DISK && Artifact(u) in start.minted
            && With(start, 1, PeerJoined(u, entry)) == At(boot, PeerJoined(u, entry), {Artifact(u)})
  {
    hide ConfigOf, Artifact;
    assert map[0 := boot, 1 := EMPTY_DISK][1 := PeerJoined(u, entry)] == map[0 := boot, 1 := PeerJoined(u, entry)];
  }

  lemma ReadyToMint(u: Setup, n: Node, entry: string)
    ensures BootReady(u, n, entry).receipt == Some(Staged(u)) && BootReady(u, n, entry).signer == Some(u.key)
  {
    BootReadyIs(u, n, entry);
    hide BootReady, Staged;
  }

  /** On fresh hosts both commands succeed, unless a call fails. */
  lemma BootMayStage(u: Setup, n: Node)
    requires Sensible(u) && n in u.inv.nodes && n.name == u.inv.bootstrapNode
    ensures Stage.MayStage(Boot(u, n), EMPTY_DISK)
  {
    BootAdmits(u, n, None);
    assert !Blank("/data") by { assert !IsSpace("/data"[0]); }
    hide Stage.Admits, Stage.MayStage, ClusterTopology.Valid, Blank;
    Stage.FirstStageSucceeds(Boot(u, n), EMPTY_DISK);
  }

  lemma PeerMayStage(u: Setup)
    requires Sensible(u)
    ensures Stage.MayStage(Joining(u), EMPTY_DISK)
  {
    assert !Blank("/data") && !Blank("/token") by { assert !IsSpace("/data"[0]) && !IsSpace("/token"[0]); }
    hide Stage.Admits, Stage.MayStage, ClusterTopology.Valid, Blank, Fingerprint, Joining, Artifact, Finalize.ValidUID;
    PeerAdmits(u, None);
    JoiningInputs(u);
    UIDIsValid();
    Stage.FirstStageSucceeds(Joining(u), EMPTY_DISK);
  }

  /** From two fresh hosts, by the two commands' own logs, to a bootstrap and a peer that are brought up, the one pinned to the
      other's key. */
  lemma PeersCanJoin(u: Setup, n: Node, entry: string) returns (states: seq<System>, events: seq<Event>)
    requires Sensible(u) && n in u.inv.nodes && n.name == u.inv.bootstrapNode
    ensures Behaviour(states, events) && |states| > 0
    ensures states[|states| - 1] == At(BootReady(u, n, entry), PeerJoined(u, entry), {Artifact(u)})
    ensures Stage.MayStage(Boot(u, n), EMPTY_DISK) && Stage.BroughtUp(Boot(u, n), EMPTY_DISK, BootReady(u, n, entry))
    ensures Stage.MayStage(Joining(u), EMPTY_DISK) && Stage.BroughtUp(Joining(u), EMPTY_DISK, PeerJoined(u, entry))
    ensures PinnedTo(PeerJoined(u, entry), BootReady(u, n, entry))
  {
    hide *;
    var boot := BootReady(u, n, entry);
    BootMayStage(u, n);
    PeerMayStage(u);
    BootIsUp(u, n, entry);
    PeerIsUp(u, entry);
    PeerPins(u, n, entry);
    ReadyToMint(u, n, entry);
    states, events := BootRuns(u, n, entry);
    MintStep(u, boot, EMPTY_DISK);
    var minted := At(boot, EMPTY_DISK, {Artifact(u)});
    states, events := Continue(states, events, Mint(0, u.inv, Input(u)), At(boot, EMPTY_DISK, {}), minted);
    PeerLogs(u, entry);
    PeerShape(u, boot, entry);
    states, events := PlayStage(states, events, minted, 1, Joining(u), PeerLog(u, entry), 7);
  }

  lemma PeerPins(u: Setup, n: Node, entry: string)
    requires Sensible(u)
    ensures PinnedTo(PeerJoined(u, entry), BootReady(u, n, entry))
  {
    PeerIsNotBootstrap(u);
    ReadyToMint(u, n, entry);
    hide Sensible, R.IsBootstrap, BootReady, ConfigOf, Artifact;
  }

  lemma PeerIsNotBootstrap(u: Setup)
    requires Sensible(u)
    ensures !R.IsBootstrap(PeerReceipt(u).(phase := R.Joined, nodeUID := UID))
  {
    hide ClusterTopology.Valid, Blank;
  }

  // ---- Finalizing ------------------------------------------------------------------------------

  function ItemOf(u: Setup, n: Node): Readiness.Item {
    Readiness.Item(n.name, UID, {Readiness.CONTROL_PLANE_LABEL, Readiness.ETCD_LABEL}, false, [],
                   [Readiness.NodeAddress("InternalIP", n.address)], [Readiness.Condition("Ready", "True")], u.bundle.k3sVersion)
  }

  function Items(u: Setup): seq<Readiness.Item> { seq(|u.inv.nodes|, i requires 0 <= i < |u.inv.nodes| => ItemOf(u, u.inv.nodes[i])) }

  function Finalizing(u: Setup, n: Node): Finalize.Run {
    Finalize.Run(u.bundle, u.id, u.inv, n.name, {n.address}, "/data", [], Some(O.Signal(true, true, false, "", [])), true,
                 Some(Items(u)), map m | m in u.inv.nodes :: Https(m.address) := "ok",
                 map i | 0 <= i < |u.inv.nodes| :: u.inv.nodes[i].name := UID,
                 Some("ca"), Some(O.Signal(true, true, true, u.bundle.k3sVersion, [])),
                 Some(Finalize.REQUIRED_PORTS), u.key, 1)
  }

  lemma ItemFits(u: Setup, n: Node)
    requires Sensible(u) && n in u.inv.nodes
    ensures Readiness.Fits(ItemOf(u, n), n, u.bundle.k3sVersion, map[])
  {
    NodeNameNotBlank(n.name);
    hide Blank, Sensible, NodeName, Trim;
  }

  lemma ItemsPair(u: Setup)
    requires Sensible(u)
    ensures exists f :: Readiness.Pairing(f, u.inv.nodes, Items(u), u.bundle.k3sVersion, map[])
  {
    var f: seq<nat> := seq(|u.inv.nodes|, i requires 0 <= i < |u.inv.nodes| => i);
    forall n | n in u.inv.nodes ensures Readiness.Fits(ItemOf(u, n), n, u.bundle.k3sVersion, map[]) { ItemFits(u, n); }
    hide Readiness.Fits, Sensible, ItemOf;
    assert forall i | 0 <= i < |f| :: u.inv.nodes[i] in u.inv.nodes && Items(u)[f[i]] == ItemOf(u, u.inv.nodes[i]);
    assert Readiness.Pairing(f, u.inv.nodes, Items(u), u.bundle.k3sVersion, map[]);
  }

  lemma EndpointsAnswer(u: Setup, n: Node, m: Node)
    requires m in u.inv.nodes
    ensures var answers := Finalizing(u, n).answers;
            Https(m.address) in answers && Trim(answers[Https(m.address)]) == "ok"
  {
    TrimStable("ok");
  }

  lemma FinalizingInputs(u: Setup, n: Node)
    ensures var run := Finalizing(u, n);
            run.inv == u.inv && run.items == Some(Items(u)) && run.bundle == u.bundle && run.id == u.id && run.nodeName == n.name
            && run.local == {n.address} && run.reachable && run.ca.Some? && run.signal.Some? && run.signal.value.active && run.now == 1
  {
    hide Items;
  }

  lemma SubstrateIsReady(u: Setup, n: Node)
    requires Sensible(u)
    ensures Finalize.SubstrateReady(Finalizing(u, n))
  {
    hide Sensible, Items, Trim, Readiness.Pairing, Finalizing;
    FinalizingInputs(u, n);
    ItemsPair(u);
    forall m | m in u.inv.nodes
      ensures Https(m.address) in Finalizing(u, n).answers && Trim(Finalizing(u, n).answers[Https(m.address)]) == "ok"
    {
      EndpointsAnswer(u, n, m);
    }
  }

  lemma UIDIsValid()
    ensures Finalize.ValidUID(UID) && !Blank(UID)
  {
    assert !IsSpace(UID[0]);
  }

  lemma UIDsAreKnown(u: Setup, n: Node)
    ensures Finalize.UIDsKnown(Finalizing(u, n))
  {
    UIDIsValid();
    hide Finalize.ValidUID, Items;
  }

  function Final(u: Setup): R.BootstrapState { Staged(u).(phase := R.Finalized, nodeUID := UID) }

  lemma FinalValid(u: Setup)
    requires Sensible(u)
    ensures R.Valid(Final(u))
  {
    var n := Bootstrap(u);
    NodeNameNotBlank(n.name);
    UIDIsValid();
    hide Blank, Canonical, Finalize.ValidUID;
  }

  lemma FinalizeAdmits(u: Setup, n: Node)
    requires Sensible(u) && n in u.inv.nodes && n.name == u.inv.bootstrapNode
    ensures Finalize.Admits(Finalizing(u, n), Some(Staged(u)))
  {
    hide R.Valid, ClusterTopology.Valid, Fingerprint, FindNode, Blank, Finalizing;
    FinalizingInputs(u, n);
    PreparedValid(u, n, NO_DIGEST);
  }

  lemma BootstrapUID(u: Setup, n: Node)
    requires n in u.inv.nodes
    ensures Finalize.UIDOf(Finalizing(u, n), n.name) == UID
  {
    var i :| 0 <= i < |u.inv.nodes| && u.inv.nodes[i] == n;
  }

  /** The gates of finalize, all of them, at the server as staging left it. */
  lemma GatesPassed(u: Setup, n: Node, entry: string)
    requires Sensible(u) && n in u.inv.nodes && n.name == u.inv.bootstrapNode
    ensures Finalize.Underway(Finalizing(u, n), BootReady(u, n, entry)) && !Finalize.Predates(BootReady(u, n, entry))
  {
    FinalizeAdmits(u, n);
    SubstrateIsReady(u, n);
    UIDsAreKnown(u, n);
    FinalizingInputs(u, n);
    BootReadyIs(u, n, entry);
    hide Sensible, Finalize.Admits, Finalize.SubstrateReady, Finalize.UIDsKnown, BootReady, Finalizing, ConfigOf, Fingerprint;
  }

  lemma FinalFollows(u: Setup, n: Node)
    requires Sensible(u) && n in u.inv.nodes && n.name == u.inv.bootstrapNode
    ensures Finalize.FinalReceipt(Finalizing(u, n), Staged(u), Final(u)) && Staged(u).phase == R.ServerReady
    ensures Staged(u).signer == KeyDigestOf(u.key)
  {
    hide Sensible, R.Valid, Fingerprint, Finalizing, Finalize.UIDOf;
    FinalValid(u);
    BootstrapUID(u, n);
    FinalizingInputs(u, n);
  }

  // ---- The finalizing run's log ----------------------------------------------------------------

  /** The chart rollout; PostgreSQL starts to write. */
  function RolledOut(u: Setup, d: Disk): Disk { d.(db := if u.bundle.postgres then map["pgdata" := 2] else map[]) }

  function WithInstalled(u: Setup, n: Node, d: Disk): Disk {
    d.(installed := Some(Finalize.NewInstalled(Finalizing(u, n), Staged(u))))
  }

  function FinalLog(u: Setup, n: Node, d: Disk): seq<Disk> {
    var installed := WithInstalled(u, n, RolledOut(u, d));
    [d, RolledOut(u, d), installed, installed.(receipt := Some(Final(u)))]
  }

  lemma RolloutIsWrite(run: Finalize.Run, d: Disk, db: map<string, int>)
    requires Finalize.Underway(run, d) && d.db == map[]
    ensures Finalize.Write(run, true, d, d.(db := db))
  {
    hide Finalize.Passed, Finalize.RecordWrite, Finalize.WipesData;
  }

  lemma InstallingIsWrite(run: Finalize.Run, d: Disk, s: R.BootstrapState)
    requires Finalize.Underway(run, d) && d.receipt == Some(s) && d.installed.None?
    requires d.signer.Some? && KeyDigestOf(d.signer.value) == s.signer
    ensures Finalize.Write(run, true, d, d.(installed := Some(Finalize.NewInstalled(run, s))))
  {
    hide Finalize.Passed, Finalize.HostWrite, Finalize.NewInstalled;
  }

  lemma RecordingIsWrite(run: Finalize.Run, d: Disk, s: R.BootstrapState, s': R.BootstrapState)
    requires Finalize.Underway(run, d) && d.receipt == Some(s) && d.installed == Some(Finalize.NewInstalled(run, s))
    requires Finalize.FinalReceipt(run, s, s')
    ensures Finalize.Write(run, true, d, d.(receipt := Some(s')))
  {
    hide Finalize.Passed, Finalize.HostWrite, Finalize.NewInstalled, Finalize.FinalReceipt;
  }

  lemma FinalLogs(u: Setup, n: Node, d: Disk)
    requires Sensible(u) && n in u.inv.nodes && n.name == u.inv.bootstrapNode
    requires Finalize.Underway(Finalizing(u, n), d)
    requires d.receipt == Some(Staged(u)) && d.signer == Some(u.key) && d.installed.None? && d.db == map[]
    ensures Finalize.Extends(Finalizing(u, n), true, [d], FinalLog(u, n, d))
    ensures forall i | 0 < i < 4 :: FinalLog(u, n, d)[i].signer == FinalLog(u, n, d)[i - 1].signer
  {
    hide Sensible, Finalize.Passed, Finalize.NewInstalled, Finalize.FinalReceipt, Finalizing, Final, Staged, Finalize.Write;
    FinalFollows(u, n);
    var run, log := Finalizing(u, n), FinalLog(u, n, d);
    RolloutIsWrite(run, d, log[1].db);
    InstallingIsWrite(run, log[1], Staged(u));
    RecordingIsWrite(run, log[2], Staged(u), Final(u));
  }

  lemma BootMayFinalize(u: Setup, n: Node, entry: string)
    requires Sensible(u) && Finalize.Underway(Finalizing(u, n), BootReady(u, n, entry))
    ensures Finalize.MayFinalize(Finalizing(u, n), BootReady(u, n, entry))
  {
    hide Finalize.Underway, Finalize.MayFinalize, BootReady, ConfigOf, Sensible, Items;
    BootReadyIs(u, n, entry);
    Finalize.AdoptionSucceeds(Finalizing(u, n), BootReady(u, n, entry));
  }

  /** And on, by the log of a finalize that adopts the running server, to a finalized bootstrap with its installed receipt. */
  lemma ClustersCanFinalize(u: Setup, n: Node, entry: string) returns (states: seq<System>, events: seq<Event>)
    requires Sensible(u) && n in u.inv.nodes && n.name == u.inv.bootstrapNode
    ensures Finalize.Underway(Finalizing(u, n), BootReady(u, n, entry)) && Finalize.MayFinalize(Finalizing(u, n), BootReady(u, n, entry))
    ensures Behaviour(states, events) && |states| > 3
    ensures states[|states| - 4] == At(BootReady(u, n, entry), PeerJoined(u, entry), {Artifact(u)})
    ensures states[|states| - 1] == At(FinalLog(u, n, BootReady(u, n, entry))[3], PeerJoined(u, entry), {Artifact(u)})
    ensures var d := FinalLog(u, n, BootReady(u, n, entry))[3];
            d.receipt == Some(Final(u)) && d.installed == Some(Finalize.NewInstalled(Finalizing(u, n), Staged(u))) && d.active
  {
    hide *;
    var d, peer := BootReady(u, n, entry), PeerJoined(u, entry);
    states, events := PeersCanJoin(u, n, entry);
    GatesPassed(u, n, entry);
    BootMayFinalize(u, n, entry);
    FinalLogShape(u, n, entry, peer);
    FinalLogs(u, n, d);
    ghost var before := states;
    states, events := PlayFinalize(states, events, At(d, peer, {Artifact(u)}), 0, Finalizing(u, n), true, FinalLog(u, n, d), 3);
    assert states[|before| - 1] == before[|before| - 1];
  }

  lemma FinalLogShape(u: Setup, n: Node, entry: string, peer: Disk)
    ensures var d := BootReady(u, n, entry); var log := FinalLog(u, n, d);
            && d.receipt == Some(Staged(u)) && d.signer == Some(u.key) && d.installed.None? && d.db == map[]
            && |log| == 4 && log[0] == d
            && log[3].receipt == Some(Final(u)) && log[3].installed == Some(Finalize.NewInstalled(Finalizing(u, n), Staged(u))) && log[3].active
            && 0 in At(d, peer, {Artifact(u)}).disks && At(d, peer, {Artifact(u)}).disks[0] == d
            && With(At(d, peer, {Artifact(u)}), 0, log[3]) == At(log[3], peer, {Artifact(u)})
  {
    BootReadyIs(u, n, entry);
    hide BootReady, Final, Staged, Finalize.NewInstalled, Finalizing, Artifact;
    var d := BootReady(u, n, entry);
    assert map[0 := d, 1 := peer][0 := FinalLog(u, n, d)[3]] == map[0 := FinalLog(u, n, d)[3], 1 := peer];
  }

  // ---- The one way to lose a staged server's data ----------------------------------------------

  /** Finalize passed its gates on the running server; when the installation looks, systemd lists no unit and no port is bound. */
  function Missing(u: Setup, n: Node): Finalize.Run {
    Finalizing(u, n).(installSignal := Some(O.Signal(false, false, false, "", [])), portsInUse := Some({}))
  }

  /** What the installation is told later makes no difference to the gates. */
  lemma GatesComeFirst(run: Finalize.Run, late: Finalize.Run, d: Disk)
    requires late == run.(installSignal := late.installSignal, portsInUse := late.portsInUse)
    ensures Finalize.Underway(late, d) <==> Finalize.Underway(run, d)
  {
    hide R.Valid, ClusterTopology.Valid, R.Matches, R.MatchesSubstrate, Readiness.Pairing, FindNode, Trim, Finalize.ValidUID;
  }

  lemma MissingMayLose(u: Setup, n: Node, entry: string)
    requires Sensible(u) && n in u.inv.nodes && n.name == u.inv.bootstrapNode
    ensures Finalize.MayLose(Missing(u, n), BootReady(u, n, entry))
  {
    hide Sensible, Finalizing, Staged, ConfigOf, BootReady, Finalize.Underway, Finalize.Predates;
    GatesPassed(u, n, entry);
    GatesComeFirst(Finalizing(u, n), Missing(u, n), BootReady(u, n, entry));
    BootReadyIs(u, n, entry);
  }

  lemma EnvironmentStep(d: Disk, d': Disk, peer: Disk, minted: set<Enrollment>)
    requires Stage.SameRecords(d, d')
    ensures Step(At(d, peer, minted), Environment(0), At(d', peer, minted))
  {
    assert At(d', peer, minted).disks == At(d, peer, minted).disks[0 := d'];
  }

  lemma WipeStep(run: Finalize.Run, d: Disk, peer: Disk, minted: set<Enrollment>)
    requires Finalize.MayLose(run, d) && d.db == map[]
    ensures Step(At(d, peer, minted), FinalizeWrite(0, run, true), At(d.(data := {}), peer, minted))
  {
    Finalize.WipeDecision(run, d);
    hide Finalize.Admits, Finalize.SubstrateReady, Finalize.UIDsKnown, Finalize.WipesData, Finalize.RecordWrite, Finalize.Predates;
    assert At(d.(data := {}), peer, minted).disks == At(d, peer, minted).disks[0 := d.(data := {})];
  }

  /** A server as staging brought it up passes all of finalize's gates, then stops, and its unit is not listed: its data goes. */
  lemma StoppedServerCanBeWiped(u: Setup, n: Node, entry: string) returns (states: seq<System>, events: seq<Event>, run: Finalize.Run)
    requires Sensible(u) && n in u.inv.nodes && n.name == u.inv.bootstrapNode
    ensures Behaviour(states, events) && |states| > 2
    ensures forall i | |states| - 3 <= i < |states| :: 0 in states[i].disks
    ensures var up := states[|states| - 3].disks[0];
            && Stage.BroughtUp(Boot(u, n), EMPTY_DISK, up) && up.active && up.data == {entry}
            && Finalize.Underway(run, up) && Finalize.MayLose(run, up)
            && events[|events| - 2] == Environment(0) && states[|states| - 2].disks[0] == up.(active := false)
            && events[|events| - 1] == FinalizeWrite(0, run, true) && states[|states| - 1].disks[0] == up.(active := false, data := {})
  {
    hide *;
    run := Missing(u, n);
    var up, peer, minted := BootReady(u, n, entry), PeerJoined(u, entry), {Artifact(u)};
    MissingMayLose(u, n, entry);
    StoppedMayLose(u, n, entry, run);
    states, events := PeersCanJoin(u, n, entry);
    var down := up.(active := false);
    var start, stopped, wiped := At(up, peer, minted), At(down, peer, minted), At(down.(data := {}), peer, minted);
    EnvironmentStep(up, down, peer, minted);
    states, events := Continue(states, events, Environment(0), start, stopped);
    WipeStep(run, down, peer, minted);
    states, events := Continue(states, events, FinalizeWrite(0, run, true), stopped, wiped);
    FirstDisk(up, peer, minted);
    FirstDisk(down, peer, minted);
    FirstDisk(down.(data := {}), peer, minted);
  }

  lemma FirstDisk(d: Disk, peer: Disk, minted: set<Enrollment>)
    ensures 0 in At(d, peer, minted).disks && At(d, peer, minted).disks[0] == d
  {
  }

  lemma StoppedMayLose(u: Setup, n: Node, entry: string, run: Finalize.Run)
    requires Finalize.MayLose(run, BootReady(u, n, entry))
    ensures var up := BootReady(u, n, entry); var down := up.(active := false);
            && Finalize.Underway(run, up) && Finalize.MayLose(run, down) && Stage.SameRecords(up, down)
            && up.active && up.data == {entry} && down.db == map[]
  {
    BootReadyIs(u, n, entry);
    hide BootReady, Finalize.Passed, Staged, ConfigOf;
  }

  lemma Continue(before: seq<System>, events0: seq<Event>, e: Event, s: System, s': System)
    returns (states: seq<System>, events: seq<Event>)
    requires Behaviour(before, events0) && |before| > 0 && before[|before| - 1] == s && Step(s, e, s')
    ensures Behaviour(states, events) && states == before + [s'] && events == events0 + [e]
  {
    hide *;
    Extended(before, events0, e, s');
    states, events := before + [s'], events0 + [e];
  }
}
