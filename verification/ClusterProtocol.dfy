/** Any number of hosts staging, enrolling and finalizing at once; a crash is a run that makes no further write. */
module ClusterProtocol {
  import opened Text
  import opened ClusterTopology
  import opened Keys
  import opened EnrollmentArtifact
  import opened HostDisk
  import EnrollmentCreate
  import Stage
  import Finalize
  import R = Receipt

  type HostId = nat

  /** The disks of all hosts and every enrollment that was ever written. */
  datatype System = System(disks: map<HostId, Disk>, minted: set<Enrollment>)

  datatype Event =
    | StageWrite(host: HostId, stage: Stage.Run)
    | FinalizeWrite(host: HostId, finalize: Finalize.Run, open: bool)
    | Mint(host: HostId, inv: Inventory, input: EnrollmentCreate.MintInputs)
    | Environment(host: HostId)

  /** Ideal key generation: nobody has or pins a key before it is generated. */
  predicate FreshKey(s: System, key: Key) {
    forall h | h in s.disks ::
      && s.disks[h].signer != Some(key)
      && (s.disks[h].receipt.Some? ==> s.disks[h].receipt.value.signer != KeyDigestOf(key))
  }

  /** Ideal signatures: what verifies under a host's key was minted with it. */
  predicate Unforged(s: System, e: Option<Enrollment>) {
    e.Some? ==>
      forall h | h in s.disks :: s.disks[h].signer.Some? && GenuineUnder(e.value, s.disks[h].signer.value) ==> e.value in s.minted
  }

  ghost predicate Step(s: System, e: Event, s': System) {
    && e.host in s.disks
    && var d := s.disks[e.host];
       match e
       case StageWrite(h, run) =>
         && s'.minted == s.minted && h in s'.disks && s'.disks == s.disks[h := s'.disks[h]]
         && Stage.Write(run, d, s'.disks[h])
         && Unforged(s, run.enrollment)
         && (s'.disks[h].signer != d.signer ==> FreshKey(s, run.freshKey))
       case FinalizeWrite(h, run, open) =>
         && s'.minted == s.minted && h in s'.disks && s'.disks == s.disks[h := s'.disks[h]]
         && Finalize.Write(run, open, d, s'.disks[h])
         && (s'.disks[h].signer != d.signer ==> FreshKey(s, run.freshKey))
       case Mint(h, inv, input) =>
         && s'.disks == s.disks
         && input.signer == d.signer
         && EnrollmentCreate.MayMint(inv, d.receipt, input)
         && s'.minted == s.minted + {EnrollmentCreate.Minted(inv, d.receipt.value, input)}
       case Environment(h) =>
         // K3s, PostgreSQL and the operator: anything but the records this protocol keeps
         && s'.minted == s.minted && h in s'.disks && s'.disks == s.disks[h := s'.disks[h]]
         && Stage.SameRecords(d, s'.disks[h])
  }

  predicate Fresh(d: Disk) { d.receipt.None? && d.installed.None? && d.signer.None? }

  predicate Init(s: System) {
    s.minted == {} && forall h | h in s.disks :: Fresh(s.disks[h])
  }

  // ---- The invariant ---------------------------------------------------------------------------

  predicate Ready(r: R.BootstrapState) { r.phase == R.ServerReady || r.phase == R.Finalized }

  /** A bootstrap server is prepared, ready or finalized under its own key; a peer is prepared or joined under a pinned one. */
  predicate ReceiptSound(r: R.BootstrapState, key: Option<Key>) {
    && R.Valid(r)
    && if R.IsBootstrap(r)
       then if Ready(r) then key.Some? && r.signer == KeyDigestOf(key.value)
            else r.phase == R.Prepared && r.signer == NO_DIGEST
       else (r.phase == R.Prepared || r.phase == R.Joined) && r.signer.KeyDigestOf?
  }

  /** The installed receipt is the product of the bootstrap receipt. */
  predicate InstallSound(i: R.InstalledState, r: R.BootstrapState) {
    && Ready(r) && R.IsBootstrap(r)
    && i.embeddedEtcd
    && i.instanceID == r.clusterID && i.releaseID == r.releaseID && i.version == Trim(r.bundleVersion)
    && i.name == r.name && i.profile == r.profile && i.zone == r.zone
  }

  predicate HostSound(d: Disk) {
    && (d.receipt.Some? ==> ReceiptSound(d.receipt.value, d.signer))
    && (d.signer.Some? ==> d.receipt.Some? && R.IsBootstrap(d.receipt.value))
    && (d.installed.Some? ==> d.receipt.Some? && InstallSound(d.installed.value, d.receipt.value))
    && (d.receipt.Some? && d.receipt.value.phase == R.Finalized ==> d.installed.Some?)
  }

  /** The artifact was written by this host, from its receipt. */
  predicate MintedOn(d: Disk, e: Enrollment) {
    && d.signer.Some? && GenuineUnder(e, d.signer.value)
    && d.receipt.Some? && Ready(d.receipt.value)
    && e.clusterID == d.receipt.value.clusterID && e.fingerprint == d.receipt.value.fingerprint
    && e.name == d.receipt.value.name && e.profile == d.receipt.value.profile && e.zone == d.receipt.value.zone
  }

  /** The peer's receipt pins the key of this host. */
  predicate PinnedTo(peer: Disk, d: Disk) {
    && peer.receipt.Some? && !R.IsBootstrap(peer.receipt.value)
    && d.signer.Some? && peer.receipt.value.signer == KeyDigestOf(d.signer.value)
  }

  ghost predicate Agrees(peer: Disk, d: Disk) {
    PinnedTo(peer, d) ==>
      d.receipt.Some? && Ready(d.receipt.value) && R.SameCluster(peer.receipt.value, d.receipt.value)
  }

  ghost predicate Inv(s: System) {
    && (forall h | h in s.disks :: HostSound(s.disks[h]))
    && (forall g, h | g in s.disks && h in s.disks && g != h ::
          s.disks[g].signer.Some? ==> s.disks[g].signer != s.disks[h].signer)
    && (forall e | e in s.minted :: exists h | h in s.disks :: MintedOn(s.disks[h], e))
    && (forall p, h | p in s.disks && h in s.disks :: Agrees(s.disks[p], s.disks[h]))
  }

  /** How a host's receipt may change: not at all, forward by one phase, or by recording a release. */
  predicate Moves(o: Option<R.BootstrapState>, o': Option<R.BootstrapState>) {
    || o' == o
    || (o.None? && o'.Some? && o'.value.phase == R.Prepared)
    || (&& o.Some? && o'.Some?
        && Kept(o.value, o'.value)
        && (|| o'.value.phase == o.value.phase
            || (o.value.phase == R.Prepared && o'.value.phase == R.ServerReady && R.IsBootstrap(o.value))
            || (o.value.phase == R.Prepared && o'.value.phase == R.Joined && !R.IsBootstrap(o.value))
            || (o.value.phase == R.ServerReady && o'.value.phase == R.Finalized && R.IsBootstrap(o.value))))
  }

  /** What a receipt never gives up: its node, its inventory, hence its role, its cluster and its identity. */
  predicate Kept(r: R.BootstrapState, r': R.BootstrapState) {
    && r'.localNode == r.localNode && r'.fingerprint == r.fingerprint && r'.clusterID == r.clusterID
    && r'.name == r.name && r'.profile == r.profile && r'.zone == r.zone
    && r'.k3sVersion == r.k3sVersion && r'.createdAt == r.createdAt
    && (r'.signer == r.signer || (r.phase == R.Prepared && R.IsBootstrap(r)))
    && ((r.phase == R.Joined || r.phase == R.Finalized) ==> r' == r)
  }

  // ---- One write of one host -------------------------------------------------------------------

  lemma StageWriteSound(run: Stage.Run, d: Disk, d': Disk)
    requires HostSound(d) && Stage.Write(run, d, d')
    ensures HostSound(d') && Moves(d.receipt, d'.receipt)
    ensures d.signer.Some? ==> d'.signer == d.signer
    ensures d'.signer.Some? && d.signer.None? ==> d'.receipt == d.receipt && d'.signer == Some(run.freshKey)
  {
    hide Stage.Admits, Stage.ReceiptWrite, HostSound;
    StageAdmitsSound(run, d);
    if Stage.ReceiptWrite(run, d, d') {
      StageReceiptWriteSound(run, d, d');
    } else {
      StageHostWriteSound(run, d, d');
    }
  }

  lemma StageHostWriteSound(run: Stage.Run, d: Disk, d': Disk)
    requires HostSound(d) && (Stage.SignerWrite(run, d, d') || Stage.SameRecords(d, d'))
    requires d.receipt.Some? ==> d.receipt.value.localNode == run.nodeName && d.receipt.value.fingerprint == Fingerprint(run.inv)
    ensures HostSound(d')
  {
    hide R.Valid, InstallSound;
  }

  lemma StageReceiptWriteSound(run: Stage.Run, d: Disk, d': Disk)
    requires HostSound(d) && Stage.ReceiptWrite(run, d, d')
    requires d.receipt.Some? ==> d.receipt.value.localNode == run.nodeName && d.receipt.value.fingerprint == Fingerprint(run.inv)
    requires !Stage.Bootstraps(run) ==> run.signer.KeyDigestOf?
    ensures HostSound(d') && Moves(d.receipt, d'.receipt) && d'.signer == d.signer
  {
    hide R.Valid, InstallSound, ClusterTopology.Valid;
    if d.receipt.None? {
      NewReceiptRole(run, d'.receipt.value);
    }
  }

  lemma NewReceiptRole(run: Stage.Run, s: R.BootstrapState)
    requires Stage.NewReceipt(run, s)
    ensures R.Valid(s) && (R.IsBootstrap(s) <==> Stage.Bootstraps(run))
    ensures s.localNode == run.nodeName && s.fingerprint == Fingerprint(run.inv)
  {
    hide R.Valid, ClusterTopology.Valid;
  }

  /** What admission says about the receipt a run finds, and about the one it would create. */
  lemma StageAdmitsSound(run: Stage.Run, d: Disk)
    requires Stage.Admitted(run, d)
    ensures d.receipt.Some? ==> d.receipt.value.localNode == run.nodeName && d.receipt.value.fingerprint == Fingerprint(run.inv)
    ensures !Stage.Bootstraps(run) ==>
              && run.enrollment.Some? && run.signer.KeyDigestOf?
              && GenuineUnder(run.enrollment.value, run.signer.key)
              && run.enrollment.value.fingerprint == Fingerprint(run.inv)
              && R.Identity(run.enrollment.value.name, run.enrollment.value.profile, run.enrollment.value.zone) == run.id
  {
    if !Stage.Bootstraps(run) {
      ValidIsGenuine(run.enrollment.value, run.now, run.signer);
    }
  }

  lemma FinalizeWriteSound(run: Finalize.Run, open: bool, d: Disk, d': Disk)
    requires HostSound(d) && Finalize.Write(run, open, d, d')
    ensures HostSound(d') && Moves(d.receipt, d'.receipt)
    ensures d'.signer == d.signer
  {
    FinalizeAdmitsSound(run, d);
    hide R.Valid, Finalize.Admits, Finalize.SubstrateReady, Finalize.UIDsKnown;
  }

  lemma FinalizeAdmitsSound(run: Finalize.Run, d: Disk)
    requires Finalize.Admits(run, d.receipt)
    ensures d.receipt.Some?
    ensures d.receipt.value.localNode == run.inv.bootstrapNode && d.receipt.value.fingerprint == Fingerprint(run.inv)
    ensures R.Identity(d.receipt.value.name, d.receipt.value.profile, d.receipt.value.zone) == run.id
    ensures d.receipt.value.phase == R.ServerReady ==>
              d.receipt.value.releaseID == run.bundle.releaseID && d.receipt.value.bundleVersion == run.bundle.version
  {
  }

  // ---- One step of the system ------------------------------------------------------------------

  lemma InitInv(s: System)
    requires Init(s)
    ensures Inv(s)
  {
  }

  /** What one host may do to its own records without asking any other. */
  predicate LocalMove(s: System, d: Disk, d': Disk) {
    && HostSound(d') && Moves(d.receipt, d'.receipt)
    && (d.signer.Some? ==> d'.signer == d.signer)
    && (d'.signer.Some? && d.signer.None? ==> FreshKey(s, d'.signer.value))
  }

  lemma LocalMoveKeepsKeysApart(s: System, h: HostId, d': Disk)
    requires Inv(s) && h in s.disks && LocalMove(s, s.disks[h], d')
    ensures HostSound(d')
    ensures forall g | g in s.disks && g != h && d'.signer.Some? :: s.disks[g].signer != d'.signer
  {
    hide HostSound, Moves, Agrees, MintedOn;
  }

  lemma MintedSurvives(s: System, d: Disk, d': Disk, e: Enrollment)
    requires HostSound(d) && LocalMove(s, d, d') && MintedOn(d, e)
    ensures MintedOn(d', e)
  {
    hide R.Valid, FreshKey;
  }

  lemma PeerAgreementSurvives(s: System, p: Disk, p': Disk, d: Disk)
    requires HostSound(p) && LocalMove(s, p, p') && p.receipt.Some? && Agrees(p, d)
    ensures Agrees(p', d)
  {
    hide R.Valid, FreshKey;
  }

  lemma BootstrapAgreementSurvives(s: System, p: Disk, d: Disk, d': Disk, g: HostId)
    requires g in s.disks && p == s.disks[g]
    requires HostSound(d) && LocalMove(s, d, d') && Agrees(p, d)
    ensures Agrees(p, d')
  {
    hide R.Valid;
  }

  lemma SelfAgrees(d: Disk)
    requires HostSound(d)
    ensures Agrees(d, d)
  {
    hide R.Valid;
  }

  /** Whatever one host does within these bounds, the others' agreement with it survives. */
  lemma HostMoveKeepsInv(s: System, h: HostId, s': System)
    requires Inv(s) && h in s.disks && h in s'.disks
    requires s'.minted == s.minted && s'.disks == s.disks[h := s'.disks[h]]
    requires LocalMove(s, s.disks[h], s'.disks[h])
    requires s.disks[h].receipt.None? ==> forall g | g in s.disks && g != h :: Agrees(s'.disks[h], s.disks[g])
    ensures Inv(s')
  {
    hide HostSound, Moves, FreshKey, Agrees, MintedOn, LocalMove;
    var d, d' := s.disks[h], s'.disks[h];
    LocalMoveKeepsKeysApart(s, h, d');
    forall e | e in s'.minted ensures exists g | g in s'.disks :: MintedOn(s'.disks[g], e) {
      var g :| g in s.disks && MintedOn(s.disks[g], e);
      if g == h { MintedSurvives(s, d, d', e); }
      assert MintedOn(s'.disks[g], e);
    }
    forall p, g | p in s'.disks && g in s'.disks ensures Agrees(s'.disks[p], s'.disks[g]) {
      assert Agrees(s.disks[p], s.disks[g]);
      if p == h && g == h {
        SelfAgrees(d');
      } else if p == h {
        if d.receipt.Some? { PeerAgreementSurvives(s, d, d', s.disks[g]); }
      } else if g == h {
        BootstrapAgreementSurvives(s, s.disks[p], d, d', p);
      }
    }
  }

  /** A new peer receipt copies an enrollment that only the host whose key it pins can have minted. */
  lemma NewPeerAgrees(s: System, h: HostId, run: Stage.Run, s': System, g: HostId)
    requires Inv(s) && Step(s, StageWrite(h, run), s') && g in s.disks && g != h
    requires s.disks[h].receipt.None?
    ensures Agrees(s'.disks[h], s.disks[g])
  {
    var d', other := s'.disks[h], s.disks[g];
    StageWriteSound(run, s.disks[h], d');
    StageAdmitsSound(run, s.disks[h]);
    hide R.Valid, Stage.Admits, ClusterTopology.Valid, InstallSound, Stage.RenewedReceipt, Stage.ReadyReceipt, Stage.JoinedReceipt;
    if PinnedTo(d', other) {
      var e := run.enrollment.value;
      assert GenuineUnder(e, other.signer.value);
      var m :| m in s.disks && MintedOn(s.disks[m], e);
      assert s.disks[m].signer == other.signer;
    }
  }

  lemma StageStepKeepsInv(s: System, h: HostId, run: Stage.Run, s': System)
    requires Inv(s) && Step(s, StageWrite(h, run), s')
    ensures Inv(s') && Moves(s.disks[h].receipt, s'.disks[h].receipt)
  {
    StageWriteSound(run, s.disks[h], s'.disks[h]);
    hide Inv, HostSound, Moves, Stage.Write, Agrees, FreshKey;
    if s.disks[h].receipt.None? {
      forall g | g in s.disks && g != h ensures Agrees(s'.disks[h], s.disks[g]) {
        NewPeerAgrees(s, h, run, s', g);
      }
    }
    assert HostSound(s.disks[h]) by { InvHost(s, h); }
    HostMoveKeepsInv(s, h, s');
  }

  lemma InvHost(s: System, h: HostId)
    requires Inv(s) && h in s.disks
    ensures HostSound(s.disks[h])
  {
  }

  lemma FinalizeStepKeepsInv(s: System, h: HostId, run: Finalize.Run, open: bool, s': System)
    requires Inv(s) && Step(s, FinalizeWrite(h, run, open), s')
    ensures Inv(s') && Moves(s.disks[h].receipt, s'.disks[h].receipt)
  {
    FinalizeAdmitsSound(run, s.disks[h]);
    FinalizeWriteSound(run, open, s.disks[h], s'.disks[h]);
    hide Inv, HostSound, Moves, Finalize.Write;
    HostMoveKeepsInv(s, h, s');
  }

  /** A receipt that may mint is a ready bootstrap's, whatever phases the command itself would accept. */
  lemma MintedHere(d: Disk, inv: Inventory, input: EnrollmentCreate.MintInputs)
    requires HostSound(d) && input.signer == d.signer && EnrollmentCreate.MayMint(inv, d.receipt, input)
    ensures d.receipt.Some? && input.signer.Some? && input.token.Some? && input.ca.Some?
    ensures MintedOn(d, EnrollmentCreate.Minted(inv, d.receipt.value, input))
  {
    hide R.Valid, ClusterTopology.Valid, InstallSound;
  }

  lemma MintStepKeepsInv(s: System, h: HostId, inv: Inventory, input: EnrollmentCreate.MintInputs, s': System)
    requires Inv(s) && Step(s, Mint(h, inv, input), s')
    ensures Inv(s') && Moves(s.disks[h].receipt, s'.disks[h].receipt)
  {
    hide HostSound, Agrees, MintedOn, EnrollmentCreate.MayMint, EnrollmentCreate.Minted;
    var d := s.disks[h];
    MintedHere(d, inv, input);
    var fresh' := EnrollmentCreate.Minted(inv, d.receipt.value, input);
    forall e | e in s'.minted ensures exists g | g in s'.disks :: MintedOn(s'.disks[g], e) {
      if e == fresh' { assert MintedOn(s'.disks[h], e); }
    }
  }

  lemma EnvironmentStepKeepsInv(s: System, h: HostId, s': System)
    requires Inv(s) && Step(s, Environment(h), s')
    ensures Inv(s') && Moves(s.disks[h].receipt, s'.disks[h].receipt)
  {
    hide R.Valid, InstallSound;
    HostMoveKeepsInv(s, h, s');
  }

  ghost predicate AllMove(s: System, s': System) {
    && s'.disks.Keys == s.disks.Keys
    && forall h | h in s.disks :: Moves(s.disks[h].receipt, s'.disks[h].receipt)
  }

  lemma OneMoved(s: System, h: HostId, s': System)
    requires h in s.disks && h in s'.disks && s'.disks == s.disks[h := s'.disks[h]]
    requires Moves(s.disks[h].receipt, s'.disks[h].receipt)
    ensures AllMove(s, s')
  {
  }

  lemma StepKeepsInv(s: System, e: Event, s': System)
    requires Inv(s) && Step(s, e, s')
    ensures Inv(s') && AllMove(s, s')
  {
    hide Inv, HostSound, Moves, Agrees, MintedOn, AllMove, Stage.Write, Finalize.Write, EnrollmentCreate.MayMint, EnrollmentCreate.Minted;
    match e {
      case StageWrite(h, run) => StageStepKeepsInv(s, h, run, s'); OneMoved(s, h, s');
      case FinalizeWrite(h, run, open) => FinalizeStepKeepsInv(s, h, run, open, s'); OneMoved(s, h, s');
      case Mint(h, inv, input) => MintStepKeepsInv(s, h, inv, input, s'); OneMoved(s, h, s');
      case Environment(h) => EnvironmentStepKeepsInv(s, h, s'); OneMoved(s, h, s');
    }
  }

  // ---- Whole runs ------------------------------------------------------------------------------

  ghost predicate Behaviour(states: seq<System>, events: seq<Event>) {
    && |states| == |events| + 1
    && Init(states[0])
    && forall i | 0 <= i < |events| :: Step(states[i], events[i], states[i + 1])
  }

  predicate PhaseOrder(p: R.Phase, q: R.Phase, bootstrap: bool) {
    || p == q
    || (p == R.Prepared && (if bootstrap then q == R.ServerReady || q == R.Finalized else q == R.Joined))
    || (p == R.ServerReady && q == R.Finalized && bootstrap)
  }

  /** The history of one receipt: absent, prepared, server-ready, finalized on the bootstrap; absent, prepared, joined on a peer. */
  predicate Precedes(o: Option<R.BootstrapState>, o': Option<R.BootstrapState>) {
    o.Some? ==>
      && o'.Some? && Kept(o.value, o'.value)
      && PhaseOrder(o.value.phase, o'.value.phase, R.IsBootstrap(o.value))
  }

  lemma PrecedesTransitive(o: Option<R.BootstrapState>, o': Option<R.BootstrapState>, o'': Option<R.BootstrapState>)
    requires Precedes(o, o') && Precedes(o', o'')
    ensures Precedes(o, o'')
  {
  }

  lemma PrecedesReflexive(o: Option<R.BootstrapState>)
    ensures Precedes(o, o)
  {
  }

  lemma MovesPrecedes(o: Option<R.BootstrapState>, o': Option<R.BootstrapState>)
    requires Moves(o, o')
    ensures Precedes(o, o')
  {
  }

  /** Every state that any interleaving with any crashes can reach keeps the invariant. */
  lemma {:induction false} EveryStateSound(states: seq<System>, events: seq<Event>, i: nat)
    requires Behaviour(states, events) && i < |states|
    ensures Inv(states[i]) && states[i].disks.Keys == states[0].disks.Keys
  {
    hide Inv, Step, Init;
    if i == 0 {
      InitInv(states[0]);
    } else {
      EveryStateSound(states, events, i - 1);
      StepKeepsInv(states[i - 1], events[i - 1], states[i]);
    }
  }

  lemma OneStepForward(states: seq<System>, events: seq<Event>, i: nat, h: HostId)
    requires Behaviour(states, events) && i < |events| && h in states[0].disks
    ensures h in states[i].disks && h in states[i + 1].disks
    ensures Precedes(states[i].disks[h].receipt, states[i + 1].disks[h].receipt)
  {
    EveryStateSound(states, events, i);
    EveryStateSound(states, events, i + 1);
    hide Inv, Step, Init, Moves;
    assert h in states[i].disks.Keys;
    StepKeepsInv(states[i], events[i], states[i + 1]);
    MovesPrecedes(states[i].disks[h].receipt, states[i + 1].disks[h].receipt);
  }

  /** A receipt only moves forward along the phases of its host's role, and never changes that role or its cluster. */
  lemma {:induction false} ReceiptsOnlyMoveForward(states: seq<System>, events: seq<Event>, i: nat, j: nat, h: HostId)
    requires Behaviour(states, events) && i <= j < |states| && h in states[0].disks
    ensures h in states[i].disks && h in states[j].disks
    ensures Precedes(states[i].disks[h].receipt, states[j].disks[h].receipt)
    decreases j
  {
    hide *;
    EveryStateSound(states, events, i);
    if i == j {
      assert h in states[i].disks.Keys;
      PrecedesReflexive(states[i].disks[h].receipt);
    } else {
      ReceiptsOnlyMoveForward(states, events, i, j - 1, h);
      assert j - 1 < |events| && h in states[0].disks by { BehaviourLength(states, events); }
      OneStepForward(states, events, j - 1, h);
      PrecedesTransitive(states[i].disks[h].receipt, states[j - 1].disks[h].receipt, states[j].disks[h].receipt);
    }
  }

  lemma BehaviourLength(states: seq<System>, events: seq<Event>)
    requires Behaviour(states, events)
    ensures |states| == |events| + 1
  {
  }

  /** In any reachable state a peer agrees with the bootstrap whose signer it pinned, and that bootstrap is ready. */
  lemma PeersAgreeWithTheirBootstrap(states: seq<System>, events: seq<Event>, i: nat, peer: HostId, boot: HostId)
    requires Behaviour(states, events) && i < |states|
    requires peer in states[i].disks && boot in states[i].disks && PinnedTo(states[i].disks[peer], states[i].disks[boot])
    ensures states[i].disks[boot].receipt.Some?
    ensures Ready(states[i].disks[boot].receipt.value) && R.IsBootstrap(states[i].disks[boot].receipt.value)
    ensures R.SameCluster(states[i].disks[peer].receipt.value, states[i].disks[boot].receipt.value)
  {
    EveryStateSound(states, events, i);
    hide Behaviour, R.Valid;
    assert Agrees(states[i].disks[peer], states[i].disks[boot]);
    assert HostSound(states[i].disks[boot]);
  }

  /** In any reachable state a finalized receipt stands beside the installed receipt of the same product. */
  lemma FinalizedIsInstalled(states: seq<System>, events: seq<Event>, i: nat, h: HostId, version: string)
    requires Behaviour(states, events) && i < |states| && h in states[i].disks
    requires states[i].disks[h].receipt.Some? && states[i].disks[h].receipt.value.phase == R.Finalized
    ensures R.InstallMatchesFinalizedStage(states[i].disks[h].installed, states[i].disks[h].receipt, version)
       <==> version == Trim(states[i].disks[h].receipt.value.bundleVersion)
  {
    EveryStateSound(states, events, i);
    hide Behaviour, R.Valid;
    assert HostSound(states[i].disks[h]);
  }

  /** From then on no run of either command, with whatever bundle, changes a record of that host. */
  lemma FinalizedRecordsAreFrozen(d: Disk, d': Disk, stage: Stage.Run, finalize: Finalize.Run, open: bool)
    requires HostSound(d) && d.receipt.Some? && d.receipt.value.phase == R.Finalized
    requires Stage.Write(stage, d, d') || Finalize.Write(finalize, open, d, d')
    ensures d'.receipt == d.receipt && d'.installed == d.installed && d'.signer == d.signer
  {
    hide R.Valid, Stage.Admits, Finalize.Admits;
  }

  /** A crash between the two records of finalize leaves a host that stage refuses, whatever it is given. */
  lemma HalfFinalizedIsRefusedByStage(d: Disk, run: Stage.Run)
    requires HostSound(d) && d.installed.Some? && d.receipt.value.phase != R.Finalized
    ensures d.receipt.value.phase == R.ServerReady
    ensures !Stage.Admitted(run, d)
  {
  }

  // ---- From stage to finalize ------------------------------------------------------------------

  /** After a successful stage of the bootstrap, finalize admits the same inputs, whichever release the receipt had held before. */
  lemma StagedIsAdmittedByFinalize(stage: Stage.Run, finalize: Finalize.Run, d0: Disk, d: Disk)
    requires Stage.Admitted(stage, d0) && HostSound(d0) && Stage.Bootstraps(stage)
    requires Stage.Confirmed(stage, d0, d) || Stage.BroughtUp(stage, d0, d)
    requires finalize.bundle == stage.bundle && finalize.id == stage.id && finalize.inv == stage.inv
    requires finalize.nodeName == stage.nodeName && finalize.local == stage.local
    ensures Finalize.Admits(finalize, d.receipt) && d.binary == Some(finalize.bundle.k3sVersion)
  {
    Stage.AdmittedPeer(stage, d0);
    if Stage.Confirmed(stage, d0, d) { ConfirmedReceipt(stage, d0, d); } else { UpReceiptMatches(stage, d0, d); }
    var s, n := d.receipt.value, FindNode(stage.inv.nodes, stage.nodeName).value;
    hide Stage.BroughtUp, Stage.Confirmed, R.Valid, ClusterTopology.Valid, Stage.Enrolled, Stage.Resumes, HostSound, Fingerprint, Finalize.Admits;
    Finalize.AdmittedIf(finalize, s, n);
  }

  predicate ReadyFor(stage: Stage.Run, s: R.BootstrapState) {
    && R.Valid(s) && s.localNode == stage.nodeName && s.fingerprint == Fingerprint(stage.inv)
    && s.k3sVersion == stage.bundle.k3sVersion && R.Identity(s.name, s.profile, s.zone) == stage.id
    && (s.phase == R.ServerReady || s.phase == R.Finalized) && s.signer.KeyDigestOf?
    && (s.phase == R.ServerReady ==> s.releaseID == stage.bundle.releaseID && s.bundleVersion == stage.bundle.version)
  }

  lemma ConfirmedReceipt(stage: Stage.Run, d0: Disk, d: Disk)
    requires Stage.Admitted(stage, d0) && HostSound(d0) && Stage.Bootstraps(stage) && Stage.Confirmed(stage, d0, d)
    ensures d.receipt.Some? && ReadyFor(stage, d.receipt.value) && d.binary == Some(stage.bundle.k3sVersion)
  {
    R.RoleIsPinned(d0.receipt.value, stage.inv, stage.bundle.k3sVersion, stage.nodeName, stage.id);
    hide R.Valid, ClusterTopology.Valid, Fingerprint, Stage.Enrolled, Stage.Requested, InstallSound;
  }

  lemma UpReceiptMatches(stage: Stage.Run, d0: Disk, d: Disk)
    requires Stage.Bootstraps(stage) && Stage.BroughtUp(stage, d0, d)
    ensures d.receipt.Some? && ReadyFor(stage, d.receipt.value) && d.binary == Some(stage.bundle.k3sVersion)
  {
    hide R.Valid, ClusterTopology.Valid, Fingerprint;
  }

  /** No server is recorded as ready or joined before it is up, with its files, its token and, for a peer, the right cluster. */
  lemma RecordedWhenInPlace(s: System, e: Event, s': System, h: HostId)
    requires Step(s, e, s') && h in s.disks && h in s'.disks && s.disks[h].receipt.Some? && s'.disks[h].receipt.Some?
    requires s.disks[h].receipt.value.phase == R.Prepared && s'.disks[h].receipt.value.phase != R.Prepared
    ensures e.StageWrite? && e.host == h && Stage.InPlace(e.stage, s.disks[h])
    ensures s.disks[h].active && s.disks[h].unit == ReleaseOwned && s.disks[h].binary == Some(e.stage.bundle.k3sVersion)
  {
    hide Stage.Admits, R.Matches, R.Valid, Finalize.Passed, EnrollmentCreate.MayMint, EnrollmentCreate.Minted, Unforged, FreshKey;
    if e.FinalizeWrite? && e.host == h { FinalizeAdmitsPassed(e.finalize, e.open, s.disks[h], s'.disks[h]); }
  }

  lemma FinalizeAdmitsPassed(run: Finalize.Run, open: bool, d: Disk, d': Disk)
    requires Finalize.Write(run, open, d, d')
    ensures d.receipt.Some? && d.receipt.value.phase == R.ServerReady
  {
  }

  /** And a first receipt is written on an empty host. */
  lemma FirstReceiptOnEmptyHost(s: System, e: Event, s': System, h: HostId)
    requires Step(s, e, s') && h in s.disks && h in s'.disks && s.disks[h].receipt.None? && s'.disks[h].receipt.Some?
    ensures e.StageWrite? && e.host == h && s.disks[h].data == {} && (e.stage.checksDatabase ==> s.disks[h].db == map[])
  {
    hide Stage.Admits, R.Matches, R.Valid, Finalize.Passed, EnrollmentCreate.MayMint, EnrollmentCreate.Minted, Unforged, FreshKey;
    if e.FinalizeWrite? && e.host == h { FinalizeAdmitsPassed(e.finalize, e.open, s.disks[h], s'.disks[h]); }
  }

  // ---- What a peer joins with ------------------------------------------------------------------

  /** `e` was minted by the step `j` from what its host held and was given then. */
  ghost predicate MintedAt(states: seq<System>, events: seq<Event>, j: nat, e: Enrollment) {
    && j < |events| && j < |states| && events[j].Mint? && events[j].host in states[j].disks
    && var d := states[j].disks[events[j].host];
       && d.receipt.Some? && events[j].input.signer == d.signer
       && EnrollmentCreate.AdmitsPeer(e, events[j].inv, d.receipt.value, events[j].input)
  }

  lemma MintIsAdmission(s: System, e: Event, s': System, enrollment: Enrollment)
    requires Step(s, e, s') && e.Mint? && enrollment in s'.minted && enrollment !in s.minted
    ensures s.disks[e.host].receipt.Some? && e.input.signer == s.disks[e.host].signer
    ensures EnrollmentCreate.AdmitsPeer(enrollment, e.inv, s.disks[e.host].receipt.value, e.input)
  {
    assert EnrollmentCreate.MayMint(e.inv, s.disks[e.host].receipt, e.input);
    EnrollmentCreate.MintedAdmitsPeer(e.inv, s.disks[e.host].receipt.value, e.input);
    hide EnrollmentCreate.Minted, EnrollmentCreate.AdmitsPeer, R.Valid, ClusterTopology.Valid;
  }

  lemma OnlyMintingMints(s: System, e: Event, s': System)
    requires Step(s, e, s') && !e.Mint?
    ensures s'.minted == s.minted
  {
    hide Stage.Write, Finalize.Write, Stage.SameRecords;
  }

  /** Every enrollment there is was minted by some step. */
  lemma {:induction false} MintedBefore(states: seq<System>, events: seq<Event>, i: nat, e: Enrollment) returns (j: nat)
    requires Behaviour(states, events) && i < |states| && e in states[i].minted
    ensures j < i && MintedAt(states, events, j, e)
  {
    hide Step, Inv, EnrollmentCreate.AdmitsPeer;
    assert i > 0;
    if e in states[i - 1].minted {
      j := MintedBefore(states, events, i - 1, e);
    } else {
      j := i - 1;
      if !events[j].Mint? { OnlyMintingMints(states[j], events[j], states[i]); }
      assert events[j].host in states[j].disks by { StepHost(states[j], events[j], states[i]); }
      MintIsAdmission(states[j], events[j], states[i], e);
    }
  }

  lemma StepHost(s: System, e: Event, s': System)
    requires Step(s, e, s')
    ensures e.host in s.disks
  {
  }

  /** A stored key stays where it is. */
  lemma KeyStaysOnce(s: System, e: Event, s': System, h: HostId)
    requires Inv(s) && Step(s, e, s') && h in s.disks && s.disks[h].signer.Some?
    ensures h in s'.disks && s'.disks[h].signer == s.disks[h].signer
  {
    hide Inv, HostSound, Stage.Write, Finalize.Write, EnrollmentCreate.MayMint, EnrollmentCreate.Minted, Unforged, FreshKey;
    if e.host == h {
      InvHost(s, h);
      if e.StageWrite? { StageWriteSound(e.stage, s.disks[h], s'.disks[h]); }
      if e.FinalizeWrite? { FinalizeWriteSound(e.finalize, e.open, s.disks[h], s'.disks[h]); }
    }
  }

  lemma {:induction false} KeyStays(states: seq<System>, events: seq<Event>, i: nat, j: nat, h: HostId)
    requires Behaviour(states, events) && i <= j < |states| && h in states[i].disks && states[i].disks[h].signer.Some?
    ensures h in states[j].disks && states[j].disks[h].signer == states[i].disks[h].signer
    decreases j
  {
    hide Inv, Step, Init;
    if i < j {
      KeyStays(states, events, i, j - 1, h);
      EveryStateSound(states, events, j - 1);
      KeyStaysOnce(states[j - 1], events[j - 1], states[j], h);
    }
  }

  /** A peer that a staging run brought up under the pinned key of a bootstrap was admitted by that bootstrap, and by name: it
      joins with the K3s token and the certificate authority that the minting command read there. */
  lemma PeersJoinWithTheirBootstrapsToken(states: seq<System>, events: seq<Event>, i: nat, boot: HostId, run: Stage.Run, d0: Disk, d: Disk)
    returns (j: nat)
    requires Behaviour(states, events) && i < |states| && boot in states[i].disks
    requires states[i].disks[boot].signer.Some? && run.signer == KeyDigestOf(states[i].disks[boot].signer.value)
    requires Unforged(states[i], run.enrollment)
    requires Stage.Admitted(run, d0) && Stage.BroughtUp(run, d0, d) && Stage.JoinedRightCluster(run) && !Stage.Bootstraps(run)
    ensures j < i && events[j].Mint? && events[j].host == boot
    ensures events[j].input.serverName == run.nodeName && events[j].inv.bootstrapNode == run.inv.bootstrapNode
    ensures events[j].input.token.Some? && d.token == RegularToken(Trim(events[j].input.token.value) + "\n")
    ensures run.joinedCA == events[j].input.ca
  {
    StageAdmitsSound(run, d0);
    PeerIsExpected(run, d0);
    var e, key := run.enrollment.value, states[i].disks[boot].signer.value;
    assert e in states[i].minted;
    hide Behaviour, Inv, Stage.Admits, Unforged, Stage.UpReceipt;
    j := MintedBefore(states, events, i, e);
    MintedUnder(states, events, j, e, key);
    var h := events[j].host;
    KeyStays(states, events, j, i, h);
    EveryStateSound(states, events, i);
    KeysApart(states[i], h, boot);
  }

  lemma PeerIsExpected(run: Stage.Run, d: Disk)
    requires Stage.Admitted(run, d) && !Stage.Bootstraps(run)
    ensures run.enrollment.Some? && run.enrollment.value.expectedNode == run.nodeName
            && run.enrollment.value.controlPlaneNode == run.inv.bootstrapNode
  {
    hide Verifies, ClusterTopology.Valid, R.MatchesSubstrate, Fingerprint;
  }

  lemma MintedUnder(states: seq<System>, events: seq<Event>, j: nat, e: Enrollment, key: Key)
    requires MintedAt(states, events, j, e) && GenuineUnder(e, key)
    ensures states[j].disks[events[j].host].signer == Some(key)
    ensures events[j].input.token.Some? && e.token == Trim(events[j].input.token.value)
    ensures events[j].input.ca.Some? && e.caHash == CADigestOf(events[j].input.ca.value)
    ensures e.expectedNode == events[j].input.serverName && e.controlPlaneNode == events[j].inv.bootstrapNode
  {
    hide Fingerprint;
  }

  lemma KeysApart(s: System, g: HostId, h: HostId)
    requires Inv(s) && g in s.disks && h in s.disks && s.disks[g].signer.Some? && s.disks[g].signer == s.disks[h].signer
    ensures g == h
  {
  }

  // ---- A server that stays up ------------------------------------------------------------------

  /** A probe that reports at all finds a server that runs on a port of its own. */
  predicate HonestProbe(run: Finalize.Run, d: Disk) {
    d.active && run.portsInUse.Some? ==> run.portsInUse.value * Finalize.REQUIRED_PORTS != {}
  }

  /** Nothing but the commands would remove data from a host that runs now, and they are told the truth about its ports. */
  predicate StaysUp(s: System, e: Event, s': System, h: HostId) {
    && h in s.disks && h in s'.disks && s.disks[h].active
    && (e.FinalizeWrite? && e.host == h ==> HonestProbe(e.finalize, s.disks[h]))
    && (e.Environment? && e.host == h ==> s.disks[h].data <= s'.disks[h].data)
  }

  lemma RunningServerKeepsItsDataOnce(s: System, e: Event, s': System, h: HostId)
    requires Step(s, e, s') && StaysUp(s, e, s', h)
    ensures s.disks[h].data <= s'.disks[h].data
  {
    hide Stage.Admits, Stage.NewReceipt, Stage.RenewedReceipt, Stage.ReadyReceipt, Stage.JoinedReceipt, R.Matches, Finalize.Write,
         EnrollmentCreate.MayMint;
    if e.FinalizeWrite? && e.host == h {
      var run, d := e.finalize, s.disks[h];
      if !(d.data <= s'.disks[h].data) {
        FinalizeLossIsWipe(run, e.open, d, s'.disks[h]);
        Finalize.WipeDecision(run, d);
      }
    }
  }

  lemma FinalizeLossIsWipe(run: Finalize.Run, open: bool, d: Disk, d': Disk)
    requires Finalize.Write(run, open, d, d') && !(d.data <= d'.data)
    ensures Finalize.WipesData(run, d)
  {
    hide Finalize.Passed, Finalize.WipesData;
  }

  /** Whatever commands run anywhere, with whatever they are told of units and services: as long as a server stays active and the
      probe tells the truth, none of its data goes. */
  lemma {:induction false} RunningServerKeepsItsData(states: seq<System>, events: seq<Event>, i: nat, j: nat, h: HostId)
    requires Behaviour(states, events) && i <= j < |states| && h in states[i].disks
    requires forall k | i <= k < j :: StaysUp(states[k], events[k], states[k + 1], h)
    ensures h in states[j].disks && states[i].disks[h].data <= states[j].disks[h].data
    decreases j
  {
    hide Step, Init, StaysUp;
    if i < j {
      RunningServerKeepsItsData(states, events, i, j - 1, h);
      assert StaysUp(states[j - 1], events[j - 1], states[j], h);
      RunningServerKeepsItsDataOnce(states[j - 1], events[j - 1], states[j], h);
      assert h in states[j].disks by { StaysUpThere(states[j - 1], events[j - 1], states[j], h); }
    }
  }

  lemma StaysUpThere(s: System, e: Event, s': System, h: HostId)
    requires StaysUp(s, e, s', h)
    ensures h in s.disks && h in s'.disks
  {
  }

  /** Every write of a staging run on one host is a step of the system. */
  lemma StageLogIsSteps(s: System, h: HostId, run: Stage.Run, before: seq<Disk>, after: seq<Disk>, i: nat)
    requires Stage.Extends(run, before, after) && |before| <= i < |after|
    requires h in s.disks && s.disks[h] == after[i - 1]
    requires Unforged(s, run.enrollment) && (after[i].signer != after[i - 1].signer ==> FreshKey(s, run.freshKey))
    ensures Step(s, StageWrite(h, run), s.(disks := s.disks[h := after[i]]))
  {
    hide Stage.Write, Unforged, FreshKey;
    assert Stage.Write(run, after[i - 1], after[i]);
  }

  lemma FinalizeLogIsSteps(s: System, h: HostId, run: Finalize.Run, open: bool, before: seq<Disk>, after: seq<Disk>, i: nat)
    requires Finalize.Extends(run, open, before, after) && |before| <= i < |after|
    requires h in s.disks && s.disks[h] == after[i - 1]
    requires after[i].signer != after[i - 1].signer ==> FreshKey(s, run.freshKey)
    ensures Step(s, FinalizeWrite(h, run, open), s.(disks := s.disks[h := after[i]]))
  {
    hide Finalize.Write, FreshKey;
    assert Finalize.Write(run, open, after[i - 1], after[i]);
  }
}
