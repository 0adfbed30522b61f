# Appliance control: a model in Dafny

`zonctl` installs and maintains a small Kubernetes appliance. It runs on each host, keeps its records in local files and
talks to systemd, containerd and Kubernetes, any of which may fail at any moment. This project models the parts of it whose
guarantees are about every step, failure and rerun, and proves them.

## What is modelled

- **The embedded-etcd bootstrap** (`Inventory`, `K3sConfig`, `Readiness`, `Ownership`, `Receipt`, `Enrollment`, `Keys`,
  `EnrollmentCreate`, `HostDisk`, `Stage`, `Finalize`, `ClusterProtocol`, `ClusterCommands`, `ClusterWitness`). A host
  is an object with its disk and a ghost log of every disk state; a crash leaves one of the logged states. `Stage` and
  `Finalize` are the two commands, with a predicate for what a single write may do and a proof that every write obeys
  it. `ClusterProtocol` interleaves the writes of any number of hosts with enrollments and foreign changes, and proves
  what holds in every reachable state; `ClusterCommands` shows that its behaviours are exactly the interleaved lives of
  its hosts, and `ClusterWitness` plays logs of the commands that reach the states those theorems are about. SHA-256 is a constructor, hence injective; an Ed25519 signature names
  its key and payload; key generation is fresh and a signature of a host's key comes from that host.
- **Image preloading** (`ImageReferences`, `ImageOrder`, `ImageStore`, `Preload`). The store is a map from references to
  digests. Every `ctr` call may fail, an import may bind anything, and a ghost log records each call, so that the
  theorems name what they need of it: honest imports, failures that add nothing, complete listings, removals that work.
- **Transactional host operations** (`SystemCalls`, `Lifecycle`, `DispatchProtocol`, `DispatchExclusion`,
  `DispatchWitness`, `HostFiles`, `HostTexts`, `WorkerUpgrade`, `HostAgent`, `Backup`). The dispatch protocol lets any number of
  processes open, lock, check, begin, work, finish and die in any order, with the lock on an inode and not on a name.
  Failed calls are counted, so that success is characterised exactly.
- **Algebraic pieces** (`Routing`, `Values`, `ValuesMerge`, `HostsBlock`): the routing withdrawal under a
  compare-and-set, the recursive in-place merge of nested maps on the heap against a pure merge, the editor of the
  managed hosts block.

Where a promised property fails for the code, the model keeps the code and states when the property holds:

- `Install`, called from finalize, looks at the host once more. If the server that passed all of finalize's gates has stopped
  by then and its unit is not listed, it passes for an empty host and its data is wiped. `Finalize.StagedDataCanGoIff` has
  the exact condition over all logs, `Finalize.FinalizeEmbeddedEtcd` both directions for the command, and
  `ClusterWitness.StoppedServerCanBeWiped` the run. A server that stays up keeps its data, listed or not
  (`ClusterProtocol.RunningServerKeepsItsData`, `Finalize.ServerOnItsPortsKeepsItsData`).
- A crash between the two receipts of finalize leaves a host that stage and finalize both refuse, whatever they are told
  (`ClusterProtocol.HalfFinalizedIsRefusedByStage`, `Finalize.FinalizeEmbeddedEtcd`).
- The fingerprint ignores the order of the servers, but the configuration comparison of a resumed host does not: reordered
  subject alternative names make stage refuse (`K3sConfig.ConfigFollowsListing`,
  `Stage.ReorderedInventoryIsRefused`).
- The comment on `Rollback` of preloaded images says that it never touches what was present before. A required reference
  that was there with other content is removed, imported again and on its list (`Preload.PreloadAll` says exactly which,
  `Preload.StaleReferenceIsListed`). A preload that itself fails registers nothing to undo (`Preload.PreloadStep`), although
  its list would do (`Preload.PreloadAndRollback`).
- A factory reset removes the lock file while it holds the lock. From then until everyone has closed the removed file,
  exclusion can break, exactly if a command opens the new file: beside the reset itself, or beside a process that had
  opened the old one (`DispatchExclusion.ResetExposesIff`, `DispatchWitness.FactoryResetBreaksExclusion`,
  `DispatchWitness.ResetRunsBesideCommand`).
- The host agent's rollback writes over the new files and so keeps their modes (`HostAgent.RollbackInvertsInstall`).
- A restore does not bring back the absence of metadata bundles, nor a model tree without files; it gives every file one
  mode, and copies files that the manifest does not list (`Backup.BackupThenRestore`,
  `Backup.RestoresOriginalIffAllListed`, `Backup.UnlistedFilesAreRestored`).
- A routing withdrawal that finds no instance leaves stale bindings, and one that finds some drops unknown fields of the
  instances it keeps (`Routing.StaleBindingsNeedAnInstance`, `Routing.OtherInstancesVerbatim`).
- The shortcut of `ensureHostsEntry` looks for the new block anywhere in the file (`HostsBlock.LastEntryWinsIff`).

## Model

| member | source | states |
|---|---|---|
| `ClusterTopology.Validate` | internal/clustertopology/inventory.go:82-119 | the one-pass check with two seen-sets accepts exactly the inventories of one or three servers with distinct names, distinct global IPv4 addresses and a planned bootstrap |
| `ClusterTopology.ValidIsCounted` | internal/clustertopology/inventory.go:82-119 | validity by counting: one server or three, as many different names and different addresses as servers, the bootstrap among them |
| `ClusterTopology.GlobalUnicastIsRange` | internal/clustertopology/inventory.go:82-119 | as a 32-bit number an accepted address is outside the unspecified, loopback, link-local, multicast and broadcast ranges, and every other one is accepted |
| `ClusterTopology.LessIff` | internal/clustertopology/inventory.go:173-188 | the sorting order is by the first byte that differs, a proper prefix first |
| `ClusterTopology.APIEndpoints` | internal/clustertopology/inventory.go:121-138 | the endpoint list of a valid inventory, nothing for any other |
| `ClusterTopology.EndpointsOnceBootstrapFirst` | internal/clustertopology/inventory.go:121-149 | every server address is an endpoint exactly once, and the bootstrap server's is the first |
| `ClusterTopology.FingerprintIdentifiesServers` | internal/clustertopology/inventory.go:173-188 | two valid inventories have one fingerprint exactly when they plan the same set of servers with the same bootstrap, in whatever order |
| `ClusterTopology.SortedUnique` | internal/clustertopology/inventory.go:173-188 | the sorted copy is determined by its members alone, which is why order cannot leak into the fingerprint |
| `ClusterTopology.SameServersSameBootstrapEndpoint` | internal/clustertopology/inventory.go:140-149 | the join address does not depend on the order of the servers |
| `ClusterTopology.SameSet` | internal/install/three_server_finalize.go:204-224 | equal lengths and equal member sets, both directions, although only one inclusion is tested |
| `K3sConfig.EmbeddedEtcdConfig` | internal/k3s/config.go:176-204 | succeeds exactly for a planned server with a data directory and, off the bootstrap, a token file; the configuration then carries that server's own name and planned address, the given data directory and token file, every server's address in its certificate, the bootstrap's address to join at, and the two fixed ranges |
| `K3sConfig.OwnServerDetermines` | internal/k3s/config.go:176-204 | these facts determine the configuration |
| `K3sConfig.ServersAreToldApart` | internal/k3s/config.go:176-204 | no two servers of an inventory are configured with one name or one address |
| `K3sConfig.MemberConfigValid` | internal/k3s/config.go:69-117 | the derived configuration passes its own validation exactly under the same conditions |
| `K3sConfig.OneServerInitialises` | internal/k3s/config.go:176-204 | exactly one planned server initialises etcd, and every other one joins at that server's address |
| `K3sConfig.ConfigFollowsListing` | internal/install/three_server.go:213-223 | inventories of the same servers have one fingerprint, but a member's configuration is the same exactly when they are listed in the same order |
| `Readiness.Pigeonhole` | internal/cluster/three_server.go:84-137 | as many distinct observed names as planned ones, all planned, leave no planned name unseen |
| `Readiness.ValidateNodeReadiness` | internal/cluster/three_server.go:42-137 | healthy exactly when a bijection pairs planned servers with observed nodes that fit in name, UID, labels, taints, version, readiness and address |
| `Readiness.HealthyServer` | internal/cluster/three_server.go:84-137 | a healthy answer shows of every planned server a node of its name with an identity, both roles, no blocking taint, ready, on the signed version and at its address |
| `Readiness.ServerFits` | internal/cluster/three_server.go:84-137 | and nothing more is asked of a node |
| `Readiness.ValidateAPIEndpoints` | internal/cluster/three_server.go:17-40 | healthy exactly when every planned server's direct endpoint answers ok |
| `Receipt.RoleIsPinned` | internal/clustertopology/bootstrap_state.go:99-111 | a receipt that matches an inventory fixes whether its host is the bootstrap |
| `Receipt.MatchesOnce` | internal/clustertopology/bootstrap_state.go:85-111 | a receipt takes one set of inputs only: servers in any order, release, K3s version, node and identity |
| `Receipt.ValidIff` | internal/clustertopology/bootstrap_state.go:49-83 | no UID before a server has registered and one afterwards, nothing else blank, time not going backwards |
| `Receipt.OneProduct` | internal/install/three_server_finalize.go:155-175 | a finalized receipt vouches for one product at one version |
| `EnrollmentArtifact.ValidIsGenuine` | internal/cluster/enrollment.go:101-172 | a valid artifact is, unaltered, what the holder of the pinned key signed |
| `EnrollmentArtifact.BoundVerifiesIff` | internal/cluster/enrollment.go:101-172 | a topology-bound artifact verifies exactly if it is for a server, complete, timely, valid for a day at most, vouches for its own token and is signed as it stands by the pinned key |
| `EnrollmentArtifact.Draft.Sign` | internal/cluster/enrollment.go:65-75 | version 1 signing refuses topology-bound artifacts and otherwise signs in place |
| `EnrollmentArtifact.Draft.SignEmbeddedEtcd` | internal/cluster/enrollment.go:76-99 | version 2 signing succeeds exactly for a fingerprint-bound server artifact with a key, and changes nothing but its own fields |
| `EnrollmentCreate.CreateServerEnrollment` | cmd/zonctl/cluster_stage_commands.go:168-248 | an artifact is written exactly when every refusal of the command is absent and the write works, and it carries the trimmed K3s token and the CA of the bootstrap, the named peer, the bootstrap's address, cluster, release and identity, and a validity from now on; the closing validation never refuses one |
| `EnrollmentCreate.AdmitsPeerOnce` | cmd/zonctl/cluster_stage_commands.go:229-237 | no other artifact carries all of that |
| `EnrollmentCreate.MintingNeeds` | cmd/zonctl/cluster_stage_commands.go:168-228 | what minting takes, on the receipt, the key, the peer and the times, so that each of the refusals is one |
| `EnrollmentCreate.MintingSucceeds` | cmd/zonctl/cluster_stage_commands.go:168-228 | and nothing more |
| `EnrollmentCreate.MintedValidityWindow` | internal/cluster/enrollment.go:101-172 | a minted artifact is valid from five minutes before its issue until its expiry, and at no other clock |
| `EnrollmentCreate.MintedAcceptedExactlyByItsPeer` | internal/install/three_server.go:108-122 | a minted artifact is accepted exactly on the peer it names, for the same servers in any order, identity and version, and for the same release, or on a joined peer for the release that it recorded itself |
| `Stage.StageEmbeddedEtcd` | internal/install/three_server.go:39-354 | succeeds exactly when no call fails and `MayStage` holds; every write up to any failure or crash is an allowed one; success means a confirmed server with nothing else written or one brought up from the run's inputs; a refused or settled rerun writes nothing, nor does one that finds a unit without its binary or another configuration than the inventory's |
| `Stage.FirstStageSucceeds` | internal/install/three_server.go:138-354 | an admitted run on an empty host with no listed unit succeeds, on the bootstrap without and on a peer with its token path, CA and UID |
| `Stage.RerunSucceeds` | internal/install/three_server.go:169-291 | so does a rerun on a running server with its binary and the configuration of the inventory |
| `Stage.PreparedStageSucceeds` | internal/install/three_server.go:169-354 | so does a rerun where an earlier one died between its receipt and the end of the bring-up |
| `Stage.StageRefuses` | internal/install/three_server.go:84-223 | no run succeeds over an active or foreign K3s, an occupied database directory, an odd token path, another binary, an inactive recorded server, a half-finalized host or another cluster |
| `Stage.AdmissionRefuses` | internal/install/three_server.go:39-133 | no run is admitted with another bundle, inventory, host, enrollment or receipt than its own |
| `Stage.AdmittedPersists` | internal/install/three_server.go:76-133 | everything a run has checked before its first write stays true through every write it may make |
| `Stage.ReclaimInactive` | internal/install/three_server.go:138-172 | without a receipt, an active service or foreign data is left alone; otherwise the service is stopped and a dead release-owned leftover cleared |
| `Stage.CheckEmptyHost` | internal/install/three_server.go:178-212 | goes on exactly with empty data and database directories and, on a peer, no odd token path, whose regular leftover is removed, if no call fails |
| `Stage.RecordRelease` | internal/install/three_server.go:251-277 | a first prepared receipt, a renewed release on an unfinished one, and no write for a joined or finalized one |
| `Stage.BringUp` | internal/install/three_server.go:292-328 | a brought-up server has the inventory's configuration, a release-owned unit, the signed binary, its token and the enrolled cluster's CA, written in that order, so that a crash between unit and binary shows |
| `Stage.ReceiptedDataSurvives` | internal/install/three_server.go:138-194 | from the first receipt on, a whole run removes nothing from the K3s data directory |
| `Stage.StageKeepsDatabase` | internal/install/three_server.go:178-194 | no run of stage changes the control-plane database directory |
| `Stage.ReorderedInventoryIsRefused` | internal/install/three_server.go:213-223 | a server configured from one order of the servers refuses every other order and only those, although the fingerprint is the same |
| `Finalize.FinalizeEmbeddedEtcd` | internal/install/three_server_finalize.go:26-132 | success needs `MayFinalize`, and follows from it when no call fails; every write is an allowed one, none before all gates are passed; success is a confirmed finalized host with no write or one holding both matching receipts; the server's data is emptied whenever `MayLose` holds and no call fails, and loses nothing whenever it does not hold; a finalized host is not written to, a half-finalized one is refused, and an unhealthy or foreign K3s is refused with at most the database directory cleared |
| `Finalize.AdoptionSucceeds` | internal/install/install.go:698-763 | past its gates a run on a healthy K3s without foreign workloads, with its own ports, key and a fresh database directory, succeeds |
| `Finalize.ConfirmationSucceeds` | internal/install/three_server_finalize.go:86-95 | a finalized server confirms the installed receipt that it wrote |
| `Finalize.FinalizeRefuses` | internal/install/install.go:652-763 | an inactive, unhealthy or foreign K3s, a port held by someone else, an installed receipt, another key and older database files all make it fail |
| `Finalize.AdmittedOnlyIf` | internal/install/three_server_finalize.go:26-73 | finalizing is for the bootstrap server, on one of its own addresses, staged for these inputs under a recorded key |
| `Finalize.InstalledReceiptNames` | internal/install/install.go:1649-1680 | the installed receipt carries the staged cluster, the version of the bundle, its ownership, and every planned server once with its UID |
| `Finalize.PlainConfigIs` | internal/install/install.go:841-848 | a fresh K3s is a single server under its own name on the two fixed ranges, and neither joins nor initialises a cluster |
| `Finalize.SubstrateGate` | internal/install/three_server_finalize.go:74-85 | the gate opens exactly on a running service, the signed binary, the planned ready nodes and answering endpoints, unless a call fails |
| `Finalize.CollectMembers` | internal/install/three_server_finalize.go:96-107 | the members recorded are the planned servers in inventory order with valid UIDs, or none |
| `Finalize.HasEntryBefore` | internal/install/install.go:1726-1749 | the walk that stops early finds an entry older than the cutoff exactly when there is one |
| `Finalize.DiscardUncommitted` | internal/install/install.go:1701-1722 | database files go only if none is older than the stage of a server-ready receipt |
| `Finalize.DatabaseGate` | internal/install/install.go:652-697 | a new PostgreSQL gets an empty directory or the install stops; only then may a rollback clear it |
| `Finalize.Decide` | internal/k3s/ownership.go:84-121 | the installation goes on exactly without an installed receipt and either with no listed unit, then as a fresh one, or with an active, healthy K3s without foreign workloads, if no call fails |
| `Ownership.AdoptsIff` | internal/k3s/ownership.go:84-121 | an unrecorded K3s is adopted exactly if it is healthy without foreign workloads or the operator insists, and never after an interrupted install; an absent one means a fresh install |
| `Ownership.RecordedIff` | internal/k3s/ownership.go:84-97 | a recorded one is reused, upgraded or repaired as record and service say |
| `Finalize.MatchInventory` | internal/install/install.go:420-423 | the finalization handed over is accepted exactly when it describes the verified inventory, its endpoints in any order |
| `Finalize.Preflight` | internal/install/install.go:747-763 | success leaves no probed port bound, those of a detected and running K3s service excepted |
| `Finalize.InstallK3s` | internal/install/install.go:811-869 | a fresh install empties the data directory, and success means configuration, unit and binary in place and the service started last |
| `Finalize.RunRollbacks` | internal/install/install.go:880-911 | a clean rollback leaves nothing of a K3s that this run installed but its data, and an empty database directory if this run owned it; nothing else is touched |
| `Finalize.InstallProduct` | internal/install/install.go:745-1000 | a failure leaves no installed receipt, runs the rollbacks after a failed preflight and whenever K3s was adopted, and then either K3s is gone or it is as it was |
| `Finalize.OldDatabaseSurvives` | internal/install/install.go:652-697 | with one database entry older than the stage, a whole run of finalize keeps every entry |
| `Finalize.SeenServerKeepsItsData` | internal/install/install.go:747-840 | a run that sees the unit, or any probed port in use, removes nothing from the K3s data directory, whatever else holds |
| `Finalize.ServerOnItsPortsKeepsItsData` | internal/install/install.go:751-763 | a server that the probe meets on one of its ports keeps its data, listed or not |
| `Finalize.StagedDataCanGoIff` | internal/install/install.go:634-840 | over all logs up to any crash, a host's data can shrink exactly when all gates of finalize are passed on it, nothing is installed, a new PostgreSQL finds nothing older than the stage, no unit is listed and no probed port is in use |
| `Finalize.DataStays` | internal/install/three_server_finalize.go:74-118 | whichever of these conditions fails before the run, no write of the run removes data |
| `Finalize.WipeDecision` | internal/install/install.go:652-834 | behind the gates, the wipe comes exactly after an empty database directory for a new PostgreSQL, no installed receipt, no listed unit and no probed port in use |
| `ClusterWitness.StoppedServerCanBeWiped` | internal/install/install.go:811-840 | the failing input as a run: a server that staging brought up passes all of finalize's gates, then stops, its unit is not listed, and its data goes |
| `ClusterProtocol.StepKeepsInv` | internal/install/three_server.go:97-132 | every write of every host, every minting and every foreign change keeps the cluster invariant |
| `ClusterProtocol.NewPeerAgrees` | internal/install/three_server.go:101-132 | a new peer receipt agrees with the bootstrap whose key it pins, because only that host can have minted its enrollment |
| `ClusterProtocol.EveryStateSound` | internal/install/three_server.go:251-353 | the invariant holds in every state of every interleaving with crashes anywhere |
| `ClusterProtocol.ReceiptsOnlyMoveForward` | internal/clustertopology/bootstrap_state.go:49-111 | over a whole run a receipt moves absent, prepared, server-ready, finalized on a bootstrap and absent, prepared, joined on a peer, never back, and never changes node, inventory, role, cluster or identity |
| `ClusterProtocol.PeersAgreeWithTheirBootstrap` | cmd/zonctl/cluster_stage_commands.go:192-242 | in every reachable state a peer agrees with its pinned bootstrap on cluster, signer, inventory, name, profile and zone |
| `ClusterProtocol.PeersJoinWithTheirBootstrapsToken` | cmd/zonctl/cluster_stage_commands.go:208-242 | a peer brought up under the key of a bootstrap holds in its token file the K3s token that some minting on that very bootstrap read, for that peer by name, and has checked the CA read there |
| `ClusterProtocol.StagedIsAdmittedByFinalize` | internal/install/three_server_finalize.go:56-73 | after a successful stage of the bootstrap finalize admits the same inputs, whatever release the receipt had held before |
| `ClusterProtocol.RecordedWhenInPlace` | internal/install/three_server.go:292-353 | in no run is a server recorded as ready or joined before it is active with its unit, binary, configuration and token and, on a peer, in the enrolled cluster |
| `ClusterProtocol.FirstReceiptOnEmptyHost` | internal/install/three_server.go:178-262 | and none gets a first receipt unless its data and database directories are empty |
| `ClusterProtocol.FinalizedIsInstalled` | internal/install/three_server_finalize.go:86-95 | in every reachable state a finalized receipt stands beside the matching installed receipt, for exactly the version it recorded |
| `ClusterProtocol.FinalizedRecordsAreFrozen` | internal/install/three_server.go:84-90 | no write of stage or finalize, whatever bundle it runs, changes a record of a finalized host |
| `ClusterProtocol.HalfFinalizedIsRefusedByStage` | internal/install/three_server_finalize.go:120-131 | after a crash between the two receipts of finalize no run of stage is admitted |
| `ClusterProtocol.RunningServerKeepsItsData` | internal/install/install.go:747-763 | over any stretch of a run in which a server stays active and every probe finds it on a port of its own, no command of any host removes any of its data |
| `ClusterProtocol.StageLogIsSteps` | internal/install/three_server.go:39-354 | each write of a staging run is a step of the cluster system; only one that stores a key needs that key to be fresh |
| `ClusterProtocol.FinalizeLogIsSteps` | internal/install/three_server_finalize.go:26-132 | each write of a finalizing run is a step of the cluster system |
| `ClusterCommands.StageLogs` | internal/install/three_server.go:39-354 | the log of a staging run is a stretch of the life of its host |
| `ClusterCommands.FinalizeLogs` | internal/install/three_server_finalize.go:26-132 | and so is the log of a finalizing run |
| `ClusterCommands.LifeGoesOn` | internal/install/three_server.go:39-354 | one command after another, or after a foreign change, on a host is a life again |
| `ClusterCommands.CommandsAreBehaviours` | internal/install/three_server.go:251-353 | any number of commands at once on any number of hosts, each to wherever it crashes or ends, one after another on each host and interleaved between hosts, together are a behaviour of the cluster; that any single write is a step is concluded, for all commands by one induction, from ideal keys and signatures |
| `ClusterCommands.BehavioursAreLives` | internal/install/three_server.go:251-353 | conversely every behaviour is such an interleaving |
| `ClusterWitness.PeersCanJoin` | internal/install/three_server.go:251-353 | for every valid inventory, release and identity both staging commands succeed on fresh hosts unless a call fails, and their logs, in their own order of writes, lead to a bootstrap that is brought up and a joined peer that is brought up and pins its key |
| `ClusterWitness.ClustersCanFinalize` | internal/install/three_server_finalize.go:26-132 | and from there finalize succeeds unless a call fails, and the log of a run that adopts the server leads to a finalized bootstrap with its installed receipt |
| `ImageReferences.PinnedDigest` | internal/images/archive.go:156-177 | a reference pins a digest exactly when it ends in @ and that digest |
| `ImageReferences.AnnotationFitsIff` | internal/images/archive.go:123-154 | an annotation fits if it repeats the reference, pins the expected digest, or is the local name with or without a tag |
| `ImageReferences.AcceptableIff` | internal/images/archive.go:185-222 | a source may be tagged from exactly if it names the content, is listed with it, or is listed with none and came with this import |
| `ImageReferences.TagCandidates` | internal/images/archive.go:185-222 | the candidates are exactly the safe sources, each once, those of this import that name the content and the content itself first |
| `ImageReferences.CandidatesAreSafe` | internal/images/archive.go:224-241 | no candidate is known to hold other content unless its own text names the wanted content |
| `ImageOrder.Ordered` | internal/images/image.go:36-43 | ascending categories, each in its old order |
| `ImageOrder.StableOrderPermutes` | internal/images/image.go:36-43 | the stable order is a permutation |
| `ImageOrder.StableOrderUnique` | internal/images/image.go:36-43 | there is only one stable order, whatever algorithm sorts |
| `Preload.ReferenceFitsIff` | internal/images/archive.go:86-121 | a required reference must not be blank; if it pins a digest, an archive with a manifest must have that one, under no annotation or one that fits, and an unusable index serves none |
| `Preload.NewReferences` | internal/images/preload.go:335-344 | exactly the references that a later listing shows and the earlier did not, strictly ascending |
| `Preload.EnsureImageReference` | internal/images/preload.go:288-333 | only the wanted name is ever tagged, only from a safe candidate or the content itself, until one call succeeds; giving up means that every safe source was tried |
| `Preload.TagImported` | internal/images/preload.go:234-265 | success means the store binds the wanted name to exactly the archive's digest, whichever source was tried |
| `Preload.PreloadImage` | internal/images/preload.go:130-286 | one image: bound on success, others stay bound, bookkeeping exact under any failures, an image already bound is not touched |
| `Preload.PreloadAll` | internal/images/preload.go:121-286 | success with honest imports binds every required reference to its archive's digest exactly when the list is consistent; everything new is on the rollback list; on success with complete listings and imports that rebind nothing, an old name is on that list exactly when it is a required reference bound to other content than its archive's; a settled store sees no call for a required image; it succeeds whenever no call fails or lies and every archive is sound, and only if every archive has its digest and a usable index; every call it makes is for an image of the release whose archive was found sound; an unsound archive does not keep the others from being bound |
| `Preload.Rollback` | internal/images/preload.go:392-403 | every name is attempted once in order, only they go, and all are gone if present names can be removed |
| `Preload.PreloadAndRollback` | internal/images/preload.go:116-121 | whether preloading succeeds or fails, a rejected mis-tag included, removing the names on its list leaves a subset of the references there were |
| `Preload.StaleReferenceIsListed` | internal/images/preload.go:184-221 | an input on which the list holds a name that was there before |
| `Preload.StaleRun` | internal/images/preload.go:184-221 | the calls of that run, all of them honest and successful |
| `Preload.PreloadStep` | internal/install/install.go:926-932 | a later failure of the installation undoes the preload, and an undone preload leaves the reference set a subset of the old one |
| `Preload.PinnedReferencesAreTrue` | internal/images/archive.go:88-121 | after a successful preload each digest-pinned reference of an OCI archive is bound to the digest in its own name |
| `Lifecycle.Journal.Begin` | internal/lifecycle/journal.go:82-95 | the in-progress record is on disk before the transaction is handed out, except in a dry run |
| `Lifecycle.Journal.Finish` | internal/lifecycle/journal.go:103-123 | the transaction becomes terminal in memory in any case, the record changes all or nothing |
| `Lifecycle.LockFile.Acquire` | internal/lifecycle/lock.go:27-54 | never waits, never takes a held lock, gives the lock back when the file cannot be written |
| `Lifecycle.Dispatch` | cmd/zonctl/dispatch.go:87-207 | over an unfinished record a command runs exactly if it is repair, uninstall or factory-reset, or the staging or finalizing that left the record; over any other record or none it runs, if lock and precheck allow and no call fails; what it leaves is its own record with its outcome, unless a factory reset removed the journal |
| `Lifecycle.InstallNeverSeesPriorAttempt` | cmd/zonctl/dispatch.go:127-136 | the prior-attempt flag can only reach a recovery command |
| `DispatchProtocol.StepKeepsInv` | cmd/zonctl/dispatch.go:107-205 | every step of every process, deaths and factory resets included, keeps the invariant |
| `DispatchProtocol.UnfinishedRecordsHaveOwners` | internal/lifecycle/journal.go:37-42 | in every reachable state an unfinished record belongs to a lock holder or to a process that went without recording its outcome |
| `DispatchExclusion.MutualExclusion` | internal/lifecycle/lock.go:27-64 | in any reachable state in which all open lock files are one, at most one process is past the lock |
| `DispatchExclusion.ExposedIffLocksCanBreak` | internal/lifecycle/lock.go:27-54 | lock calls can bring two processes past the lock exactly when two have different lock files open |
| `DispatchExclusion.NoResetNoExposure` | internal/lifecycle/lock.go:27-64 | without a factory reset all open lock files are one in every state |
| `DispatchExclusion.ResetExposesIff` | internal/teardown/teardown.go:231-242 | a factory reset lets exclusion break exactly when a command opens the new lock file while the removed one is still open somewhere |
| `DispatchExclusion.OldFileHolders` | internal/teardown/teardown.go:231-242 | the removed lock file is open only in the reset itself or in a process that had opened it before and not yet locked it |
| `DispatchExclusion.ExclusionReturns` | internal/lifecycle/lock.go:27-64 | once nobody has the removed file open any more, all open lock files are one again |
| `DispatchExclusion.OnlyPermittedReplacement` | cmd/zonctl/dispatch.go:127-138 | a process that takes its lock and acts while all open lock files are one replaces another's unfinished record only by a command that the gate lets through, whatever resets came before |
| `DispatchExclusion.ReplacersAreNamed` | cmd/zonctl/dispatch.go:131-135 | under the same conditions whoever changes or removes another one's unfinished record is a repair, uninstall or factory-reset, or the staging or finalizing of that record's kind |
| `DispatchExclusion.GateOpensIff` | cmd/zonctl/dispatch.go:131-135 | the gate opens exactly for those, or if there is no unfinished record |
| `DispatchProtocol.DryRunsChangeNothing` | internal/lifecycle/journal.go:110-113 | a dry run changes neither journal nor locks |
| `DispatchProtocol.InstallIsNeverASecondAttempt` | cmd/zonctl/dispatch.go:136-143 | in every reachable state an installation past the gate has the prior-attempt flag off |
| `DispatchWitness.FactoryResetBreaksExclusion` | internal/teardown/teardown.go:231-242 | first failing input: a command that had opened the removed lock file begins over a backup's unfinished record |
| `DispatchWitness.ResetRunsBesideCommand` | cmd/zonctl/dispatch.go:107-116 | second failing input: a command gets past the new lock while the reset still runs |
| `WorkerUpgrade.Worker.Restore` | internal/install/join.go:58-76 | a snapshot puts back content and permission bits, or absence |
| `WorkerUpgrade.Worker.RollBack` | internal/install/join.go:156-178 | all three files are attempted, and the service is started once |
| `WorkerUpgrade.Worker.Upgrade` | internal/install/join.go:99-221 | success exactly when the worker is eligible, its configuration valid and no call fails; after the stop all or nothing on the three files and the receipt, before it nothing; the service is last started with the files it is left with |
| `WorkerUpgrade.RenderDetermines` | internal/k3s/config.go:128-170 | the configuration text determines its settings whatever they contain, the unit text its paths if these have no spaces |
| `WorkerUpgrade.SavedIsContent` | internal/install/join.go:38-56 | what a rollback restores is the old file exactly when it had no set-id or sticky bits |
| `HostAgent.InstallOrUpdate` | internal/hostagent/hostagent.go:92-154 | success exactly for a complete specification and no failing call, with both files installed and a rollback over their old contents; a failure leaves or puts back the old contents |
| `HostAgent.UnitDetermines` | internal/hostagent/hostagent.go:31-48 | on paths without spaces two unit texts are equal exactly if binary, socket and log are |
| `HostAgent.Rollback.Run` | internal/hostagent/hostagent.go:107-131 | both files are written back in place |
| `HostAgent.RollbackInvertsInstall` | internal/hostagent/hostagent.go:216-245 | the rollback is a true inverse on contents and absence, and on modes exactly when the old modes were the installed ones |
| `Backup.CopyDir` | internal/backup/backup.go:325-366 | a copy into an empty directory has the source's names and contents and one fixed mode each; the entries list each file once |
| `Backup.FlatIsCopy` | internal/backup/backup.go:325-366 | a copy keeps names and contents, with mode 0750 for directories and 0640 for files |
| `Backup.Verify` | internal/backup/backup.go:149-187 | success exactly when every listed file is in place with its digest and no read fails |
| `Backup.SoundCoversAll` | internal/backup/backup.go:149-193 | verification covers every listed file of all three trees, for its content |
| `Backup.Host.Create` | internal/backup/backup.go:35-144 | one attempt to start for one successful stop on every path; success, and a faithful copy that passes verification, exactly when the given trees exist and no call fails; the copy is made while K3s is down |
| `Backup.Host.Restore` | internal/backup/backup.go:204-321 | a failed integrity check leaves the host untouched; one attempt to start for one successful stop on every path; success exactly for a sound backup and no failing call; directories are replaced while K3s is down |
| `Backup.FreshBackupIsSound` | internal/backup/backup.go:146-202 | a backup as it was taken passes verification, so that only failing calls can stop its restore |
| `Backup.BackupThenRestore` | internal/backup/backup.go:204-321 | the round trip is the identity on the data tree's names and contents, and on the optional trees exactly under the stated conditions |
| `Backup.RestoredFilesAreListed` | internal/backup/backup.go:149-187 | a listed file that was altered in the backup is never restored |
| `Backup.UnlistedFilesAreRestored` | internal/backup/backup.go:257-275 | the witness: a file that the manifest does not list passes verification and is restored |
| `Backup.RestoresOriginalIffAllListed` | internal/backup/backup.go:149-187 | a verified backup restores exactly the files that were backed up if and only if it holds no unlisted file, and exactly the tree if moreover its directories are the old ones |
| `Routing.RemoveNode` | cmd/zonctl/cluster_commands.go:40-75 | the two deleting passes compute the withdrawal, or nothing if no instance was on the node |
| `Routing.UpdateIff` | cmd/zonctl/cluster_commands.go:40-73 | something is written back exactly if the registry decodes and has an instance on the node, and then without unknown fields |
| `Routing.WithdrawnIsClean` | cmd/zonctl/cluster_commands.go:40-75 | no instance on the node, no decodable binding without its instance, everything else kept |
| `Routing.SecondWithdrawalIsNoOp` | cmd/zonctl/cluster_commands.go:48-57 | a second withdrawal has nothing to do |
| `Routing.StaleBindingsNeedAnInstance` | cmd/zonctl/cluster_commands.go:48-69 | dangling bindings are absent afterwards exactly when an instance was on the node or there were none |
| `Routing.OtherInstancesVerbatim` | cmd/zonctl/cluster_commands.go:32-46 | other instances survive the rewrite verbatim exactly when they carry no field this tool does not decode |
| `Routing.WithdrawNodeRouting` | cmd/zonctl/cluster_commands.go:77-112 | with concurrent publishers, a write happens only if nobody published since the read, and replaces exactly the version it was computed from |
| `Routing.CallsExtendLineage` | cmd/zonctl/cluster_commands.go:94-112 | each call, with others publishing beside it, leaves a history in which every version of this tool is the withdrawal from its immediate predecessor |
| `Routing.NoPublicationIsLost` | cmd/zonctl/cluster_commands.go:94-109 | over any such history, with any number of publishers and withdrawals, a publication stands until a publisher changes it or its own node is withdrawn |
| `Routing.NoBindingIsLost` | cmd/zonctl/cluster_commands.go:94-109 | and so does a binding together with the publication that it is bound to |
| `Values.IdempotentInSource` | internal/productconfig/values_overlay.go:57-71 | merging the same source twice is merging it once |
| `Values.SourceWins` | internal/productconfig/values_overlay.go:57-71 | leaf by leaf, what the source holds wins, what it does not decide stays, and nothing else is there |
| `Values.AssociativeIffNoClash` | internal/productconfig/values_overlay.go:57-71 | grouping is irrelevant for every first operand exactly when no path holds a non-map in the middle operand and a map in the last |
| `Values.ClashBreaksAssociativity` | internal/productconfig/values_overlay.go:57-71 | a witness for every clash |
| `ValuesMerge.MergeValues` | internal/productconfig/values_overlay.go:57-71 | the in-place recursion computes the pure merge, leaves the source as it was and shares no map with it |
| `HostsBlock.ReplaceOrAppend` | internal/hostdns/hostdns.go:515-532 | the first block and the line breaks after it are replaced, or the block is appended to a terminated body, or a malformed block is refused |
| `HostsBlock.Strip` | internal/hostdns/hostdns.go:534-548 | the first well-formed block and the line breaks after it are removed |
| `HostsBlock.AppendedOnOwnLine` | internal/hostdns/hostdns.go:515-532 | a block that is appended starts a line of its own |
| `HostsBlock.BlockFound` | internal/hostdns/hostdns.go:515-548 | a block just written is the one found again, whatever text surrounds it |
| `HostsBlock.LastWriteWins` | internal/hostdns/hostdns.go:515-532 | writing x and then y is writing y, for every body without a malformed block |
| `HostsBlock.StripUndoesWrite` | internal/hostdns/hostdns.go:534-548 | stripping after writing gives the stripped original, or the terminated original if it had no block |
| `HostsBlock.EnsureHostsEntry` | internal/hostdns/hostdns.go:471-495 | what is written, if anything |
| `HostsBlock.LastEntryWinsIff` | internal/hostdns/hostdns.go:471-495 | with the contains shortcut the last entry wins exactly when the earlier one changed nothing, or the later block was not there, or it stands first, as it would be written, and only once |
| `HostsBlock.PlainLineIsGood` | internal/hostdns/hostdns.go:471-475 | a line of an address and host names without number signs is free of markers |

## Left out

- Stage.StageEmbeddedEtcd: preflight thresholds, the host baseline, image preloading and pull registries are single steps that may fail; a run is one process at a time on its host, as the installer lock provides; it reads the clock once before and once after the bring-up.
- Finalize.SeenServerKeepsItsData: a server that binds its ports between the probe and the wipe is not told apart from one that does not.
- Finalize.DropStaleReceipt: the branch that drops an installed receipt is there, but no run of finalize takes it, because its gate has found the binary.
- Finalize.FinalizeEmbeddedEtcd: the chart rollout, secrets, host packages, DNS preparation and service directories of `Install` are two steps, one before K3s is touched and one after, each of which may fail; the rollbacks they register are not modelled.
- Finalize.RunRollbacks: only the K3s files, the service and the database directory are undone here; failures that `Install` returns without running rollbacks are modelled as such, and `PreserveFailedState` is not.
- ClusterProtocol.EveryStateSound: factory reset, uninstall, repair and the legacy worker and prime joins are not steps of the system, and two random cluster identifiers are never compared.
- ClusterProtocol.PeersAgreeWithTheirBootstrap: a peer that an operator made pin a key of no host in the system is not covered.
- Preload.PreloadAll: writers to the store other than this run, beyond what an import itself binds, and the temporary file of a compressed archive; listings are parsed sets and maps.
- ImageOrder.Ordered: the library's stable sort is written as stable insertion into a new slice.
- Lifecycle.Dispatch: times and transaction identifiers are parameters; the commands' own work is one call with an arbitrary outcome.
- DispatchExclusion.OnlyPermittedReplacement: one host, one state directory; opening and locking the lock file are separate steps, truncating and writing it are not; a factory reset removes lock file and journal in one step.
- ClusterCommands.CommandsAreBehaviours: commands on one host come one after another, as the installer lock provides; between the writes of one run, K3s at work on the same host is part of the run's own operations.
- WorkerUpgrade.Worker.Upgrade: the receipt has the fields the upgrade reads or writes; the container runtime file of a GPU host is rewritten without a snapshot and is not among the files here; which binary a running process uses is not claimed.
- HostAgent.InstallOrUpdate: writing over a binary that is running can fail on Linux; here it is one of the failures of the call.
- Backup.Host.Create: symbolic links, which the copy follows, and trees that overlap; the backup directory is new and empty.
- Routing.WithdrawNodeRouting: JSON text is abstract; others publish between the read and the patch, and a deleted and recreated ConfigMap is not modelled.
- ValuesMerge.MergeValues: lists are leaves; a list in the source is shared with the result as it is in the program, together with any map inside it.
- HostAgent.RenderUnit: the lines of unit and configuration files that do not depend on the installation, and the quoting of control characters other than a line break.
- HostsBlock.EnsureHostsEntry: the choice of host names and aliases, and a file write that fails halfway.
- Receipt and enrollment files, YAML, JSON, tar and X.509 encodings, and the text of K3s configuration and unit files: decoded values take their place, and a rendered file is its configuration.
- Ownership.DecideOwnership is used as the program's decision table; its consequences are stated where finalize uses it.
- Diagnostics, evidence and messages, command-line options, the release bundle's verification, Avahi and Wi-Fi, NVIDIA setup, and the restore of recovery sets.
