# Verified models of the Swift operator

The operator runs OpenStack Swift on Kubernetes. This project models the parts of it in which data can be lost or a
credential can be revoked too early, and proves what they keep over every run.

- **Ring pipeline.** `DeviceList` turns storages, claims, pods and dataplane inventories into a sorted text
  (`DeviceList`, `DeviceListProperties`). The SwiftRing controller publishes the text and gates a rebalance job with two
  recorded hashes (`RingController`). The job parses the text (`ReadLoop`, `ReadBack`) and does a
  read-modify-write of the ring ConfigMap (`RingBuilder`, `RingTool`); several such runs may race (`RingProtocol`).
  `Pipeline` composes list, parser and tool, from the cluster to the published builders; `RingSystem` runs the
  controller and the tool together, and `RingProgress` proves when a list reaches the builders.
- **Credential rotation of SwiftProxy.** `ProxyRotation` is the reconcile as a machine of atomic steps, with spec edits,
  rollouts, early returns and secret deletions in between, and as a class that runs the statements in their order.
  `ProxyHandover` proves what the machine keeps, for the application credential and the transport URL alike, and
  `ProxyOutcome` what one reconcile makes of its inputs.
  `ProxyDelete` is the cleanup, stopped and rerun at will.
- **Write-once and crash-safe steps.** `SwiftConf` is the life of the Secret with the hash prefix and suffix;
  `XattrRestore` the init container that restores extended attributes.
- **Admission and annotations.** `Webhook` has the rule against scale-in, with its consequence for the ring keys, and
  the ownership of the route timeout.

`Text` holds strings, byte order, sorting and decimal printing. Code that changes things step by step is a class or a
loop proved equal to a function on values; the theorems are about that function and about whole runs of it.

## Assumptions

- Kubernetes: resourceVersions are never reused; PUT succeeds only on the version it names, POST only when the object is
  absent; an object with a deletion timestamp vanishes with its last finalizer and admits no new one. One worker
  reconciles one object at a time.
- `swift-ring-builder`: `search` matches exactly on (ip, device) and exits 2 on no match, `add` succeeds, `rebalance`
  changes only the partition assignment. Tar and base64 are lossless. Each run of the tool starts in an empty directory
  and with file names and words that the shell does not expand.
- lib-common: the object hash is injective and non-empty. `DoJob` does nothing when the recorded hash is that of the
  job, creates a missing job, waits for an existing one, reports failure, and may delete a job of another spec.
  `ManageSecretConsumerFinalizer` adds; `FinalizeSecretRotation` with guard releases a different old secret and returns
  the new one, without guard changes no finalizer and returns the old one, or either when the old one is empty;
  `PruneSecretConsumerFinalizers` releases all but the kept names; `EnsureSecrets` creates or overwrites.
- SwiftProxy: one per namespace; the deferred status patch succeeds; pods carry the secrets of the Deployment template
  they came from; `IsReadyForInput` means that every pod runs the current input.
- Ring system: a pod of a rebalance job reads devices.txt after the job was created and before it is gone. Device lists
  name their hosts, and builders written into the ConfigMap by hand have distinct devices with ips.
- Inventories have `edpm_services`. Go's string order is the order of code points.

## Properties that do not hold as one might expect

- The recorded transport secret can lose its finalizer: when ceilometer is disabled, the secret is released before the
  TransportURL is deleted, and the status still names it if that delete fails (`ProxyHandover.RecordedHeldStep` has the
  exact condition, `ProxyHandover.TransportIsLost` a run).
- A rebalance job that failed, for a device list that is already recorded, is never replaced
  (`RingController.ReadyIsReached`, `RingController.StuckIsReached`).
- A ring that is ready for a list need not have it published: the job also succeeds when its push is refused because
  another run was faster, or when a user's ring has no builder, and no reconcile starts another job for that list
  (`RingProgress.ReadyAndPublished` has the exact condition, `RingProgress.ReadyButUnpublished` and
  `RingProgress.CustomRingsStayUnpublished` the runs).
- A `swift-conf` Secret that a human operator creates between the controller's read and its create is overwritten
  (`SwiftConf.ExistingIsKept`, `SwiftConf.OverwriteIsReached`), and `reconcileSwiftConfMetaData` also succeeds without
  protecting anything, when the Secret is missing (`SwiftConf.SuccessProtects`, `SwiftConf.EmptySuccessIsReached`).
- The backup hook leaves its dump on the live volume. After that the pod restarts if and only if every dumped file still
  exists (`XattrRestore.BackupLingers`).
- A word with a blank, a backslash or a newline does not survive devices.txt, except a blank inside the node name
  (`ReadBack.RecordRoundTrip` has the exact condition).
- Waiting for a rollout before every rotation does not alone protect the pods: a reconcile that has begun with
  ceilometer on may roll out a transport secret that is published after ceilometer was disabled
  (`ProxyHandover.SurpriseUnprotects`).
- A user who sets the route timeout to the value it already has does not take it over (`Webhook.TakeOver`).
- `docs/backup-restore-xattrs.md:170` scales SwiftStorage to 0 for a restore; the webhook rejects that update. The model
  follows the code.

## Model

| member | source | states |
|---|---|---|
| DeviceList.DeviceListText | internal/swiftring/funcs.go:43-172 | succeeds if and only if everything is in order; the text depends only on the multiset of devices; a failure names the first thing that is wrong, storages before inventories, earlier replicas first, the claim before the pod |
| DeviceList.ReplicaDevice | internal/swiftring/funcs.go:57-85 | one line per ready replica, and otherwise the first of missing claim, unbound claim, missing pod and unscheduled pod |
| DeviceList.ReplicaDevices | internal/swiftring/funcs.go:56-86 | all replicas of a storage or none |
| DeviceList.StorageDevices | internal/swiftring/funcs.go:50-87 | the volumes of all storages or none |
| DeviceList.HostDevices | internal/swiftring/funcs.go:143-145 | one line per disk of a host |
| DeviceList.GroupDevices | internal/swiftring/funcs.go:110-147 | whatever order the Go map yields, the records are those of the hosts with their effective disks |
| DeviceList.InventoryDevices | internal/swiftring/funcs.go:99-149 | node sets that do not deploy Swift contribute nothing; unreadable input fails the whole list |
| DeviceList.HostRecordsRemove | internal/swiftring/funcs.go:125-146 | any host may be visited first |
| DeviceList.TextOf | internal/swiftring/funcs.go:151-157 | sorting makes the text canonical: permuted records give the same text |
| Text.SortedPermutationsAreEqual | internal/swiftring/funcs.go:151-152 | two sorted permutations under byte order are the same sequence |
| DeviceListProperties.ListingOrderIrrelevant | internal/swiftring/funcs.go:55-157 | reordering storages or inventories changes neither success nor text, hence not the hash |
| DeviceListProperties.PvHostInjective | internal/swiftring/funcs.go:85 | volumes share a host name only if they are the same volume, whatever the storage names are |
| DeviceListProperties.HostsDisjoint | internal/swiftring/funcs.go:85-126 | no volume is known by the host name of a dataplane node |
| DeviceListProperties.VolumeHasOneLine | internal/swiftring/funcs.go:55-86 | every volume of every storage is listed exactly once |
| DeviceListProperties.ListIsComplete | internal/swiftring/funcs.go:55-149 | every volume has exactly one line, and every line is a volume's or an effective dataplane disk's |
| DeviceListProperties.HostHasItsDisks | internal/swiftring/funcs.go:125-145 | a host's lines are exactly its effective disks: its own list replaces the global one and never affects another host |
| DeviceListProperties.OwnDisksReplaceGlobal | internal/swiftring/funcs.go:125-141 | a host with its own list has exactly those disks, even if the list is empty; a host without has the disks of its node set, or none |
| DeviceListProperties.DiskIsListed | internal/swiftring/funcs.go:103-149 | every disk of a Swift host, of its own list or else of the node set's, is in the list |
| DeviceListProperties.ReadyExactly | internal/swiftring/funcs.go:49-141 | the list is computed exactly when both listings succeed, every claim is bound, every pod is on a node, every inventory parses and so do the disk lists of Swift node sets |
| DeviceListProperties.OtherNodeSets | internal/swiftring/funcs.go:110 | a node set without Swift contributes nothing |
| DeviceListProperties.NamesOfReplica | internal/swiftring/funcs.go:57-85 | the pod is named by storage and replica number, the claim is named for the pod, and the host is the pod's DNS name |
| DeviceListProperties.LineOfVolume | internal/swiftring/funcs.go:68-85 | the line of a volume, with its capacity in units of 10^9 bytes as weight |
| DeviceListProperties.LineOfDisk | internal/swiftring/funcs.go:143-145 | the line of a disk |
| DeviceListProperties.DataplaneHostIs | internal/swiftring/funcs.go:126 | the host name of a dataplane node |
| DeviceListProperties.BaseIsLastElement | internal/swiftring/funcs.go:144 | the device of a disk is the last element of its path, trailing slashes apart |
| DeviceListProperties.BaseOfSlashes | internal/swiftring/funcs.go:144 | the element is a dot for the empty path and a slash for slashes alone |
| DeviceListProperties.TextIsSorted | internal/swiftring/funcs.go:151-157 | the text is the lines of the records in byte order |
| Text.LeqIsByteOrder | internal/swiftring/funcs.go:152 | the order of the lines: a prefix, or smaller where they first differ |
| Text.NatIsDecimal | internal/swiftring/funcs.go:85 | numbers are printed in decimal without leading zeros |
| Text.IntIsDecimal | internal/swiftring/funcs.go:144 | a negative number is a minus sign and the decimal of its absolute value |
| Text.QuotTruncates | internal/swiftring/funcs.go:70 | weights are truncated toward zero |
| ReadLoop.ReadRendered | templates/swiftring/bin/swift-ring-tool:59 | a record whose non-empty words come first, whose first five words are free of blanks, backslashes and newlines, and whose node has no backslash or newline and no blank at its ends, is read back as itself, whatever follows |
| ReadLoop.UnterminatedIsLost | templates/swiftring/bin/swift-ring-tool:59-71 | a last line without a newline is not read |
| ReadLoop.BackslashJoins | templates/swiftring/bin/swift-ring-tool:59 | a backslash at the end of a line joins it to the next |
| ReadBack.RecordRoundTrip | templates/swiftring/bin/swift-ring-tool:59 | one record is read back as itself if and only if it has that form |
| ReadBack.RoundTrip | internal/swiftring/funcs.go:151-157 | reading devices.txt recovers exactly the multiset of printed records if and only if all of them have that form |
| ReadBack.ReadHalves | templates/swiftring/bin/swift-ring-tool:59 | every backslash that the loop reads has used up two |
| ReadBack.ReadIsExact | templates/swiftring/bin/swift-ring-tool:59 | from a text without backslashes the loop reads only records of that form |
| ReadBack.BlankShiftsWords | templates/swiftring/bin/swift-ring-tool:59 | how it fails for a host name with a blank: the words shift into the later variables |
| RingBuilder.Search | templates/swiftring/bin/swift-ring-tool:61 | finds a device if and only if its (ip, device) is among the keys |
| RingBuilder.AddAllGrows | templates/swiftring/bin/swift-ring-tool:59-71 | known devices keep id and every field, keys become the union with the list, at most one device per key |
| RingBuilder.AddedFrom | templates/swiftring/bin/swift-ring-tool:62 | each new device has the fields of a line of the list |
| RingBuilder.SwapInPlace | templates/swiftring/bin/swift-ring-tool:79-81 | the in-place loop exchanges ip and meta of the named volumes and touches nothing else |
| RingBuilder.MetaSwap | templates/swiftring/bin/swift-ring-tool:75-84 | load, swap, save |
| RingBuilder.SwapInvolution | templates/swiftring/bin/swift-ring-tool:75-94 | swapping twice restores the table if and only if every volume with a node name has an ip |
| RingTool.Api.Post | templates/swiftring/bin/swift-ring-tool:126-129 | creates only what is absent |
| RingTool.Api.Put | templates/swiftring/bin/swift-ring-tool:130-133 | replaces only the version it names |
| RingTool.Run.Get | templates/swiftring/bin/swift-ring-tool:11-45 | 200 unpacks the tar and then the ring keys, 404 starts from nothing, anything else stops the run |
| RingTool.Run.Initialise | templates/swiftring/bin/swift-ring-tool:48-54 | stops exactly for a ring file without its builder, otherwise creates the missing builders |
| RingTool.Run.AddDevice | templates/swiftring/bin/swift-ring-tool:61-62 | search and add for one line and one ring |
| RingTool.Run.ReadDevices | templates/swiftring/bin/swift-ring-tool:57-72 | the loop adds to each ring what folding the parsed records adds |
| RingTool.Run.RebalanceOne | templates/swiftring/bin/swift-ring-tool:88-93 | swap, rebalance, swap back, write the ring |
| RingTool.Run.RebalanceAll | templates/swiftring/bin/swift-ring-tool:87-94 | every builder file exactly once in any glob order; a failed swap ends the run |
| RingTool.Run.Push | templates/swiftring/bin/swift-ring-tool:119-168 | POST without, PUT with a fetched version; a refused push changes nothing and is not reported |
| RingTool.Run.All | templates/swiftring/bin/swift-ring-tool:187-194 | the script is one atomic step of the server when nobody interferes |
| RingProtocol.PushIsAtomic | templates/swiftring/bin/swift-ring-tool:11-45 | in any interleaving a push that takes effect was computed from exactly the content it replaces and equals an undisturbed run |
| RingProtocol.StalePushIsRefused | templates/swiftring/bin/swift-ring-tool:126-167 | a run whose content is outdated changes nothing |
| RingProtocol.RebalanceKeepsDevices | templates/swiftring/bin/swift-ring-tool:87-94 | the swap is undone, so the next run's search finds host names |
| RingProtocol.PreparedBuilder | templates/swiftring/bin/swift-ring-tool:48-94 | what one run makes of one builder file, and the ring written from it |
| RingProtocol.EffectiveRunKeys | templates/swiftring/bin/swift-ring-tool:57-94 | the published keys are the previous ones and the listed ones; other builders keep their devices |
| RingProtocol.EffectiveRunSettings | templates/swiftring/bin/swift-ring-tool:52 | a builder that a run creates has the partition power, replicas and min-part-hours of that run's environment |
| RingProtocol.EffectiveRunParts | templates/swiftring/bin/swift-ring-tool:87-94 | the published assignment is what rebalance made of the table with node names, or the old one where rebalance made none |
| RingProtocol.AddedPorts | templates/swiftring/bin/swift-ring-tool:62-70 | devices are added with the ports of the account, container and object servers |
| RingProtocol.FetchWhatWasPublished | templates/swiftring/bin/swift-ring-tool:28-32 | what a run pushes, the next run gets |
| RingProtocol.FetchWithoutTar | templates/swiftring/bin/swift-ring-tool:28-32 | a ConfigMap without a tarball gives ring files and no builders |
| RingProtocol.EffectiveRunRings | templates/swiftring/bin/swift-ring-tool:92-158 | every published ring, in the tarball and in the three keys that services mount, is written from the published builder, so all carry host names |
| RingProtocol.EffectiveRun | templates/swiftring/bin/swift-ring-tool:187-194 | ids, fields and settings of published devices stay; unique keys and swappability are kept |
| RingProtocol.StopsBeforePush | templates/swiftring/bin/swift-ring-tool:48-94 | a run stops before push exactly for an orphaned ring file or a failed swap |
| RingProtocol.UndisturbedRunTakesEffect | templates/swiftring/bin/swift-ring-tool:48-168 | a run that nobody interferes with replaces the ConfigMap if and only if no published ring lacks its builder and no swap fails |
| RingProtocol.RacesOnlyGrow | templates/swiftring/bin/swift-ring-tool:24-55 | over all races without deletion, published devices never change or vanish, and partition power, replicas and min-part-hours stay even if the environment changes |
| RingProtocol.NoDeviceIsLost | templates/swiftring/bin/swift-ring-tool:57-168 | the devices of a run that took effect are in all three rings ever after |
| RingProtocol.NodesForRebalance | templates/swiftring/bin/swift-ring-tool:75-94 | after any peaceful race, every run rebalances a published volume under its node name and pushes it unchanged, under its host name |
| Pipeline.ClusterRoundTrip | internal/swiftring/funcs.go:84-157 | the tool reads exactly the records of a cluster whose names are free of blanks, newlines and backslashes, blanks inside node names apart |
| Pipeline.ClusterReachesRings | templates/swiftring/bin/swift-ring-tool:57-94 | after an effective run the builders hold the previous keys and those of the cluster's volumes and disks, each once |
| Pipeline.AddedDeviceIsOfCluster | templates/swiftring/bin/swift-ring-tool:62 | an added device has region, zone, host, device, weight and node of a record of the cluster |
| Pipeline.EveryVolumeIsPublished | internal/swiftring/funcs.go:84-85 | every volume of every storage is in all three published builders |
| Pipeline.VolumeBalancedByNode | templates/swiftring/bin/swift-ring-tool:57-94 | a volume that a run in a race adds is known to every later rebalance by the node of its pod, and to every later published and pushed builder by its host name |
| Pipeline.SecondRunAddsNothing | templates/swiftring/bin/swift-ring-tool:59-71 | a later run with the same list leaves the device tables as they are |
| RingSystem.InvTrace | internal/controller/swiftring_controller.go:194-253 | controller, pods and any tool runs together: what the pods of the present job have read was published since the last advance, so every job completed since read such a list, and lists whose push stands are in all three builders |
| RingSystem.ReadyMeansRan | internal/controller/swiftring_controller.go:194-253 | when the ring is marked ready for a list, and devices.txt was nothing else since the advance, a completed job ran the tool with this list; if its push took effect and nobody deleted or rewrote the ConfigMap since, every key of the list is in all three builders |
| RingSystem.ReadyClusterIsPublished | internal/swiftring/funcs.go:55-157 | hence every volume and disk of the cluster with that list is published |
| RingProgress.JobRunPublishes | templates/swiftring/bin/swift-ring-tool:187-194 | a run of the job that nobody overtakes and that can swap ends successfully in any case; its push stands if and only if no published ring lacked its builder |
| RingProgress.JobRunKeys | templates/swiftring/bin/swift-ring-tool:57-94 | if none lacked it, the run adds exactly the keys of devices.txt to each ring |
| RingProgress.ReadyAndPublished | internal/controller/swiftring_controller.go:194-264 | twelve fair rounds without API errors, with jobs that end successfully, that can swap and that nobody overtakes, from every state: ready if and only if no kept failed job is in the way; every key of the list in all three builders if and only if they were there already, or no published ring lacks its builder and the list was not recorded yet or a job is still to run that brings the missing keys |
| RingProgress.NewListIsPublished | internal/controller/swiftring_controller.go:194-264 | from every reachable state, in such rounds: a list that is not the recorded one becomes ready, and every volume and disk of its cluster is in all three builders if and only if no published ring lacked its builder or they were there before |
| RingProgress.ReadyButUnpublished | templates/swiftring/bin/swift-ring-tool:119-168 | a run in which the push of the job is refused; the ring becomes ready, and the list stays unpublished in every quiet continuation |
| RingProgress.CustomRingsStayUnpublished | templates/swiftring/bin/swift-ring-tool:48-54 | the same for rings that a user created without builders |
| RingController.Controller.RunJob | internal/controller/swiftring_controller.go:224-225 | the job step follows the contract of DoJob |
| RingController.Controller.ReconcileNormal | internal/controller/swiftring_controller.go:168-264 | the statements compute the gating function, early returns included |
| RingController.Controller.ReconcileOnce | internal/controller/swiftring_controller.go:164-166 | one reconcile with its deferred status patch, which may be lost |
| RingController.AdvanceClearsGate | internal/controller/swiftring_controller.go:203-221 | DeviceListHash advances only while no job exists, to the list in devices.txt, and clears RingCreateHash in the same step |
| RingController.AdvancesExactly | internal/controller/swiftring_controller.go:194-222 | a list is recorded exactly when no job exists and no call before it fails |
| RingController.RunningJobSurvives | internal/controller/swiftring_controller.go:203-217 | an active job survives a new list |
| RingController.OldJobIsDeleted | internal/controller/swiftring_controller.go:203-217 | for a new list a job that is not active is deleted, and the list is not recorded before that |
| RingController.MissingJobIsCreated | internal/controller/swiftring_controller.go:219-225 | without a job one is created for a list that is new or not rebalanced |
| RingController.ListIsWritten | internal/controller/swiftring_controller.go:194-201 | devices.txt is written exactly for a list that is not the recorded one, whatever the job does |
| RingController.ReadyExactly | internal/controller/swiftring_controller.go:179-253 | Ready is marked exactly when the list is recorded, the job done and no call fails; the job's hash is recorded before the labels |
| RingController.PatchIsPersisted | internal/controller/swiftring_controller.go:164-166 | a lost patch loses the status alone |
| RingController.InvTrace | internal/controller/swiftring_controller.go:194-253 | in every reachable state a recorded job hash means that a job created since the last advance has completed |
| RingController.ReadyMeansRebalanced | internal/controller/swiftring_controller.go:194-253 | whenever the ring is marked ready for a list, some job created after devices.txt was set to that list has completed |
| RingController.TickLowersRank | internal/controller/swiftring_controller.go:194-253 | the measure (hash mismatch, job of another spec, job phase) never rises, and falls when the one that is due moves |
| RingController.ReadyIsReached | internal/controller/swiftring_controller.go:194-264 | with a fixed list and succeeding jobs, Ready is reached within twelve fair rounds from every state except exactly those with a kept failed job, and no job is left running |
| RingController.StuckIsReached | internal/controller/swiftring_controller.go:194-241 | such a state is reached from a fresh ring when the first job fails |
| ProxyRotation.Reconciler.Reconcile | internal/controller/swiftproxy_controller.go:271-897 | the statements in their order are steps of the machine, for every set of early returns |
| ProxyHandover.ReconcileOnce | internal/controller/swiftproxy_controller.go:271-897 | running them, stopped anywhere, keeps the recorded credential held; at the end each finalizer is on exactly the recorded and the desired secret |
| ProxyOutcome.UnfinishedKeepsRecorded | internal/controller/swiftproxy_controller.go:814-863 | while the Deployment, any other condition or any pod is not ready, at every point of a reconcile, the recorded secrets stay recorded, guardReady is false and the TransportURL stays |
| ProxyOutcome.FinishedHandsOver | internal/controller/swiftproxy_controller.go:271-897 | a finished rollout records the wanted secrets, which alone carry the finalizers; a recorded transport secret that is not wanted any more takes its TransportURL with it, and one never recorded does not |
| ProxyOutcome.UnfinishedHoldsBoth | internal/controller/swiftproxy_controller.go:664-887 | an unfinished rollout ends with the old secrets recorded and the finalizers on the old and the wanted ones |
| ProxyOutcome.DeploymentIsWanted | internal/controller/swiftproxy_controller.go:664-762 | the Deployment changes only when both secrets exist, and then to them and the rest of the input |
| ProxyOutcome.AsksForTransport | internal/controller/swiftproxy_controller.go:271-295 | without a secret name from the TransportURL a reconcile asks for one and changes nothing else |
| ProxyOutcome.StepFinalizers | internal/controller/swiftproxy_controller.go:297-887 | a step gives a finalizer only to the wanted secret, and takes it only from the recorded secret after a finished rotation and, in the prunes, from what is neither recorded nor wanted |
| ProxyHandover.RecordedHeldStep | internal/controller/swiftproxy_controller.go:829-851 | a step takes the finalizer from the recorded secret if and only if it is the failed delete of the TransportURL |
| ProxyHandover.TransportIsLost | internal/controller/swiftproxy_controller.go:829-851 | a run from an empty namespace in which that happens |
| ProxyHandover.RecordedChanges | internal/controller/swiftproxy_controller.go:816-863 | the recorded secret is replaced only when guardReady held and no pod uses any secret but the new one |
| ProxyHandover.RecordedIsHeld | internal/controller/swiftproxy_controller.go:664-863 | over every run the recorded credential carries its finalizer; the transport secret too, unless a delete failed |
| ProxyHandover.KeptUntilHandover | internal/controller/swiftproxy_controller.go:664-863 | whatever is edited, stopped or rolled, the recorded secret stays recorded and keeps its finalizer until a ready rollout |
| ProxyHandover.EndOfReconcile | internal/controller/swiftproxy_controller.go:814-887 | at the end of a reconcile each finalizer is on exactly the non-empty names among recorded and wanted, on the wanted one alone when guardReady held; for the transport secret if and only if the recorded one was held |
| ProxyHandover.EveryReconcileEndsExact | internal/controller/swiftproxy_controller.go:814-887 | the same for every run from an empty namespace, however many secrets were superseded |
| ProxyHandover.PodsAfterReconcile | internal/controller/swiftproxy_controller.go:865-887 | even after an overtaken rollout: all pods are protected afterwards if and only if none uses a superseded secret |
| ProxyHandover.PodsAreProtected | internal/controller/swiftproxy_controller.go:664-863 | every secret that a pod uses carries its finalizer in every reachable state, if an edit that changes the desired secret waits until the last one is recorded and used by all pods, and a reconcile between its read of the instance and of the TransportURL is not left with a transport secret that is neither recorded nor desired |
| ProxyHandover.SurpriseUnprotects | internal/controller/swiftproxy_controller.go:271-300 | the second condition is needed: a run from an empty namespace that meets the first and ends with an unprotected pod |
| ProxyDelete.Reconciler.ReconcileDelete | internal/controller/swiftproxy_controller.go:1093-1191 | the statements make the planned calls in order, and an attempt that fails anywhere leaves the effect of a prefix |
| ProxyDelete.Reconciler.ReleaseSecrets | internal/controller/swiftproxy_controller.go:1132-1160 | the loops over secret names release each name in turn |
| ProxyDelete.NamesAreReleased | internal/controller/swiftproxy_controller.go:1129-1160 | after the two loops exactly the names in status, spec and TransportURL are released, each from its finalizer |
| ProxyDelete.PlanCleans | internal/controller/swiftproxy_controller.go:1093-1191 | a complete cleanup leaves no consumer finalizer on any secret, removes the Keystone, Topology and own finalizers, and deletes no object |
| ProxyDelete.AttemptSettles | internal/controller/swiftproxy_controller.go:1093-1191 | an attempt gives up the own finalizer if and only if the cleanup is complete |
| ProxyDelete.CrashRestart | internal/controller/swiftproxy_controller.go:1093-1191 | any number of stopped attempts followed by a complete one end where one undisturbed attempt ends |
| ProxyDelete.GoneMeansReleased | internal/controller/swiftproxy_controller.go:1185-1189 | with the rest of the cluster moving between attempts, the own finalizer is gone only if no secret holds either consumer finalizer and the other finalizers are removed |
| SwiftConf.Reconciler.CreateSecret | internal/controller/swift_controller.go:213-240 | a Secret is created only if the read found none; either call may fail |
| SwiftConf.Reconciler.ReconcileNormal | internal/controller/swift_controller.go:213-247 | the statements, with their error returns, are steps of the machine; a success leaves a finalized Secret, the old one or a new one with the random hashes |
| SwiftConf.Reconciler.ReconcileSwiftConfMetaData | internal/controller/swift_controller.go:427-449 | succeeds if and only if no call fails and the Secret is missing or can carry the finalizer; hashes stay as they are |
| SwiftConf.Reconciler.ReconcileDelete | internal/controller/swift_controller.go:464-485 | Swift is gone if and only if every call succeeded; the Secret loses the finalizer and otherwise stays, unless it was being deleted and nobody else holds it |
| SwiftConf.NoNewFinalizer | internal/controller/swift_controller.go:445-447 | a Secret under deletion gets no new finalizer |
| SwiftConf.HashesNeverChange | internal/controller/swift_controller.go:424-449 | a finalized Secret keeps prefix and suffix until Swift is deleted, under any reconciles, restarts and deletion attempts |
| SwiftConf.SuccessProtects | internal/controller/swift_controller.go:427-449 | a successful call protects the Secret if and only if it found one |
| SwiftConf.OnceSucceeded | internal/controller/swift_controller.go:213-247 | from every start: after a success on a Secret its hashes are the same in every later state until Swift is deleted |
| SwiftConf.ExistingIsKept | internal/controller/swift_controller.go:213-229 | an existing Secret is never overwritten unless a reconcile had already found none, and then it is |
| SwiftConf.OverwriteIsReached | internal/controller/swift_controller.go:213-229 | a run in which a human operator's Secret is overwritten |
| SwiftConf.EmptySuccessIsReached | internal/controller/swift_controller.go:433-436 | a run in which the call succeeds without a Secret |
| XattrRestore.Node.Run | templates/swiftstorage/bin/xattr-restore.sh:1-27 | the script, killed at any point, also between the rename and its exit |
| XattrRestore.Node.WriteReport | templates/swiftstorage/bin/xattr-restore.sh:9-13 | the loop writes, in the order of find, the names it reads for which getfattr fails, as far as it gets |
| XattrRestore.HeardExactly | templates/swiftstorage/bin/xattr-restore.sh:10-11 | the loop reads the paths that find printed if and only if none has a newline, a backslash or outer blanks |
| XattrRestore.ReportIsExact | templates/swiftstorage/bin/xattr-restore.sh:9-23 | for such paths the report lists exactly the data files without metadata, each once, and is absent when there are none |
| XattrRestore.LackingMeans | templates/swiftstorage/bin/xattr-restore.sh:10-12 | the report is about the .data files below objects/ that lack user.swift.metadata |
| XattrRestore.KilledInRestore | templates/swiftstorage/bin/xattr-restore.sh:7 | a kill during setfattr leaves the attributes that were reached set and all others unchanged |
| XattrRestore.AttemptsProgress | templates/swiftstorage/bin/xattr-restore.sh:1-27 | any attempts leave either the same work, or the work of one undisturbed run done |
| XattrRestore.RestartIsInvisible | templates/swiftstorage/bin/xattr-restore.sh:1-27 | after any attempts, killed anywhere, a success ends where one undisturbed run ends, with what find printed for the run that renamed the dump |
| XattrRestore.SucceedsIffRestorable | templates/swiftstorage/bin/xattr-restore.sh:2-7 | the container succeeds, now or after any attempts, if and only if every dumped file exists |
| XattrRestore.NoDumpIsRestored | templates/swiftstorage/bin/xattr-restore.sh:7-24 | after an attempt that leaves no dump, killed before its exit or not: dumped attributes are in place, all others unchanged, and the report is exact or absent |
| XattrRestore.ServicesSeeRestoredFiles | internal/swiftstorage/statefulset.go:309-331 | in every run, services start only in states without an unapplied dump and with every attribute of a consumed dump in place, also when the container was killed after consuming it |
| XattrRestore.BackupRoundTrip | docs/backup-restore-xattrs.md:80-86 | a copy that lost all attributes gets back exactly those of Swift |
| XattrRestore.BackupLingers | docs/backup-restore-xattrs.md:80-86 | after a backup the pod can restart if and only if every dumped file still exists |
| Webhook.ValidateUpdate | api/v1beta1/swift_webhook.go:178-209 | admits exactly the updates that do not lower the replicas, nil counting as 0, and have no other error |
| Webhook.AdmittedMeans | api/v1beta1/swift_webhook.go:181-199 | the rule on present and missing values |
| Webhook.OneEvent | internal/controller/swift_controller.go:528-579 | a missing value is stored as 1, a refused update changes nothing, a reconcile copies what is stored |
| Webhook.NeverScalesIn | internal/controller/swift_controller.go:528-579 | over any updates, with missing values filled by the schema, and any reconciles, neither the replicas of Swift nor those of its SwiftStorage ever fall |
| Webhook.ListedKeysOnlyGrow | internal/swiftring/funcs.go:55-86 | hence, over any updates and reconciles, a later device list has every volume key of an earlier one |
| Webhook.Route.SetDefaultRouteAnnotations | api/v1beta1/swift_webhook.go:303-326 | the statements compute the annotation function |
| Webhook.AnnotationsByName | api/v1beta1/swift_webhook.go:303-326 | the three outcomes in terms of the two annotations by name |
| Webhook.TimeoutIsDecimal | api/v1beta1/swift_webhook.go:323 | the annotation is the timeout in decimal and "s" |
| Webhook.CallSettles | api/v1beta1/swift_webhook.go:303-326 | each call ends user-owned with the user's value or managed with the current timeout, is idempotent and leaves other annotations alone |
| Webhook.UserOwnedSurvives | api/v1beta1/swift_webhook.go:303-314 | a user-owned timeout survives any calls and edits until the user touches it |
| Webhook.TakeOver | api/v1beta1/swift_webhook.go:316-320 | an edited timeout becomes the user's if and only if it differs from the managed one |

## Left out

- RingController.ReadyIsReached: jobs that fail during the quiet period are not covered.
- HTTP, JSON text, base64 and tar, Keystone, Barbican, memcached and TLS: only success, conflict and not-found remain.
- The partition assignment of `swift-ring-builder rebalance` is not part of this repository.
- `drain`, `remove` and `forced_rebalance`, which an administrator runs by hand and which end the growth of the rings.
- The `backups/` directory in the tarball: the tool never reads it back.
- A tool container that is restarted in a directory left by a half-finished run.
- Manifest builders, labels, generated code and CRDs: record construction with only easy facts.
- Messages, reasons and times of conditions; the mirroring of Ready between controllers.
- Topology and override validation: one parameter of errors in `Webhook.ValidateUpdate`.
- Aliasing of Go slices and maps: disk lists, devices and annotations are values held in variables or fields.
- The backup hook selects attributes by a regular expression; the model takes the names that start with user.swift.
- A nil annotation map, on which the Go function panics.
- Other events during one attempt of `ProxyDelete`; between attempts they are modelled.
- A crash of the operator between a step of `ProxyRotation` and its status patch.
- ProxyHandover.RecordedIsHeld: a `FinalizeSecretRotation` that releases the old secret and still returns an error,
  after which the status names a released secret; no pod uses it then.
