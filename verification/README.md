# Verified model of an edge-agent cluster

Agents run WebAssembly components and jobs on a set of nodes that gossip with
each other. This project models the parts of such an agent in which something
can go quietly wrong, and proves what they guarantee:

- **The replicated job store.** Every node keeps job records, stamps each change
  with the second in which it happened, and merges what others gossip by "newer
  stamp wins". `Jobs`, `JobStore` and `Merge` hold the records and the algebra of
  merging; `JobManagement` the object of one node, updated in place; `Cluster` the
  protocol of many nodes with delayed, repeated, reordered and lost messages,
  half-finished merges, pending saves and crashes. On top of it come record
  invariants and crash consistency (`Cluster`), convergence (`Convergence`,
  `GossipRounds`, `FullExchanges`), freshness of generated ids (`IdFreshness`), and
  listings (`Listing`, `NetListing`).
- **The content-addressed store** with pins and least-recently-used collection:
  `GcMath` says what a collection to a target means, `ContentAddressing` holds the
  store and the loop.
- **The replica supervisor**, once as interleaved steps (`Supervision`) and once as
  the object whose methods run without interruption (`Supervisors`).
- **Byte formats**: platform detection (`PlatformDetection`), the CI controller's
  multipart form and query strings (`Multipart`, `QueryStrings`), chunked upload
  from the sender's split to the receiver's store (`ChunkedUpload`).
- **Compositions**: staging a pinned wasm job (`WasmExecution`), and restoring
  pushed components after a restart (`ManifestRestore`, `Components`).

`Sorting` (Rust's stable `sort_by`, as stable insertion), `Text`, `ByteStrings` and
`Wrappers` are shared by all of them.

## Assumptions

- The clock never goes back, across nodes: an operation reads no time earlier than
  the stamp of the record it finds. Every reading is a parameter (`Reads`), in the
  order in which the code takes them.
- A node publishes only while the counter in its `jobs.json` is the one in memory:
  ids are generated only by the loop that owns the swarm
  (crates/agent/src/p2p/mod.rs:728-741) and by a command that publishes afterwards
  (crates/agent/src/cmd/job.rs:141-154), and both wait for the save.
- Disk writes succeed; JSON, TOML and base64 lose nothing; one process owns
  `jobs.json`. A save writes the state it finds when it gets the state lock, which
  need not be the state its operation left: saves are steps of their own.
- `sha256_hex` is an arbitrary function to strings of at least four characters
  (sixteen for component artifacts). That no two byte strings collide is assumed
  only where a clause names `CollisionFree`.
- Message delivery, peers' answers, HTTP fetches, whether an artifact exports an
  HTTP handler, when a replica exits, and the order of a hash map (hence of records
  that tie in every sort) are arbitrary.
- Operations of the content store run one at a time. The code has no lock around
  loading and saving its index, and spawned tasks of one process use it.
- Pushes of components are handled one after another. The code spawns a task for
  each, so that two pushes of one name could interleave between the supervisor and
  the manifest file.
- Integers are unbounded, except where the code wraps, saturates or truncates:
  the supervisor's `fetch_sub`, the collector's saturating subtraction, and the
  `u32` chunk numbers.

## What the code does and its descriptions do not say

Each of these comes with the exact condition; where it is not plain from the
condition, with an input or a reachable run in which it happens.

- Changes of one job in the same second are never reconciled, whether two nodes make
  them or one node that sent the job in between. A gossip run ends in agreement if
  and only if the holders of each newest stamp agreed before and each node that lacks
  it hears of it first what some holder holds (`Convergence.AgreementIff`;
  `GossipRounds.SameSecondConflict`, `GossipRounds.OneNodeConflict`).
- Snapshots carry at most 10 or 32 jobs. A job spreads by gossip if and only if all
  have it, a message has it, or some holder has fewer than 32 fresher jobs
  (`FullExchanges.VersionSpreadsIff`; `FullExchanges.BuryingArises`).
- Snapshots carry no logs, periodic ones no artifacts, and a newer one erases what
  it does not carry (`FullExchanges.NewerSnapshotErasesLog`,
  `FullExchanges.NewerSnapshotReplacesArtifacts`; `FullExchanges.LogErased`,
  `FullExchanges.ArtifactsErased`).
- A submission delivered late resets the job at its receiver, even a finished one
  (`FullExchanges.LateSubmissionResets`; `FullExchanges.CompletionUndone`).
- An unknown status filter shows every job locally and none over the network
  (`Listing.FiltersAgree`).
- The 8 MiB inline limit lets through blobs whose base64 form exceeds the 10 MiB
  transmit limit (`ChunkedUpload.PayloadSizes`); blobs of 2^32 chunks or more would
  not arrive (`ChunkedUpload.UploadArrivesIff`).
- Attachments had from peers are not checked against their digest: an attachment is
  safe against every peer if and only if its blob is in the store
  (`WasmExecution.AttachmentSafeIff`; `WasmExecution.DishonestAttachment`).
- Fat Mach-O files with the 64-bit magic are decoded by the architecture detector
  but never named, since the OS detector does not know that magic
  (`PlatformDetection.MacosNamedIff`).
- Stopping a component leaves its counter high by the replicas aborted. A round
  launches a replica of a component so stopped if and only if more replicas are
  wanted than its counter shows, so that pushing it again with as many does not restart
  it (`Supervision.StoppedComesBackIff`; `Supervision.StopReached`).
- Two artifacts of one component that agree in sixteen leading digits share a
  file, and the later one is not restored (`ManifestRestore.RestoreExact`;
  `ManifestRestore.ClashForgets`).

## Model

| member | source | states |
|---|---|---|
| Text.DecimalInjective | crates/agent/src/job_manager.rs:116 | decimal rendering of the id counter loses nothing |
| Text.DecimalMeans | crates/agent/src/job_manager.rs:116 | a rendered number means that number, without superfluous zeros |
| Text.SignedMeans | crates/agent/src/job_manager.rs:191 | so does an exit code, negative ones with a minus sign |
| Text.BeforeMeans | crates/agent/src/storage/mod.rs:25 | the order of the index is lexicographic: a proper prefix, or smaller where the digests first differ |
| Text.JobIdInjective | crates/agent/src/job_manager.rs:113-120 | an id determines its origin and number, even when origins contain dashes and digits |
| JobStore.TransitionSound | crates/common/src/lib.rs:674-750 | every operation, from every status (finished jobs may be started or completed again), keeps the record invariant: what each status says about times, exit code, error and assignment, logs sorted, no time after the stamp, stamp not decreased |
| JobStore.TransitionFrame | crates/agent/src/job_manager.rs:138-308 | which operation may change which field; identity never changes, the log only grows by at most one entry, every status change is logged, cancelling affects pending and running jobs only |
| JobStore.TransitionEffects | crates/common/src/lib.rs:674-750 | what each operation does, from any status: exit code zero completes and any other fails, starting runs on the assigned node, failing records its error, cancelling affects pending and running jobs only, each at its own reading of the clock and with its own log entry; a staged digest goes to the first artifact of its name alone |
| JobStore.SubmissionEffects | crates/agent/src/job_manager.rs:105-136 | a submission adds a pending record with its id, origin, specification, times and log, and moves the counter if it generated the id |
| JobStore.ApplyFrame | crates/agent/src/job_manager.rs:138-308 | an operation touches one record; of an unknown job it does nothing |
| JobStore.LifeOfAJob | crates/agent/src/job_manager.rs:105-202 | submitted, assigned, started and completed with any exit code, a job leaves exactly the stated record |
| JobStore.ApplySound | crates/agent/src/job_manager.rs:105-308 | every operation on the store, submission included, that reads no time earlier than the stamp it finds keeps all records sound, drops no job and lowers no stamp |
| JobStore.FirstNamed | crates/agent/src/job_manager.rs:413 | the artifact that receives the digest is the first of that name |
| JobStore.RepairIdempotent | crates/agent/src/job_manager.rs:79-86 | the two field repairs of loading do nothing the second time |
| JobStore.RepairEffects | crates/agent/src/job_manager.rs:79-86 | a missing stamp becomes the time of submission, a missing origin this node; nothing else changes |
| JobStore.LoadRestores | crates/agent/src/job_manager.rs:74-94 | a sound store is read back exactly as written if and only if every record names its origin (or the node has no name) |
| Merge.MergeWinners | crates/agent/src/job_manager.rs:441-466 | merging a list into winners of one pool gives the winners of the pool and the list |
| Merge.SyncTakesNewest | crates/agent/src/job_manager.rs:456-466 | sync_jobs leaves each id with the newest of the local and delivered stamps, drops and invents nothing |
| Merge.WinnersUnique | crates/agent/src/job_manager.rs:441-453 | without conflicting stamps there is only one way to hold the newest of a pool |
| Merge.SyncOrderIndependent | crates/agent/src/job_manager.rs:456-466 | order and repetition in a delivered list do not matter, without conflicting stamps |
| Merge.SyncOrderMatters | crates/agent/src/job_manager.rs:445 | for two records with one id and stamp order is immaterial if and only if they are the same record |
| Merge.SyncIdempotent | crates/agent/src/job_manager.rs:456-466 | merging a list again, or part of it, changes nothing |
| Merge.SyncCommutative | crates/agent/src/job_manager.rs:456-466 | two nodes that exchange all they have end up the same |
| Merge.SyncAssociative | crates/agent/src/job_manager.rs:456-466 | relaying a merged store equals delivering its parts |
| Listing.FiltersAgree | crates/agent/src/cmd/job.rs:251-257 | local and network status filters agree if and only if the filter is absent or a known name; otherwise one shows all, the other none |
| Listing.StatusAskedFor | crates/agent/src/job_manager.rs:256-268 | each status is selected by its own name, in any mixture of cases; no name selects all |
| Listing.SortEnumerates | crates/agent/src/job_manager.rs:271-272 | sorting keeps every matching job exactly once and orders them newest first |
| Listing.TruncatedSortIsTopK | crates/agent/src/job_manager.rs:251-277 | filter, stable sort and truncation give min(limit, matches) distinct stored matches in order, none omitted newer than one listed |
| Listing.Collect | crates/agent/src/job_manager.rs:253-269 | the retained values are exactly the matching jobs, each once |
| Listing.TiesBySubmission | crates/agent/src/p2p/mod.rs:687-688 | sorting a list in submission order by update leaves ties by submission, newest first |
| Listing.SortedIsSnapshot | crates/agent/src/p2p/mod.rs:687-694 | sorting, cutting and stripping a store in submission order gives a snapshot |
| Listing.StrippedTopKIsSnapshot | crates/agent/src/p2p/mod.rs:689-694 | clearing logs and artifacts of the freshest jobs makes a snapshot |
| Listing.StripKeeps | crates/agent/src/p2p/mod.rs:690-694 | stripping clears logs, and artifacts in periodic broadcasts, and loses nothing else |
| Listing.SnapshotExists | crates/agent/src/p2p/mod.rs:1290-1300 | every store has a snapshot to send |
| Listing.SnapshotComplete | crates/agent/src/p2p/mod.rs:1290-1300 | a snapshot names every job of the store if and only if the store is no larger than its limit |
| Listing.CarriedIsNotBuried | crates/agent/src/p2p/mod.rs:1290-1300 | a job that a snapshot carries has fewer fresher jobs beside it than the limit |
| Listing.SnapshotWith | crates/agent/src/p2p/mod.rs:1290-1300 | a job with fewer fresher jobs than the limit is in some snapshot |
| Listing.SnapshotCanCarry | crates/agent/src/p2p/mod.rs:1290-1300 | some snapshot of a store carries a job if and only if fewer jobs than the limit are fresher |
| JobManagement.JobManager.constructor | crates/agent/src/job_manager.rs:40-60 | a new manager is empty, its counter at one |
| JobManagement.JobManager.LoadFromDisk | crates/agent/src/job_manager.rs:74-94 | replaces the state by the repaired file, or leaves it alone when there is none |
| JobManagement.JobManager.SaveToDisk | crates/agent/src/job_manager.rs:96-103 | the file holds the state |
| JobManagement.JobManager.SubmitJob | crates/agent/src/job_manager.rs:105-136 | refines submission on values: chosen or generated id, origin, counter, save |
| JobManagement.JobManager.AssignJob | crates/agent/src/job_manager.rs:138-159 | refines assignment; an unknown job changes nothing but is saved all the same |
| JobManagement.JobManager.StartJob | crates/agent/src/job_manager.rs:165-183 | refines starting, on the assigned node or "unknown" |
| JobManagement.JobManager.CompleteJob | crates/agent/src/job_manager.rs:185-202 | refines completion with an exit code |
| JobManagement.JobManager.FailJob | crates/agent/src/job_manager.rs:204-218 | refines failure with an error |
| JobManagement.JobManager.CancelJob | crates/agent/src/job_manager.rs:220-244 | cancels exactly pending and running jobs, forgets their running task and saves; otherwise touches nothing, file included |
| JobManagement.JobManager.AddJobLog | crates/agent/src/job_manager.rs:279-291 | refines logging and leaves the file alone |
| JobManagement.JobManager.AddJobArtifact | crates/agent/src/job_manager.rs:293-308 | refines adding an artifact, and saves |
| JobManagement.JobManager.StageArtifacts | crates/agent/src/job_manager.rs:379-427 | records the digests of exactly the artifacts copied, one by one, and leaves the file alone |
| JobManagement.StagedDigests | crates/agent/src/job_manager.rs:393-424 | after staging, the first artifact of each name has the digest of the last copy of that name that yielded one; nothing else changes but the stamp |
| JobManagement.LastDigestMeans | crates/agent/src/job_manager.rs:393-424 | that digest is the one of the last successful copy, if there is any |
| JobManagement.StagingSavesNothing | crates/agent/src/job_manager.rs:379-427 | staging does not write the file |
| JobManagement.JobManager.SyncJob | crates/agent/src/job_manager.rs:441-453 | refines the merge of one record |
| JobManagement.JobManager.SyncJobs | crates/agent/src/job_manager.rs:456-466 | refines the merge of a list, and saves |
| JobManagement.JobManager.ListJobs | crates/agent/src/job_manager.rs:251-277 | lists the top-k by submission of the jobs that match |
| JobManagement.GossipSnapshot | crates/agent/src/p2p/mod.rs:687-694 | what is sent is a snapshot: the freshest jobs up to the limit, ties by submission, logs cleared |
| NetListing.FoldIsMergeReversed | crates/agent/src/cmd/job.rs:276-287 | folding with >= is the manager's merge with > of the records in the opposite order |
| NetListing.FoldAgreesWithMerge | crates/agent/src/cmd/job.rs:276-287 | the fold reaches the merge's ids and stamps, and the merge itself when no stamps conflict |
| NetListing.NewestHeard | crates/agent/src/cmd/job.rs:275-287 | what is known after some messages is, of every job any of them carried, a newest record, and nothing else |
| NetListing.FoldList | crates/agent/src/cmd/job.rs:276-287 | one message's records are folded into what is known |
| NetListing.Retain | crates/agent/src/cmd/job.rs:324-326 | filtering after sorting keeps exactly the matches, in order |
| NetListing.NetListJobs | crates/agent/src/cmd/job.rs:259-329 | the top-k by update of what was heard, or the local list when nothing was; stops early only with enough matches |
| Cluster.StepFrame | crates/agent/src/job_manager.rs:96-103 | a step changes no other node; only a save reaches a disk, and writes the memory |
| Cluster.RestartForgets | crates/agent/src/job_manager.rs:74-94 | a crash forgets what was in progress and what was not saved, and nothing else |
| Cluster.AnnouncedArrives | crates/agent/src/p2p/mod.rs:1136-1147 | an announced job arrives as a pending job of the same id, origin and specification |
| Cluster.OperationPossible | crates/agent/src/job_manager.rs:105-308 | every operation is possible at every time |
| Cluster.GossipCarriesIff | crates/agent/src/p2p/mod.rs:690 | a periodic broadcast can carry a job if and only if fewer than ten jobs are fresher, a requested snapshot if and only if fewer than thirty-two are |
| Cluster.StepSound | crates/agent/src/job_manager.rs:74-466 | every step, partial merges, saves and restarts included, keeps all records sound at nodes, on disks, in tasks and in messages |
| Cluster.RunSound | crates/agent/src/job_manager.rs:74-466 | so does every run, and the clock does not go back |
| Cluster.ReachableSound | crates/common/src/lib.rs:647-751 | the record invariant holds in every reachable state |
| Cluster.StepDurable | crates/agent/src/job_manager.rs:74-103 | every step keeps disk and memory in agreement whenever no save is owed |
| Cluster.RunDurable | crates/agent/src/job_manager.rs:279-308 | so does every run |
| Cluster.CrashLosesNothingSaved | crates/agent/src/job_manager.rs:74-103 | a node owing no save that crashes and reloads has the same ids, counter, status, assignment, times, exit codes, errors and artifact names, and a prefix of each log |
| Convergence.StampsNeverDecrease | crates/agent/src/job_manager.rs:441-453 | without crashes no node forgets a job or lowers its stamp, over any run |
| Convergence.QuietRunDerives | crates/agent/src/p2p/mod.rs:686-717 | gossip alone creates no content: whatever circulates later circulated, up to logs and artifacts, before |
| Convergence.ReachableCovered | crates/agent/src/p2p/mod.rs:686-717 | without crashes no message is ever ahead of every node |
| Convergence.ReachedMeansHeard | crates/agent/src/job_manager.rs:441-453 | a node reaches a stamp only by having it or by merging a record that has it |
| Convergence.ConvergedIffExchange | crates/agent/src/job_manager.rs:441-466 | a gossip run brings every node to every newest stamp if and only if it is a full exchange: each newest version is heard by each node that lacks it |
| Convergence.StampsConverge | crates/agent/src/job_manager.rs:441-466 | after a full exchange all nodes have all jobs, at the newest stamp any had when operations stopped |
| Convergence.SameStampSameContent | crates/agent/src/job_manager.rs:441-466 | with no conflict at newest stamps, nodes that end at a newest stamp have one content |
| Convergence.ClusterConverges | crates/agent/src/job_manager.rs:441-466 | from every state reached without a crash, after a full exchange all nodes share all jobs and contents, provided newest stamps do not conflict |
| Convergence.ConflictIsPermanent | crates/agent/src/job_manager.rs:445 | a node holding a newest stamp keeps its record through every gossip run |
| Convergence.AgreementNeedsNoConflict | crates/agent/src/job_manager.rs:445 | nodes can come to share a job only if those holding its newest stamp already had the same content |
| Convergence.SharingMeansExchange | crates/agent/src/job_manager.rs:441-466 | a gossip run after which all nodes share all jobs is a full exchange |
| Convergence.FirstHeardIsKept | crates/agent/src/job_manager.rs:441-453 | a node that lacks a newest version ends with what it hears of it first |
| Convergence.FaithfulShares | crates/agent/src/job_manager.rs:441-466 | if all hear first what holders hold, and holders agree, any two nodes share all jobs at the end |
| Convergence.SharingMeansFaithful | crates/agent/src/job_manager.rs:441-466 | a gossip run after which all nodes share all jobs was one in which all heard first what holders held |
| Convergence.AgreementIff | crates/agent/src/job_manager.rs:441-466 | every gossip run ends with all nodes sharing all jobs if and only if the holders of every newest stamp agreed to begin with and each node that lacked it heard of it first what some holder held |
| Convergence.MatchingCarriersShare | crates/agent/src/job_manager.rs:441-466 | where holders agree and what is under way at newest stamps matches them, a gossip run ends in sharing if and only if it is a full exchange |
| GossipRounds.WorkOffHears | crates/agent/src/job_manager.rs:456-461 | working a delivered list off lets the node hear every record in it |
| GossipRounds.OneRoundSuffices | crates/agent/src/p2p/mod.rs:1290-1300 | one requested snapshot tells its receiver all jobs of a store of at most 32 |
| GossipRounds.ConflictArises | crates/agent/src/job_manager.rs:165-218 | a concrete reachable run in which two nodes hold a running and a failed record under one stamp |
| GossipRounds.SameSecondConflict | crates/agent/src/job_manager.rs:441-466 | after it no gossip run whatever brings the two nodes together |
| GossipRounds.OneNodeConflict | crates/agent/src/p2p/mod.rs:1290-1300 | a reachable state with one holder, which changed its job in the second in which it sent it: a full exchange follows, and no gossip run thereafter brings the nodes together |
| FullExchanges.SendJob | crates/agent/src/p2p/mod.rs:1290-1300 | a holder with fewer than 32 fresher jobs can publish a snapshot that carries the job |
| FullExchanges.PublishAll | crates/agent/src/p2p/mod.rs:1290-1300 | when all newest versions can spread, some run that changes no node has each of them under way that is not everywhere |
| FullExchanges.ListenAll | crates/agent/src/p2p/mod.rs:1361-1363 | there is a run in which given nodes take in given messages |
| FullExchanges.FullExchangePossible | crates/agent/src/p2p/mod.rs:1290-1300 | when all newest versions can spread, some gossip run is a full exchange |
| FullExchanges.SmallStoresSpread | crates/agent/src/p2p/mod.rs:1294 | in stores of at most 32 jobs all of them can |
| FullExchanges.StepStuck | crates/agent/src/p2p/mod.rs:686-717 | a version whose holders all have 32 fresher jobs, and that no message or task has, stays so |
| FullExchanges.StuckForever | crates/agent/src/p2p/mod.rs:686-717 | no gossip run whatever brings it to another node |
| FullExchanges.BuriedNeverLeaves | crates/agent/src/p2p/mod.rs:1290-1300 | a job known to one node, not under way, with 32 fresher jobs beside it, becomes known to no other node by gossip |
| FullExchanges.FullExchangeNeeds | crates/agent/src/p2p/mod.rs:1290-1300 | a state with no operation in progress that has a full exchange ahead lets every newest version spread |
| FullExchanges.BuryingArises | crates/agent/src/p2p/mod.rs:1294 | a reachable run of 33 submissions after which no gossip run tells the other node of the oldest job |
| FullExchanges.ExchangePossibleIff | crates/agent/src/p2p/mod.rs:1290-1300 | in every crash-free reachable state with no operation in progress, a full exchange is possible if and only if for every newest version all have it, a message carries it, or some holder has fewer than 32 fresher jobs |
| FullExchanges.VersionSpreadsIff | crates/agent/src/p2p/mod.rs:1290-1300 | of any one newest version in such a state: some gossip run brings it to every node if and only if all have it, a message carries it, or some holder has fewer than 32 fresher jobs |
| FullExchanges.MoreMessages | crates/agent/src/p2p/mod.rs:1361-1363 | what gossip can do with some messages it can do with more |
| FullExchanges.AgreementNeeds | crates/agent/src/job_manager.rs:441-466 | full agreement needs that every newest version can spread and that its holders agree |
| FullExchanges.AgreementPossible | crates/agent/src/job_manager.rs:441-466 | and is possible if holders agree and every newest version can spread by means of those messages that match the holders, or of none |
| FullExchanges.AgreementPossibleIff | crates/agent/src/job_manager.rs:441-466 | where all messages under way match the holders, full agreement is possible if and only if every newest version can spread and its holders agree |
| FullExchanges.RunLogsStayHome | crates/agent/src/p2p/mod.rs:690-694 | no record under way ever carries a log |
| FullExchanges.NewerSnapshotErasesLog | crates/agent/src/job_manager.rs:441-453 | merging a delivered record leaves the local one alone or replaces it by one with an empty log |
| FullExchanges.LogErased | crates/agent/src/p2p/mod.rs:1294-1297 | a reachable run in which a submitter loses its log on hearing that the job was started elsewhere |
| FullExchanges.NewerSnapshotReplacesArtifacts | crates/agent/src/p2p/mod.rs:689-694 | merging a newer record replaces the artifact list by the sender's from a requested snapshot and by the empty one from a periodic broadcast |
| FullExchanges.ArtifactsErased | crates/agent/src/p2p/mod.rs:689-694 | a reachable run in which a periodic broadcast empties an artifact list |
| FullExchanges.LateSubmissionResets | crates/agent/src/p2p/mod.rs:1136-1147 | a late submission makes the job pending again, and under a stamp no node exceeds if no clock reading is ahead |
| FullExchanges.CompletionUndone | crates/agent/src/p2p/mod.rs:1136-1147 | a reachable run in which an announcement overtaken by the news of completion makes a completed job pending |
| IdFreshness.StepIds | crates/agent/src/job_manager.rs:111-120 | a step introduces no id except the one a local submission generates |
| IdFreshness.StepOutside | crates/agent/src/p2p/mod.rs:728-741 | an id gets outside its generator's memory only once the counter that generated it is saved |
| IdFreshness.StepCounted | crates/agent/src/job_manager.rs:105-136 | every step, crashes included, keeps all ids of an origin below its counter, and those outside its memory below the counter in its file |
| IdFreshness.RunCounters | crates/agent/src/job_manager.rs:105-136 | so does every run |
| IdFreshness.GeneratedIdIsFresh | crates/agent/src/job_manager.rs:113-120 | at any point of any run, crashes included, the id generated next occurs in no store, file, task or message |
| IdFreshness.PublishedUnsavedIsReused | crates/agent/src/cmd/job.rs:141-154 | why publishing waits for the save, told of states no run reaches: an id under way whose counter is unsaved would be generated again after a crash |
| GcMath.VictimsPrefix | crates/agent/src/storage/mod.rs:138-151 | what is collected is a prefix of the unpinned entries in (last access, digest) order |
| GcMath.VictimsSuffice | crates/agent/src/storage/mod.rs:139-151 | it reaches the target, or is everything unpinned |
| GcMath.VictimsLeast | crates/agent/src/storage/mod.rs:139-151 | no shorter prefix would do |
| GcMath.CollectedTotal | crates/agent/src/storage/mod.rs:149-150 | what remains weighs the old total less the victims |
| GcMath.CollectCompose | crates/agent/src/storage/mod.rs:130-153 | collecting to a target and then to a smaller or equal one is collecting straight to the latter, on the index |
| ContentAddressing.PutAgrees | crates/agent/src/storage/mod.rs:75-92 | putting keeps index and files in agreement and every file hashing to its name, though an existing file is not rewritten; sizes too, without collisions |
| ContentAddressing.GcAgrees | crates/agent/src/storage/mod.rs:130-153 | so does collecting |
| ContentAddressing.DoAgrees | crates/agent/src/storage/mod.rs:75-153 | so does every operation |
| ContentAddressing.DoAll | crates/agent/src/storage/mod.rs:75-153 | so does every run of operations |
| ContentAddressing.PathShape | crates/agent/src/storage/mod.rs:40-44 | a blob lies two directories deep, named after its first four digits |
| ContentAddressing.PinnedStays | crates/agent/src/storage/mod.rs:113-153 | a pinned blob never unpinned keeps its file, bytes and pin through every run |
| ContentAddressing.PinTakesHold | crates/agent/src/storage/mod.rs:113-121 | once pinned, and until unpinned, a blob keeps its file and its bytes, whatever is put, used, pinned or collected |
| ContentAddressing.UnpinnedGoes | crates/agent/src/storage/mod.rs:140-151 | once unpinned, a collection to nothing removes it, if and only if a byte is left when its turn comes |
| ContentAddressing.OperationFrame | crates/agent/src/storage/mod.rs:75-153 | putting and using change no other entry and no pin, a new blob is not pinned, pinning changes one pin alone, collecting changes nothing it leaves |
| ContentAddressing.GcCompose | crates/agent/src/storage/mod.rs:130-153 | the composition law on the whole store, blob files included |
| ContentAddressing.RecentlyUsedLast | crates/agent/src/storage/mod.rs:89-99 | a blob used later than all others goes only if everything unpinned goes |
| ContentAddressing.StableSortByAccess | crates/agent/src/storage/mod.rs:132-138 | the stable sort of the map's entries breaks ties by digest |
| ContentAddressing.VisitOrder | crates/agent/src/storage/mod.rs:132-138 | the entries are visited in collection order, each of them |
| ContentAddressing.SumSizes | crates/agent/src/storage/mod.rs:139 | the running total starts as the total of the index |
| ContentAddressing.VisitUnpinned | crates/agent/src/storage/mod.rs:147-150 | each eviction keeps the running total equal to what is left, so its subtraction never saturates |
| ContentAddressing.SweepIsGc | crates/agent/src/storage/mod.rs:140-151 | the loop evicts exactly the least prefix |
| ContentAddressing.ContentStore.constructor | crates/agent/src/storage/mod.rs:29-38 | a new store is empty and valid |
| ContentAddressing.ContentStore.PutBlob | crates/agent/src/storage/mod.rs:75-92 | refines putting; a pin survives |
| ContentAddressing.ContentStore.GetPath | crates/agent/src/storage/mod.rs:94-106 | finds a file exactly for indexed digests, and its bytes hash to the digest |
| ContentAddressing.ContentStore.PinDigest | crates/agent/src/storage/mod.rs:113-121 | sets the pin of an indexed digest, reports others, changes nothing else |
| ContentAddressing.ContentStore.TotalSizeBytes | crates/agent/src/storage/mod.rs:124-127 | the sum of the indexed sizes |
| ContentAddressing.ContentStore.GcToTarget | crates/agent/src/storage/mod.rs:130-153 | the store afterwards is the collection to the target |
| ContentAddressing.ContentStore.EvictUntil | crates/agent/src/storage/mod.rs:139-152 | the eviction loop reaches it from the sorted entries |
| Components.ComponentSpec.Want | crates/agent/src/supervisor.rs:170 | at least one replica is wanted, and as many as stated whenever that is at least one |
| Components.TargetsAll | crates/common/src/lib.rs:265-285 | a component is for every node if and only if it names no targets; a node giving neither id nor roles is never filtered |
| Components.TargetingMeans | crates/common/src/lib.rs:265-285 | a node is refused if its known id is not among the targets, or its known roles share none with the tags; one common tag is enough |
| Supervision.RunConserves | crates/agent/src/supervisor.rs:167-323 | under every interleaving launches = count + exits and launches = live + staged + exits + aborted, per component |
| Supervision.CountExceedsLiveByAborted | crates/agent/src/supervisor.rs:191-209 | in every reachable state the counter exceeds live and staged replicas by exactly those cleanup aborted, and is positive when a replica exits |
| Supervision.DesiredChanges | crates/agent/src/supervisor.rs:121-145 | the desired set is replaced as a whole, one component is added or replaced; counters stay, new ones begin at zero |
| Supervision.LaunchChanges | crates/agent/src/supervisor.rs:223-333 | a launch counts one replica; unless HTTP it starts one new task whose handle joins the component's others |
| Supervision.CleanupChanges | crates/agent/src/supervisor.rs:191-198 | cleanup aborts every handle of its component, forgets them, and does nothing else |
| Supervision.RunHandled | crates/agent/src/supervisor.rs:223-333 | in every run each replica has a handle at its own component, is aborted, or is about to get one |
| Supervision.CleanupAbortsAll | crates/agent/src/supervisor.rs:191-198 | in every reachable state a cleanup aborts all replicas of its component, but for one not yet registered, and none of any other |
| Supervision.CleanupStops | crates/agent/src/supervisor.rs:191-198 | after it the component can come to rest, all others running on |
| Supervision.StepBounded | crates/agent/src/supervisor.rs:167-188 | count plus replicas still owed by the round never exceeds the largest target seen |
| Supervision.CountBounded | crates/agent/src/supervisor.rs:167-188 | a counter never exceeds the largest target its component has had |
| Supervision.RoundReachesTargets | crates/agent/src/supervisor.rs:167-188 | a round without exits ends with each counter of its snapshot at least at its target, exactly if it began at or below it, whatever else happened meanwhile |
| Supervision.RoundLeavesRunning | crates/agent/src/supervisor.rs:167-188 | a round without exits leaves running the larger of target and starting count, less all that cleanup ever aborted |
| Supervision.RoundLaunches | crates/agent/src/supervisor.rs:178-185 | a round without exits launches of each component exactly what its counter lacks |
| Supervision.StoppedComesBackIff | crates/agent/src/web/components_ops.rs:67-72 | of a component with no replica left, a round without exits launches one if and only if more are wanted than its counter shows, which is the number cleanup has aborted |
| Supervision.StoppedStaysDown | crates/agent/src/web/components_ops.rs:67-72 | until more are asked for than are counted it never runs again, over any steps |
| Supervision.StopReached | crates/agent/src/supervisor.rs:191-198 | a reachable run of push, round, stop and abort that ends in that state |
| Supervisors.Supervisor.constructor | crates/agent/src/supervisor.rs:33-41 | a new supervisor is empty |
| Supervisors.Supervisor.SetDesiredComponents | crates/agent/src/supervisor.rs:121-132 | refines replacing the desired set; existing counters stay |
| Supervisors.Supervisor.UpsertComponent | crates/agent/src/supervisor.rs:135-145 | refines adding one component; its counter, if any, stays |
| Supervisors.Supervisor.LaunchReplica | crates/agent/src/supervisor.rs:223-333 | refines a launch: counted, and unless HTTP a task, registered for cleanup |
| Supervisors.Supervisor.ReplicaExit | crates/agent/src/supervisor.rs:312-322 | refines an exit; the counter goes down by one and does not wrap |
| Supervisors.Supervisor.CleanupComponent | crates/agent/src/supervisor.rs:191-209 | aborts the registered tasks and leaves the counters alone |
| Supervisors.GrownTransitive | crates/agent/src/supervisor.rs:179-185 | growing by new replicas, one handle each, composes |
| Supervisors.LaunchAllCounts | crates/agent/src/supervisor.rs:181-184 | repeated launches raise their own counter by their number and no other |
| Supervisors.LaunchAllGrows | crates/agent/src/supervisor.rs:181-184 | repeated launches add to a component as many replicas as its counter rises by, none if HTTP, each with a handle for cleanup, and disturb no others |
| Supervisors.Supervisor.LaunchMany | crates/agent/src/supervisor.rs:181-184 | the loop is that many launches |
| Supervisors.BringCounts | crates/agent/src/supervisor.rs:170-185 | bringing a component up raises its counter to the target or leaves it alone, and moves no other |
| Supervisors.Supervisor.BringUp | crates/agent/src/supervisor.rs:170-185 | refines bringing one component up |
| Supervisors.Supervisor.ReconcileOnce | crates/agent/src/supervisor.rs:167-188 | an uninterrupted round raises every desired component to its target and lowers none; it starts exactly as many replicas as the counters rise by, each registered for cleanup, none for HTTP components, and keeps all running ones |
| PlatformDetection.DetectMachoArches | crates/agent/src/cmd/upgrade.rs:189-254 | the detector with its record loop, all reads in bounds, refines the specification |
| PlatformDetection.ReadRecords | crates/agent/src/cmd/upgrade.rs:209-230 | the loop returns the recognised architectures of the records examined, in order |
| PlatformDetection.RecordsExamined | crates/agent/src/cmd/upgrade.rs:217-230 | exactly min(claimed, records that fit) records are examined, the i-th at its own offset |
| PlatformDetection.RecognisedParts | crates/agent/src/cmd/upgrade.rs:217-230 | a record contributes its architecture if recognised, whatever stands before and behind it |
| PlatformDetection.NeverEmpty | crates/agent/src/cmd/upgrade.rs:231-235 | without a recognised architecture there is no answer |
| PlatformDetection.FatRoundTrip | crates/agent/src/cmd/upgrade.rs:194-235 | any fat header of known architectures, either width, either byte order, is read back, whatever follows |
| PlatformDetection.ThinRoundTrip | crates/agent/src/cmd/upgrade.rs:236-250 | so is any thin header, and the platform is named |
| PlatformDetection.CpuType | crates/agent/src/cmd/upgrade.rs:256-267 | each architecture's cputype is recognised as it, whatever the capability bits |
| PlatformDetection.CpuTypesKnown | crates/agent/src/cmd/upgrade.rs:256-267 | no other cputype is recognised |
| PlatformDetection.MachoIsMacos | crates/agent/src/cmd/upgrade.rs:148-156 | of files in which an architecture is recognised, the OS detector knows all but those with the 64-bit fat magic |
| PlatformDetection.MacosNamedIff | crates/agent/src/cmd/upgrade.rs:118-124 | a file with exactly one recognised architecture is named if and only if it does not start with the 64-bit fat magic; a macOS target is named for no other file |
| PlatformDetection.ElfRoundTrip | crates/agent/src/cmd/upgrade.rs:162-187 | an ELF header written with the e_machine of an architecture, either byte order, is named after it, and with any other number is not named (ELF Header chapter of the System V gABI) |
| PlatformDetection.PeRoundTrip | crates/agent/src/cmd/upgrade.rs:269-290 | so is a PE file written with the machine number of an architecture, whatever else it contains and wherever its header lies apart from the first two bytes and the word that gives its offset (COFF File Header section of the Microsoft PE Format specification) |
| PlatformDetection.PePlaces | crates/agent/src/cmd/upgrade.rs:269-290 | every file recognised as PE has its header in such a place |
| PlatformDetection.DetectBinaryPlatform | crates/agent/src/cmd/upgrade.rs:112-130 | the dispatcher refines the platform of a byte string |
| QueryStrings.ParseQuery | components/ci-controller/src/lib.rs:50-60 | the loop refines the parse |
| QueryStrings.ParseHomomorphism | components/ci-controller/src/lib.rs:50-60 | for all strings, parsing a&b is parsing a overridden by parsing b |
| QueryStrings.RoundTrip | components/ci-controller/src/lib.rs:50-60 | rendering a query in any key order and parsing gives it back |
| QueryStrings.OddPairs | components/ci-controller/src/lib.rs:53-57 | a pair without = is a key with an empty value, one without a key is nothing |
| Multipart.EmitPart | components/ci-controller/src/lib.rs:151-155 | one part is appended as its section |
| Multipart.BuildMultipart | components/ci-controller/src/lib.rs:143-165 | what the builder appends step by step is the encoding of the form's parts |
| Multipart.SectionsClosed | components/ci-controller/src/lib.rs:146-163 | the line end behind each part serves as the start of the next delimiter |
| Multipart.FormText | components/ci-controller/src/lib.rs:143-165 | the form is, line by line, the text the source spells out: delimiter lines, headers, blank lines, contents, closing line |
| Multipart.CutAt | components/ci-controller/src/lib.rs:144 | a delimiter whose first byte does not recur in it is first found behind content free of it, partial delimiters at its end included |
| Multipart.PartsRead | components/ci-controller/src/lib.rs:143-165 | a reader after section 5.1.1 of RFC 2046 gives back any list of parts if and only if no content contains the delimiter |
| Multipart.FormRoundTrip | components/ci-controller/src/lib.rs:143-165 | the form is read back, every byte, if and only if neither job, workspace nor token contains the delimiter |
| Multipart.StrictReader | components/ci-controller/src/lib.rs:146-163 | a reader for which the line end before the content may begin a delimiter finds the content if and only if, besides, it does not begin with a dash-boundary |
| Multipart.FieldsNamed | components/ci-controller/src/lib.rs:147-159 | its parts read, after section 4 of RFC 7578, as the fields job_toml and asset with their file names |
| ChunkedUpload.UploadAsset | crates/agent/src/cmd/job.rs:68-95 | for every blob the loop publishes one inline message, or every chunk once, in order, numbers wrapping at 2^32 |
| ChunkedUpload.ChunkShapes | crates/agent/src/cmd/job.rs:79-82 | no chunk is empty, all but the last are full |
| ChunkedUpload.ChunksJoin | crates/agent/src/cmd/job.rs:82-94 | joined by index the chunks are the blob |
| ChunkedUpload.PayloadSizes | crates/agent/src/cmd/util.rs:77 | every chunk's base64 form (section 4 of RFC 4648) is under the transmit limit; an inline payload fits if and only if the blob has at most 7864320 bytes |
| ChunkedUpload.Receiver.OnMessage | crates/agent/src/p2p/mod.rs:916-956 | the handler refines acceptance, and stores a completed blob exactly when its hash is the announced digest |
| ChunkedUpload.ChunkMeans | crates/agent/src/p2p/mod.rs:933-954 | a chunk takes its place in its digest's buffer, whose length the first chunk fixed, or is ignored; the buffer goes when complete, no other is touched |
| ChunkedUpload.InlineArrives | crates/agent/src/p2p/mod.rs:916-930 | an inline blob is there as soon as its message is, whatever else arrives |
| ChunkedUpload.Reassembly | crates/agent/src/p2p/mod.rs:931-956 | under any order, repetition and other traffic a blob whose chunks can be counted is completed if and only if every chunk has arrived, and every completion is the blob |
| ChunkedUpload.UploadArrives | crates/agent/src/p2p/mod.rs:931-956 | so an upload that has fully arrived is reassembled |
| ChunkedUpload.UploadArrivesIff | crates/agent/src/cmd/job.rs:80-93 | an upload all of whose messages have arrived is reassembled if and only if its chunks number less than 2^32 |
| WasmExecution.PinnedExecution | crates/agent/src/p2p/jobs_wasm.rs:31-129 | whichever way the bytes came, a pinned job that runs runs a file hashing to its pin; without collisions, exactly the bytes resolved |
| WasmExecution.ResolveSources | crates/agent/src/p2p/jobs_wasm.rs:31-84 | where the bytes come from, case by case: store, fetch, or peers, which error there is otherwise, and what is put into the store |
| WasmExecution.StageOutcome | crates/agent/src/p2p/jobs_wasm.rs:31-129 | a job runs, from the file named after its digest and with its attachments written, if and only if its bytes can be had, match the pin, and all attachments can be had; otherwise the stage that fails decides |
| WasmExecution.LocalBlobSuffices | crates/agent/src/p2p/jobs_wasm.rs:33-39 | a job pinned to a stored blob, with stored attachments, runs whatever peers and network do |
| WasmExecution.AttachKeepsBlobs | crates/agent/src/p2p/jobs_wasm.rs:94-120 | attachments change no blob and keep the store in agreement |
| WasmExecution.AttachEffects | crates/agent/src/p2p/jobs_wasm.rs:94-120 | each attachment up to the first that cannot be had is written to its place, unless a later one overwrites it, as the stored blob or as the peers answered; no other file changes; the first failure decides the error |
| WasmExecution.AttachTouches | crates/agent/src/p2p/jobs_wasm.rs:97 | exactly the stored attachments written are marked as used |
| WasmExecution.AttachmentHonest | crates/agent/src/p2p/jobs_wasm.rs:97-112 | an attachment hashes to its digest if and only if it was stored or the peers told the truth |
| WasmExecution.AttachmentSafeIff | crates/agent/src/p2p/jobs_wasm.rs:97-112 | whatever the peers answer, what is written hashes to the digest asked for, if and only if the blob is in the store |
| WasmExecution.DishonestAttachment | crates/agent/src/p2p/jobs_wasm.rs:101-118 | a concrete peer whose answer is written although it hashes otherwise |
| WasmExecution.ResolveBytes | crates/agent/src/p2p/jobs_wasm.rs:31-84 | every source path and failure refines the resolution |
| WasmExecution.AttachAll | crates/agent/src/p2p/jobs_wasm.rs:94-120 | the loop writes the attachments in order up to the first failure |
| WasmExecution.ExecuteWasmJob | crates/agent/src/p2p/jobs_wasm.rs:31-129 | the staging refines the specification; when the job runs, the file handed to the runner hashes to the pin and every attachment is in its place |
| ManifestRestore.ArtifactPathInjective | crates/agent/src/p2p/handlers/push.rs:118 | an artifact's path determines its component and sixteen digits |
| ManifestRestore.PushMeans | crates/agent/src/p2p/handlers/push.rs:115-158 | an accepted push stages its file unless there is one, and if started puts its digest, replicas and targets into manifest and desired set, leaving all other components |
| ManifestRestore.NodeFiles.UpdateManifestWithComponent | crates/agent/src/p2p/state.rs:145-174 | the manifest gains or replaces one component; an absent or unreadable one starts empty |
| ManifestRestore.NodeFiles.HandlePush | crates/agent/src/p2p/handlers/push.rs:115-158 | refines an accepted push on files, manifest and supervisor |
| ManifestRestore.NodeFiles.RestoreFromDisk | crates/agent/src/supervisor.rs:44-119 | the supervisor gets exactly the restorable components, or is left alone when there are none |
| ManifestRestore.RestoringAsks | crates/agent/src/supervisor.rs:57-96 | an entry of any manifest comes back if and only if it is to be started, targets the node by id and roles, and its cached file hashes to its digest |
| ManifestRestore.PushesMirror | crates/agent/src/p2p/handlers/push.rs:133-155 | after any pushes manifest and live components mirror each other, with a file for each |
| ManifestRestore.ManifestHoldsLast | crates/agent/src/p2p/state.rs:164-165 | the manifest holds the last started push of each name |
| ManifestRestore.ManifestHoldsOnlyPushed | crates/agent/src/p2p/state.rs:164-165 | and nothing else |
| ManifestRestore.FirstStagedWins | crates/agent/src/p2p/handlers/push.rs:118-121 | the first push staged at a path decides its content |
| ManifestRestore.RestoreExact | crates/agent/src/supervisor.rs:44-119 | a name comes back if and only if its last started push targets this node and the file in its place hashes to its digest, which the first push staged there decides |
| ManifestRestore.RestoreIsLive | crates/agent/src/supervisor.rs:57-96 | when no two digests of a component share sixteen digits, a restart brings back exactly the live components that target the node |
| ManifestRestore.ClashForgets | crates/agent/src/supervisor.rs:67-86 | two concrete builds with digests alike in sixteen digits: the second is live and lost by a restart |

## Left out

- JobInstance is a value: the code owns each record inside the map, so there is no sharing to model; its methods are functions that return the changed record.
- TransitionSound: times are natural numbers and exit codes integers; the widths of `u64` and `i32` are not modelled.
- GeneratedIdIsFresh: the counter does not wrap at `u64`, and nodes generate ids under their own name, as the agent and its tools do.
- ClusterConverges: does not say that a full exchange must happen, since delivery is arbitrary; ExchangePossibleIff says when one can.
- AgreementPossible: is a sufficient condition, and AgreementNeeds a necessary one; they are one where messages match the holders. Otherwise it can depend on how lists that mix outdated and current records may be interleaved.
- ExchangePossibleIff: about gossip alone; an operation on a buried job refreshes it and lets it spread again.
- CrashLosesNothingSaved: a crash in the middle of writing `jobs.json` is not modelled, since writes are taken to be atomic under the state lock.
- ReconcileOnce: takes the artifacts, and so which components are HTTP, not to change within an uninterrupted round; in Supervision every single launch decides anew.
- UploadAsset: models the wrap-around of a release build; a build with overflow checks would stop at the 2^32nd chunk instead.
- FormRoundTrip: the job text is given as its bytes; UTF-8 encoding is not modelled.
- PartsRead: of the readers section 5.1.1 of RFC 2046 allows, models the one for which a delimiter cannot share the line end of the blank line; StrictReader says what the other asks of a content.
- PayloadSizes: compares the base64 payload alone with the transmit limit; the JSON around it, signatures and headers make messages larger.
- HandlePush: starts after the signature, digest and trusted-owner checks; memory, fuel, mounts, ports and visibility are carried along unread and are not in the model.
- RestoreFromDisk: a manifest entry with a digest shorter than sixteen characters makes the code panic; it is required not to occur, and pushes never write one.
- GetPath: a digest shorter than four characters makes the code panic; staging a job turns that into the outcome ShortDigest.
- ExecuteWasmJob: host files written for attachments lie outside the blob directory; errors are told apart by kind, not by text; running the module is not modelled.
- NetListJobs: the two timeouts only decide how many messages are heard, which is arbitrary here.
- StageArtifacts: the copied files themselves are not modelled, only which copies succeeded and their digests.
- StoppedStaysDown: stopping also removes the component from the manifest file (components_ops.rs) and clears its work directory; neither is modelled.
- Recurring schedules (`evaluate_schedules`, `last_scheduled_at`, `schedule_next_at`), which rest on the cron library.
- Job selection by targeting, and broadcast retries; the status operations of a receiving node are modelled as arbitrary local operations.
- The native and QEMU executors, which repeat the wasm executor's staging, and the runners themselves.
- libp2p, HTTP serving, the web interface, command-line parsing, metrics, log streaming and work directories.
- The suppression of repeated broadcasts by hash: a snapshot may be sent or not at any time.
- Several processes writing `jobs.json` or the store's index, and files deleted behind the program's back.
