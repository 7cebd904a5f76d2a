# DockTunnel, modelled and proved

DockTunnel scans Docker, computes the set of routes that should exist, and pushes them
to a Cloudflare tunnel through one debounced worker; entry state, a retry queue and a
ledger of owned DNS records survive restarts. This project models that logic in Dafny
4.11 and proves what it keeps over whole runs. `dafny verify dfyconfig.toml` checks
everything.

Where the code changes state in place, the model is a class or a method with loops
(`Manager`, `Controller`, `Cloudflare`, `HealthTracker`, `ZoneResolver`, `TreeNode`,
`TunnelEntry`, `Disk`), proved against value-level functions; the theorems are about those
functions. The two concurrent protocols, the sync worker and the retry queue, are step
machines in which every lock section, channel operation and failing call is a step, and
`SyncRetry` composes them, as `Publish` composes the worker with the zone and the ledger.
What label parsing guarantees of a rule (a lower-case hostname without NUL, a service with
a scheme) is the predicate `FromLabels`; it is assumed of the scan and proved of every
rule served or persisted, over every run. Failing calls are parameters or steps. Map
iteration is an arbitrary choice of the next key everywhere, so a result that is proved
equal to a function does not depend on map order.

| module | models |
|---|---|
| `Text`, `Sorting`, `Int64` | case folding, byte order, splitting; sorting; 64-bit wrap-around |
| `Routes` | rules, their storage keys, the pushed list |
| `SyncWorker` | the worker, its channel, flushers and the two reads of a sync |
| `DnsContent`, `Ledger`, `Dns`, `Syncer`, `Publish` | the DNS ownership ledger, planning, batches, and `syncDNSRecords`; what is published when the worker rests |
| `TunnelStore`, `StateManager`, `SnapshotCopy` | the entry lifecycle as values, the manager that updates entries and queue, and the deep copies of a snapshot |
| `Validator`, `Desired`, `Builder` | validation; what a rebuild must produce; `buildDesiredRules` |
| `Served`, `Retention` | which routes a build serves, said of the scan alone; how long a stopped service is held, said of its labels |
| `Controller`, `Reconcile` | event handlers, GC, cleanup; drift detection |
| `Health`, `Compensation`, `SyncRetry` | flapping and back-off arithmetic; the retry queue; worker and queue together |
| `LabelTrie`, `LabelNodes` | the label tree as a value, and as linked nodes updated in place |
| `ZoneCache` | the zone lookup with and without its cache |
| `Persistence` | snapshots, validation, the state file and its crash points |

## What is false, and when

Several natural claims do not hold of the code. For each, a lemma shows the failure on
inputs the code can receive, and a lemma says exactly when the claim holds.

- A stop or a collection removes routes by hostname, so it can drop another container's
  path: `RemovalDropsAnothersPath`, after two registrations and a stop; it spares the
  others exactly under the condition of `RemovalSparesOthers`.
- Registering a container twice fails exactly when it has services (`RegisterTwiceFails`).
- A container that meets a route held by a smaller ID is rejected with all its services,
  except that it is accepted, and only loses those routes, exactly when every key it meets
  is also retained (`CollisionRejectsIff`, `CollisionOutcome`; both shown at a scan by
  `CollisionAtScan`).
- A rule change whose writer never triggers a sync is lost (`SilentWriteIsLost`), and
  `Reconcile` can make one, as its contract shows; at rest the pushed list is right exactly
  when the rules are again the ones read last (`PushedIffUnchanged`).
- A failed sync is queued for retry, but a failure that slips in after a retry has
  succeeded and before its record is dropped is not (`FailureOvertaken`, reached by
  `RetrySucceeds`). At rest after a failure a live record is queued exactly unless that
  happened, the queue was full, an error was permanent or the retries were spent
  (`FailureIsAnswered`).
- A desired hostname taken by a CNAME with another target is recorded in the ledger but
  never published (`FateOfDesired`, `SyncPublishes`), and keeps every later sync busy
  (`SecondSyncIsNoOp`).
- A hostname written with its final dot is accepted from labels, but is another spelling
  than the stored name: every sync writes it again (`SecondSyncIsNoOp`), and adding the dot
  to a label deletes the live record, which stays gone if the upsert then fails
  (`SpellingChangeDeletes`); no delete hits a desired name exactly under the condition of
  `DeletesSpareSpellingsIff`.
- Two running containers can serve one DNS name (`DotDuplicates`), exactly when their
  hostnames differ in the final dot (`BuildSpellings`).
- Stored rules are said always to carry a hostname. The stop fallback keeps services
  without one, and a retaining policy puts such a rule into the next build
  (`StopLeavesNamelessRule`), where it sorts ahead of every other rule (`NamelessFirst`) and
  asks for the publication of an empty name, which has no zone (`NamelessHasNoZone`), so
  that no DNS sync completes (`SyncDNSRecords`). Every rule of a build has a hostname
  exactly when no retained entry lacks one (`NamedIff`).
- The README of the program promises an exponentially growing cool-down. The exponent never
  leaves 0, over every run, exactly with a threshold of at least 2 and a cooling period
  longer than the window, as in its defaults (`BackOffNeverGrows`); with a threshold of 1
  the first cool-down already lasts two periods (`FirstCoolingDoubles`).
- It also promises to act on more than `flappingThreshold` restarts within the window. The
  code does so, over every run, exactly when the threshold is 1 (`DocumentedIff`); above, it
  acts on the threshold itself and bounds each gap, not the sum (`SpacedStartsAreMarked`),
  and `MarkedIff` says exactly what marks a container.
- The zone cache answers wrongly when one zone is a suffix of another (`ParentShadows`);
  otherwise it is transparent (`TransparentIff`).
- Labels that differ only in case overwrite each other; every label keeps its value exactly
  when such labels agree (`FaithfulIff`; `CaseOverwrites` and `CaseOverwritesTraefik` show
  two that do not).
- An index in a label is a node of its own, but only the first bracket of a segment is
  split at: the names of "a[0][1]" are "a" and "[0][1]" (`TwoIndices`). A name keeps a
  bracket within it exactly when its segment has two and ends in one
  (`SecondBracketStays`).
- A crash between the rotation of the state file and the final rename loads an empty state
  although the newest backup is the state that was lost (`EmptyWindow`); `Save` says
  exactly when that window opens and `CrashLoads` what every crash loads.
- A restart brings back an entry that was collected after the last save
  (`CollectedComesBack`); it stays gone exactly when a save comes before the first restart
  (`CollectedStaysGoneIff`).
- Version 1 files kept entries under bare container IDs, and loading is meant to re-key
  them; but validation, on by default, refuses every such file (`BareKeysAreRefused`), and
  in one that passes the migration changes the entries exactly when a service name is
  missing (`MigrationIsIdleIff`).
- A retry limit with initial · 2^(limit-1) beyond 64 bits gives negative delays
  (`DefaultBackoff`), and only such a limit does (`BackoffFits`).

## Model

| member | source | states |
|---|---|---|
| `Routes.KeyRoundTrip` | internal/controller/desired.go:24-35 | the hostname is recovered from a storage key exactly when it holds no NUL |
| `Routes.KeyInjective` | internal/controller/desired.go:24-26 | two (hostname, path) pairs share a key exactly when they are equal |
| `Routes.RemoveUnregistered` | internal/controller/desired.go:45-62 | a by-hostname removal changes the rules exactly when the hostname is registered |
| `Routes.RuleOrder` | internal/controller/syncer.go:305-315 | the comparison by hostname, path, service is a strict weak order |
| `Routes.IngressListUnique` | internal/controller/syncer.go:290-323 | the pushed list is determined by the rules, whatever the map order |
| `Routes.IngressListInjective` | internal/controller/syncer.go:290-323 | the pushed list determines the rules it was built from |
| `Routes.NamelessFirst` | internal/controller/syncer.go:303-315 | the first pushed rule has no hostname exactly when some stored rule has none |
| `Routes.ListAscends` | internal/controller/syncer.go:305-315 | the pushed rules ascend strictly by hostname and, within one hostname, by path |
| `Routes.GetIngressRules` | internal/controller/syncer.go:290-323 | the loop and sort give every stored rule once, in order, then the catch-all |
| `SyncWorker.InvKept` | internal/controller/sync_worker.go:51-180 | every step of callers, worker, failing call and shutdown keeps the five-part invariant |
| `SyncWorker.ReachableInv` | internal/controller/sync_worker.go:51-180 | the invariant holds in every reachable state |
| `SyncWorker.NoLostWakeup` | internal/controller/sync_worker.go:60-66 | at rest after a successful cycle every announced change was read, and the pushed list and DNS names are those of the current rules |
| `SyncWorker.FlushGuarantee` | internal/controller/sync_worker.go:71-96 | a flusher is in exactly one place and closed at most once; closed outside shutdown, a sync begun after it was taken has finished |
| `SyncWorker.Settles` | internal/controller/sync_worker.go:113-180 | from every reachable state the worker has a schedule of its own steps that reaches rest, serving every sent flusher and any pending request |
| `SyncWorker.EveryScheduleSettles` | internal/controller/sync_worker.go:113-180 | every run of the worker's own steps, failures included, is bounded; where it can go no further it is at rest with every sent flusher closed, and without failures the remote matches |
| `SyncWorker.OwnRunsAreBounded` | internal/controller/sync_worker.go:113-180 | the number of own steps left strictly decreases |
| `SyncWorker.PushedIffUnchanged` | internal/controller/syncer.go:83-110 | at rest after a success the pushed list is that of the current rules exactly when they are the ones read last |
| `Publish.RestIsPublished` | internal/controller/syncer.go:83-128 | at every reachable rest after a success, with nothing unannounced and no outside edit since, every current hostname is in the ledger and its record reads as this tunnel's unless a foreign CNAME held it, even when listings were partial |
| `Publish.InvKept` | internal/controller/syncer.go:83-128 | every step of worker, sync calls and outside edits keeps that the zone is what the last successful sync left |
| `SyncWorker.SilentWriteIsLost` | internal/controller/reconciler.go:65-83 | a change without a trigger leaves a quiescent worker with a stale remote |
| `DnsContent.MatchesIsOurs` | internal/cloudflareManager/tunnel.go:658-660 | the sync's comparison never accepts what the normalised one calls foreign |
| `DnsContent.OursIff` | internal/cloudflareManager/tunnel.go:658-660 | a live content is this tunnel's exactly when it is the tunnel's name up to case, with or without one final dot |
| `DnsContent.SameContentSameTunnel` | internal/controller/syncer.go:190-196 | one live content matches at most one tunnel, trailing dot or not |
| `Ledger.LedgerTraced` | internal/controller/syncer.go:133-287 | over every run with failures, restarts, lost state and edits, each ledger entry, in memory or saved, goes back to a completed sync that desired it |
| `Ledger.DeletesAreOwned` | internal/controller/syncer.go:203-236 | a delete is only issued for a name not desired in that spelling (in no spelling, when desired names include their stored forms) whose live record points here and matches its ledger entry, and which an earlier completed sync of this tunnel desired |
| `Ledger.NeverDesiredNeverDeleted` | internal/controller/syncer.go:185-236 | no delete is ever issued for a name never desired |
| `Ledger.NeverDesiredSurvives` | internal/controller/syncer.go:185-282 | the record of a name that no sync desired in any spelling survives every run unchanged, unless someone else edits it |
| `Ledger.FateOfDesired` | internal/cloudflareManager/tunnel.go:865-870 | a desired name ends in the ledger, and its stored form reads as this tunnel's unless a foreign CNAME holds it, which is kept |
| `Ledger.FateWith` | internal/controller/syncer.go:165-282 | the same from any listing that misses zones or pages |
| `Ledger.FateOfUndesired` | internal/controller/syncer.go:211-236 | an undesired name keeps its ledger entry exactly when no record of that name was listed |
| `Ledger.EntryRefreshed` | internal/controller/syncer.go:203-209 | exactly when a desired name's ledger entry ends with this tunnel's content |
| `Ledger.SyncSettlesLedger` | internal/controller/syncer.go:165-282 | after a completed sync the ledger holds exactly the desired names and the former entries that were not listed |
| `Ledger.SyncPublishes` | internal/controller/syncer.go:165-282 | every desired name is published under its stored form exactly when none is taken by another target |
| `Ledger.SecondSyncIsNoOp` | internal/controller/syncer.go:165-282 | the next sync plans nothing at all exactly when none is taken by another target and every desired name is a stored form |
| `Ledger.DeletesSpareSpellingsIff` | internal/controller/syncer.go:203-236 | for every listing and ledger no delete hits a name desired in another spelling exactly when the desired names include their own stored forms |
| `Ledger.SpellingChangeDeletes` | internal/controller/syncer.go:211-272 | an honest run in which adding the final dot to a name deletes its record while it is desired, and a failing upsert leaves it gone |
| `Ledger.ZoneAt` | internal/cloudflareManager/tunnel.go:796-915 | every record after a completed sync was written for a desired name or left alone |
| `Ledger.CleanupRemovesOwned` | internal/controller/controller.go:173-188 | a cleanup sync removes exactly the owned, unchanged records |
| `Ledger.FailedSyncLedger` | internal/controller/syncer.go:249-282 | what a failed sync keeps: after a failed delete all but the entries whose record no longer reads as written, after a failed upsert all but the listed undesired ones; nothing is added or altered |
| `Ledger.DeleteIsRetried` | internal/controller/syncer.go:211-260 | a delete that failed without effect is planned again, in full, by the next sync |
| `Ledger.UpsertIsRetried` | internal/controller/syncer.go:177-272 | an upsert that failed without effect is planned again, and so are the adoptions |
| `Dns.UpsertPlanOps` | internal/cloudflareManager/tunnel.go:828-884 | the plan writes exactly the requested names whose record, in any spelling, has no other target |
| `Dns.DeletePlanOps` | internal/cloudflareManager/tunnel.go:764-776 | the plan deletes exactly the requested records of this tunnel |
| `Dns.MatchExistingCNAME` | internal/cloudflareManager/tunnel.go:749-758 | the first record with this name up to case and final dot, or none |
| `Dns.CollectDeletes` | internal/cloudflareManager/tunnel.go:764-776 | deletes for exactly the records with this tunnel's content, in order |
| `Dns.Cloudflare.PlanUpsert` | internal/cloudflareManager/tunnel.go:834-884 | post, patch or nothing, from the records the remote returns; a failed lookup plans nothing, and without a failing call there is a plan |
| `Dns.UpsertPrefix` | internal/cloudflareManager/tunnel.go:886-911 | any submitted prefix leaves each record as before or as planned; all of it leaves exactly the planned zone |
| `Dns.DeletePrefix` | internal/cloudflareManager/tunnel.go:1003-1023 | the same for deletes |
| `Dns.Cloudflare.Submit` | internal/cloudflareManager/tunnel.go:886-911 | batches of 1 to 200 concatenate to the planned operations in order; a failing call stops there, and without one all are sent |
| `Dns.Cloudflare.UpsertZone` | internal/cloudflareManager/tunnel.go:828-911 | one zone: every planned write, and without a failing call nothing less; on failure part of it; nothing else changes |
| `Dns.Cloudflare.DeleteZone` | internal/cloudflareManager/tunnel.go:961-1023 | the same for deletes |
| `Dns.Cloudflare.GroupByZone` | internal/cloudflareManager/tunnel.go:815-823 | the groups partition the names by zone; it stops before any write only for a name without a zone or a failing lookup |
| `Dns.Cloudflare.UpsertDNSRecords` | internal/cloudflareManager/tunnel.go:796-915 | success writes every name not taken by another target; failure leaves each record as before or as planned; it succeeds when no call fails and every name can be written |
| `Dns.Cloudflare.DeleteDNSRecords` | internal/cloudflareManager/tunnel.go:922-1030 | success removes exactly this tunnel's named records; failure leaves each as before or removed; it succeeds when no call fails and every name has a zone |
| `Dns.Cloudflare.ListDNSRecords` | internal/cloudflareManager/tunnel.go:664-742 | fails exactly when the pager of zones fails or every zone does; else lists exactly this tunnel's records on the pages that were read, those before a zone's failure included |
| `Syncer.CollectUpserts` | internal/controller/syncer.go:177-183 | the loop collects exactly the plan's upserts |
| `Syncer.FateIsPlan` | internal/controller/syncer.go:203-236 | the source's order of tests puts each record in exactly the plan's class |
| `Syncer.Classify` | internal/controller/syncer.go:203-236 | the loop's lists are the plan's adoptions, forgotten entries and deletes |
| `Syncer.Execute` | internal/controller/syncer.go:249-282 | whatever call fails, ledger and zone move as planned up to it and foreign records are untouched; without a failing call all of the plan is carried out |
| `Syncer.SyncDNSRecords` | internal/controller/syncer.go:133-287 | the whole sync refines the ledger and zone specification and is the abstract sync when every zone could be listed; a failed one leaves exactly the ledger of `Ledger.FailedSyncLedger`; it is done when no call fails, and only if every unlisted desired name has a zone |
| `TunnelStore.OwnerOfEntryKey` | internal/state/manager.go:51-62 | the container ID is recovered from a compound key |
| `TunnelStore.EntryKeyInjective` | internal/state/manager.go:45-53 | a compound key determines container and service |
| `TunnelStore.StartOk` | internal/controller/handlers.go:54-118 | a start keeps the lifecycle invariant |
| `TunnelStore.StopOk` | internal/controller/handlers.go:147-243 | a stop keeps it although the fallback breaks disjointness midway |
| `TunnelStore.RebuildOk` | internal/controller/desired.go:228-291 | a rebuild keeps it and leaves active entries to scanned and pending ones to other containers |
| `TunnelStore.RebuildIdempotent` | internal/controller/desired.go:228-291 | rebuilding again from the same scan moves no entry |
| `TunnelStore.LifecycleInvariant` | internal/state/manager.go:359-395 | keys, disjointness and the agreement of status, policy and timestamp hold after every sequence of starts, stops, collections, rebuilds, saves and reloads |
| `TunnelStore.RetentionWindow` | internal/state/manager.go:572-622 | a timed entry is kept unchanged exactly until the first collection at or after its deadline; forever is never collected, immediate at the first |
| `TunnelStore.StoppedRetention` | internal/state/transition.go:39-85 | over every run, from the clock of the stop or rebuild itself: a timed entry is held exactly until the first collection at or after that time plus its duration, forever for good, immediate until the next collection |
| `TunnelStore.StopThenStart` | internal/state/manager.go:359-395 | a start gives back exactly the entry that was active before the stop, unless it was collected |
| `TunnelStore.RebuildKeepsKnown` | internal/controller/desired.go:411-435 | a rebuild never overwrites the entries of running containers |
| `TunnelStore.RetentionAcrossRestarts` | internal/state/manager.go:500-622 | with saves, restarts and collections anywhere, an entry is held exactly as two bits, memory and disk, say |
| `TunnelStore.CollectedComesBack` | internal/state/manager.go:500-622 | collected after the last save, an entry is back after a restart |
| `TunnelStore.CollectedStaysGoneIff` | internal/state/manager.go:500-622 | over every run it stays gone exactly when a save comes before the first restart |
| `TunnelStore.TimedSurvives` | internal/state/manager.go:572-622 | a saved timed entry survives any restarts before its deadline |
| `TunnelStore.ForeverSurvives` | internal/state/manager.go:572-622 | a saved forever entry survives any restarts |
| `TunnelStore.LabelsAlways` | internal/controller/desired.go:411-435 | what label parsing guarantees stays true of every persisted rule, in memory and on disk, over every run |
| `StateManager.Manager.AddActiveTunnel` | internal/state/manager.go:180-192 | the entry is stored under its key; the pending map is not consulted |
| `StateManager.Manager.GetActiveTunnelsByContainer` | internal/state/manager.go:223-234 | exactly the container's active entries, each once |
| `StateManager.Manager.HasPendingDeletion` | internal/state/manager.go:271-281 | whether any pending entry belongs to the container |
| `StateManager.Manager.TransitionStopped` | internal/state/transition.go:39-85 | the entry moves to pending with the given policy and the time of this call, status by policy; only an immediate policy asks for a route delete |
| `StateManager.Manager.RestoreActiveTunnel` | internal/state/manager.go:359-395 | exactly the container's pending entries become active again and exactly its queued route deletes are cancelled |
| `StateManager.Manager.RunGC` | internal/state/manager.go:572-622 | removes and returns exactly the expired entries, each once |
| `StateManager.Manager.ListRetaining` | internal/state/manager.go:331-351 | exactly the retaining entries, each once |
| `StateManager.Manager.RecordManagedDNS` | internal/state/manager.go:407-415 | the ledger gains these hostnames with this content |
| `StateManager.Manager.ForgetManagedDNS` | internal/state/manager.go:420-434 | the ledger loses exactly these hostnames, and is dirty only if one was there |
| `SnapshotCopy.CopyEntries` | internal/state/manager.go:448-480 | a snapshot's entries hold the same values in objects shared with nothing that existed and not with one another |
| `SnapshotCopy.SnapshotThenStop` | internal/state/manager.go:397-480 | stopping an entry in place afterwards changes nothing in the snapshot |
| `Validator.CheckUnique` | internal/controller/validator.go:27-50 | fails exactly when two routes collide up to hostname case, whatever the map order |
| `Validator.CheckEach` | internal/controller/validator.go:55-144 | fails exactly when a field is missing or a URL is refused |
| `Validator.Validate` | internal/controller/validator.go:161-168 | accepts exactly the services that pass all three |
| `Validator.SameKeySameRoute` | internal/controller/validator.go:27-50 | equal storage keys are equal routes |
| `Served.RouteOfIff` | internal/controller/validator.go:27-50 | two routes collide exactly when their hostnames are equal up to case and their paths equal |
| `Served.AcceptedIff` | internal/controller/desired.go:299-364 | a container is accepted exactly when it opts in, is not cooling, names a route, all it names are complete and distinct, and none is held by another under a key that is not retained |
| `Served.ServedIfApart` | internal/controller/desired.go:212-380 | such a container, sharing no route with others of the scan, has all its routes in the build under its own rules, and its hostnames recorded |
| `Served.LeftOut` | internal/controller/desired.go:299-352 | a container that may not be served owns no route of the build and has no hostname recorded |
| `Desired.Winner` | internal/controller/desired.go:293-373 | a route is held exactly by the first accepted container that offers it, with the rule it offers |
| `Desired.WinnerHasSmallestId` | internal/controller/desired.go:222-226 | that container has the smallest ID of all accepted ones that offer it |
| `Desired.LaterNeverTakes` | internal/controller/desired.go:354-369 | no later container changes a route already won |
| `Desired.RejectedIsIsolated` | internal/controller/desired.go:318-352 | a rejected container changes nothing for the others |
| `Desired.ScanOrderIrrelevant` | internal/controller/desired.go:222-226 | the order of the scan does not matter |
| `Desired.CollisionRejectsIff` | internal/controller/desired.go:336-364 | a container is rejected as a whole exactly when it is unsound or meets a held key that is not retained |
| `Desired.CollisionOutcome` | internal/controller/desired.go:336-369 | it then takes none of its routes, or all but the ones it meets, and no held route changes |
| `Desired.CollisionAtScan` | internal/controller/desired.go:336-369 | for any two rules, a scan in which the second container is rejected with both its services, and one in which a retained key lets it in |
| `Desired.SameDnsRouteIff` | internal/controller/validator.go:27-50 | two rules from labels name one DNS record and path exactly when the hostnames differ in the final dot |
| `Desired.DotDuplicates` | internal/controller/validator.go:27-50 | and two containers with such hostnames are both accepted |
| `Desired.OwnedServicesDiffer` | internal/controller/desired.go:411-435 | distinct routes have distinct state entries |
| `Desired.BuildPartitions` | internal/controller/desired.go:228-291 | whatever the maps held, afterwards active entries are of scanned containers and no pending one is |
| `Desired.BuildUnique` | internal/controller/desired.go:212-380 | with distinct retained keys neither scan order nor map order shows in rules or entries |
| `Desired.BuildWinner` | internal/controller/desired.go:212-380 | each route is the first accepted container's, or else exactly a retained rule |
| `Desired.BuildAgain` | internal/controller/desired.go:212-380 | an immediate second build changes no entry and returns the same rules |
| `Builder.TransitionEntriesStopped` | internal/controller/desired.go:386-405 | all of the container's entries stop under their own policies, and the immediate ones' hostnames are returned |
| `Builder.RestoreScanned` | internal/controller/desired.go:228-246 | scanned containers leave the pending map, their queued deletes are cancelled, and their IDs are collected |
| `Builder.GroupActive` | internal/controller/desired.go:253-262 | the active entries grouped by container |
| `Builder.StopUnscanned` | internal/controller/desired.go:248-272 | entries of containers outside the scan stop, the others stay |
| `Builder.CollectRetained` | internal/controller/desired.go:274-291 | a retained rule under every retained key and no other |
| `Builder.Admit` | internal/controller/desired.go:299-352 | a container passes exactly when it opts in, is not cooling, parses, offers a route and validates against the routes won so far |
| `Builder.RegisterTunnelEntryIfMissing` | internal/controller/desired.go:411-435 | a known entry is left as it is |
| `Builder.MergeServices` | internal/controller/desired.go:354-372 | the container takes exactly its offered routes that nobody holds, with entries and hostnames to match |
| `Builder.MergeContainers` | internal/controller/desired.go:293-373 | the loop computes the merge in ID order |
| `Builder.BuildDesiredRules` | internal/controller/desired.go:212-380 | the result is a build as specified, and the manager holds its maps |
| `Controller.RegisterTwiceFails` | internal/controller/handlers.go:24-29 | a second registration is accepted exactly when there is nothing to register |
| `Controller.RemovalDrops` | internal/controller/desired.go:45-51 | a removal drops exactly the routes of the hostnames, whoever owns them |
| `Controller.StopDropsIff` | internal/controller/handlers.go:220-236 | a stop drops exactly the routes whose hostname an immediate entry of the container has |
| `Controller.CollectionDropsIff` | internal/controller/gc.go:37-53 | a collection drops exactly the routes whose hostname a collected entry has |
| `Controller.RemovalSparesOthers` | internal/controller/desired.go:45-51 | it spares the others' routes exactly when none shares a hostname |
| `Controller.RemovalDropsAnothersPath` | internal/controller/handlers.go:227-236 | after two containers registered one hostname under two paths, the first one's immediate stop drops the second one's route |
| `Controller.DecimalInjective` | internal/controller/handlers.go:207-210 | numbered fallback services never collide |
| `Controller.LastResortCovers` | internal/controller/handlers.go:201-218 | the last resort loses no hostname |
| `Controller.StartKeepsOk` | internal/controller/handlers.go:54-118 | every outcome of a start keeps the lifecycle invariant |
| `Controller.StopKeepsOk` | internal/controller/handlers.go:147-243 | every fallback of a stop keeps it |
| `Controller.BuildProper` | internal/controller/desired.go:212-380 | the rules of a build sit under their own keys and, like every entry's, come from labels |
| `Controller.BuildRoutesDistinct` | internal/controller/desired.go:212-380 | no two keys of a build, retained ones included, fold to one route |
| `Controller.BuildSpellings` | internal/controller/desired.go:212-380 | two keys of a build name one DNS record exactly when their hostnames differ in the final dot |
| `Controller.StopLeavesNamelessRule` | internal/controller/handlers.go:168-198 | a stop with rebuilt entries and a retaining policy puts a rule without a hostname into the next build |
| `Controller.NamedIff` | internal/controller/syncer.go:303-304 | every rule of a build has a hostname exactly when no retained entry lacks one |
| `Retention.RunningThenStopped` | internal/controller/desired.go:427-433 | over every run a running service that stops is held as its label says, Timed(d) for d from the stop, and keeps its rule |
| `Retention.StartGivesLabels` | internal/controller/handlers.go:88-104 | a start gives every service the rule and policy of its labels |
| `Retention.BuildGivesLabels` | internal/controller/desired.go:411-435 | so does a build for every entry it adds |
| `Retention.UnknownThenStopped` | internal/controller/handlers.go:168-198 | and so does a stop that has to rebuild the entries first |
| `Retention.HeldIsServed` | internal/controller/desired.go:274-291 | while a retained service is held, every build without its container has its route |
| `Retention.ImmediateIsDropped` | internal/controller/desired.go:274-291 | a route that only immediate entries have is in no later build |
| `Controller.RegisterAll` | internal/controller/handlers.go:31-48 | every service's rule under its key, the rest unchanged, each hostname once |
| `Controller.Controller.DeleteIngressByHostname` | internal/controller/desired.go:45-51 | every path of the hostname goes, nothing else |
| `Controller.Controller.RegisterContainerRules` | internal/controller/handlers.go:18-51 | validated against the rules the container already owns; all registered or nothing |
| `Controller.Controller.HandleContainerStart` | internal/controller/handlers.go:54-118 | entries are restored even when the start is ignored or fails; otherwise routes, entries, health and one trigger |
| `Controller.Controller.EntriesToStop` | internal/controller/handlers.go:168-221 | the container's entries, rebuilt from labels or recorded hostnames when none are known |
| `Controller.Controller.HandleContainerStop` | internal/controller/handlers.go:147-243 | the whole effect on entries, rules, bookkeeping, health and the worker, or none |
| `Controller.Controller.HandleHealthHealthy` | internal/controller/handlers.go:246-269 | routes come back; entries and flapping are untouched |
| `Controller.Controller.HandleHealthUnhealthy` | internal/controller/handlers.go:272-293 | every path of the recorded hostnames goes |
| `Controller.Controller.RunGarbageCollection` | internal/controller/gc.go:23-68 | expired entries and all paths of their hostnames go, recorded hostnames stay, and a sync is triggered exactly when an entry expired |
| `Controller.Controller.ExecuteDelete` | internal/controller/compensation.go:45-62 | a queued delete never changes the rules |
| `Controller.Controller.CleanupResources` | internal/controller/controller.go:173-188 | both rule maps are emptied and a sync follows |
| `Controller.Controller.Sync` | internal/controller/syncer.go:34-71 | rules and bookkeeping become those of a fresh build, whatever they were |
| `Reconcile.TripleOrder` | internal/controller/reconciler.go:136-144 | the triple comparison is a total order |
| `Reconcile.NormalizeDesiredRules` | internal/controller/reconciler.go:124-146 | every desired triple once, sorted |
| `Reconcile.NormalizeActualRules` | internal/controller/reconciler.go:151-173 | the live triples without catch-all rules, as often as listed, sorted |
| `Reconcile.RuleTriplesEqual` | internal/controller/reconciler.go:175-185 | decides equality of the lists |
| `Reconcile.SortedEqualIffSameBag` | internal/controller/reconciler.go:175-185 | sorted lists are equal exactly when they hold the same triples equally often |
| `Reconcile.SortedEqualIffSameSet` | internal/controller/reconciler.go:175-185 | without repetitions, exactly when the sets are equal |
| `Reconcile.NoDriftIff` | internal/controller/reconciler.go:86-91 | no drift is seen exactly when the live list has each desired route once and nothing else |
| `Reconcile.NoDriftAfterPush` | internal/controller/reconciler.go:86-91 | after a push of rules that come from labels an unchanged desired state shows no drift |
| `Reconcile.InStepAfterPush` | internal/controller/reconciler.go:86-91 | for any rules, exactly when no route has the service the diff ignores |
| `Reconcile.NoDriftAfterBuild` | internal/controller/reconciler.go:86-91 | and so for every build from any scan and any reachable state |
| `Reconcile.RestMeansNoDrift` | internal/controller/reconciler.go:75-91 | in every reachable rest of the worker after a success with nothing unannounced, reconciling rules from labels finds no drift |
| `Reconcile.RulesEqual` | internal/controller/reconciler.go:109-120 | equal exactly with the same keys and services; origin settings do not count |
| `Reconcile.SameRoutesIffSameTriples` | internal/controller/reconciler.go:109-146 | the in-memory and the live comparison see the same differences |
| `Reconcile.Reconcile` | internal/controller/reconciler.go:41-104 | the rules end with the desired keys and services, the recorded hostnames change with them or not at all; a sync is triggered exactly when the live configuration was read and differs |
| `Health.HealthTracker.UpdateContainerHealth` | internal/controller/health.go:69-116 | the record after a start or stop, other containers unchanged |
| `Health.CountBounded` | internal/controller/handlers.go:68-71 | over every run of guarded handlers the restart count stays within the threshold |
| `Health.BackOffNeverGrows` | internal/controller/health.go:81-95 | that holds exactly when the threshold is at least 2 and the cooling period is longer than the window |
| `Health.FirstCoolingDoubles` | internal/controller/health.go:81-95 | with a threshold of 1 the second quick start cools for two periods |
| `Health.CoolingIsOnePeriod` | internal/controller/health.go:85-95 | then every cooling lasts exactly one configured period |
| `Health.CoolingExact` | internal/controller/health.go:85-95 | below 2^43 ns the capped product is computed without wrapping |
| `Health.ClearedByTime` | internal/controller/health.go:111-114 | over every run mark and count are cleared by exactly the events, not ignored and not marking again, whose update is later than the end of the cooling in force |
| `Health.IgnoredByTime` | internal/controller/handlers.go:68-71 | an event is ignored exactly when it is checked before that end |
| `Health.MarkedIff` | internal/controller/health.go:81-104 | over every run a start marks its container exactly when it ends a chain of threshold counted starts, each gap within the window, with no clearing, by time, in between |
| `Health.MarkedLowThreshold` | internal/controller/health.go:81-104 | with a threshold of 1 or less, exactly when the previous counted start is within the window |
| `Health.SpacedStartsAreMarked` | internal/controller/health.go:81-95 | for every threshold from 2 on, threshold starts one window apart are marked, though no window holds more than two |
| `Health.DocumentedIff` | internal/controller/health.go:81-95 | over every run the documented rule, more than threshold restarts within the window, is followed exactly when the threshold is 1 |
| `Compensation.InvKept` | internal/state/manager.go:687-898 | every section keeps one live sync, counted runs and the cap |
| `Compensation.QueueBounded` | internal/state/manager.go:805-898 | from an empty queue, at most one live sync, at most max(1, MaxRetries) runs of any record, never above the cap |
| `Compensation.RulesNeverChange` | internal/controller/compensation.go:31-62 | no compensation run changes the rules |
| `Compensation.RecordsAlways` | internal/state/manager.go:687-735 | every run keeps record IDs and creation times as snapshot validation wants them |
| `Compensation.BackoffFits` | internal/state/manager.go:866-872 | every delay is min(initial · 2^k, max) exactly when the largest product fits in 64 bits |
| `Compensation.BackoffNondecreasing` | internal/state/manager.go:866-872 | then delays never shrink |
| `Compensation.RetrySpacing` | internal/state/manager.go:853-872 | over every run, after the k-th execution fails the next is not before min(initial · 2^k, max) later |
| `Compensation.FirstTry` | internal/state/manager.go:687-735 | the first execution is not before the initial delay, and never of a permanent error |
| `Compensation.AfterExecution` | internal/state/manager.go:828-863 | a record goes after a success, dies after a permanent error, and is else tried again exactly below MaxRetries executions |
| `Compensation.DefaultBackoff` | internal/state/manager.go:75-79 | the defaults are safe; 30 retries would not be |
| `StateManager.Manager.EnqueueAction` | internal/state/manager.go:687-735 | rejected at the cap, else recorded, dead if permanent |
| `StateManager.Manager.HasPendingSync` | internal/state/manager.go:758-768 | whether a live sync record is queued |
| `StateManager.Manager.SettleRecord` | internal/state/manager.go:828-879 | the record is removed, killed, or rescheduled |
| `StateManager.Manager.CleanDead` | internal/state/manager.go:883-891 | exactly the dead records go |
| `StateManager.Manager.CancelDeleteRoutes` | internal/state/manager.go:375-384 | exactly the container's queued deletes go |
| `StateManager.Manager.ProcessCompensationQueue` | internal/state/manager.go:805-898 | a pass, with any enqueues and cancellations while executors run, is a run of the step machine, executes every record that was live and due at its start and not cancelled, and leaves no dead record |
| `StateManager.Manager.OnError` | internal/controller/controller.go:138-142 | the error callback queues exactly one sync record unless one is live or the queue is full, dead if the error is permanent; afterwards one is live exactly in the other cases; as one or two steps of the machine |
| `SyncRetry.InvKept` | internal/controller/controller.go:138-142 | every step of worker and queue together keeps the joint invariant |
| `SyncRetry.FailureIsAnswered` | internal/controller/controller.go:138-142 | at every reachable rest after a failed cycle a live sync record is queued exactly unless the queue was full, an error permanent, the retries spent, or a succeeded retry took the record |
| `SyncRetry.FailureOvertaken` | internal/controller/compensation.go:33-42 | the last case is real: from every state in which a retry has just succeeded |
| `SyncRetry.RetrySucceeds` | internal/controller/compensation.go:33-42 | and such states are reached |
| `LabelTrie.PathRoundTrip` | internal/label/parser.go:44-73 | gluing a key's parts gives the key back |
| `LabelTrie.RefusedIff` | internal/label/parser.go:51-72 | a key is refused exactly when a segment is empty, starts with a bracket, or ends in one without opening it |
| `LabelTrie.DotConcat` | internal/label/parser.go:44-73 | a dot puts the names of two keys one after the other |
| `LabelTrie.PlainName` | internal/label/parser.go:70-72 | a segment that does not end in a bracket is one name |
| `LabelTrie.BracketSplits` | internal/label/parser.go:60-69 | the names of head.a[i].tail are those of head, then "a", then "[i]", then those of tail |
| `LabelTrie.BracketNodes` | internal/label/parser.go:60-100 | and the built tree has the value of such a key under exactly these names |
| `LabelTrie.BuildNodesCut` | internal/label/parser.go:60-100 | no node of a built tree whose name starts without a bracket has one and ends in one |
| `LabelTrie.SecondBracketStays` | internal/label/parser.go:60-69 | a name keeps a bracket within it exactly when its segment has two and ends in one |
| `LabelTrie.TwoIndices` | internal/label/parser.go:60-69 | as in "a[0][1]" |
| `LabelTrie.SamePathIffSameKey` | internal/label/parser.go:44-73 | two keys lead to the same node exactly when they are equal up to case |
| `LabelTrie.Find` | internal/label/parser.go:102-109 | the first child with the name up to case, or none |
| `LabelTrie.InsertWellFormed` | internal/label/parser.go:84-100 | sibling names stay non-empty and distinct up to case |
| `LabelTrie.ValueAfterInsert` | internal/label/parser.go:84-100 | an insertion is seen at its own path up to case and nowhere else |
| `LabelTrie.SortKeys` | internal/label/parser.go:111-129 | the matching keys in byte order |
| `LabelTrie.WalkGivesLast` | internal/label/parser.go:39-82 | walking along a key gives the value of the last key equal to it up to case |
| `LabelTrie.FaithfulIff` | internal/label/parser.go:39-82 | every key leads to its own value exactly when keys equal up to case agree |
| `LabelTrie.CaseOverwrites` | internal/label/parser.go:39-109 | two accepted labels that differ only in case and have different values do not both keep them |
| `LabelTrie.CaseOverwritesTraefik` | internal/label/traefik.go:225-254 | and there are such labels |
| `LabelTrie.FlattenGivesLabels` | internal/label/parser.go:39-100 | flattening gives back exactly the non-empty labels, up to case |
| `LabelTrie.ValidTraefikLabelKey` | internal/label/traefik.go:287-311 | the filter accepts exactly the keys the tree accepts whose segments have no lone closing bracket |
| `LabelNodes.TreeNode.FindChild` | internal/label/parser.go:102-109 | the loop over linked children finds the specified one |
| `LabelNodes.TreeNode.Decode` | internal/label/parser.go:84-100 | the in-place recursive insertion refines the insertion on values and keeps the nodes a tree |
| `LabelNodes.BuildAll` | internal/label/parser.go:42-79 | the loop over the keys builds the specified tree or stops at a refused key |
| `LabelNodes.DecodeToNode` | internal/label/parser.go:39-82 | fails exactly when a selected key is refused |
| `LabelNodes.DecodeTraefikLabels` | internal/label/traefik.go:225-254 | the filtered labels always decode, so a bad label never costs the others |
| `ZoneCache.ZoneLookupCandidates` | internal/cloudflareManager/tunnel.go:639-651 | the split and join loop lists the dotted suffixes, longest first |
| `ZoneCache.CandidateIff` | internal/cloudflareManager/tunnel.go:635-651 | a candidate is exactly a label suffix of two or more labels |
| `ZoneCache.LongestFirst` | internal/cloudflareManager/tunnel.go:645-651 | the candidates get strictly shorter |
| `ZoneCache.CanonicalSpelling` | internal/cloudflareManager/tunnel.go:640-641 | space around a hostname, its case and one final dot do not matter |
| `ZoneCache.ZoneResolver.GetZoneIDForHostname` | internal/cloudflareManager/tunnel.go:570-633 | the two loops compute the specified lookup and cache |
| `ZoneCache.RunSound` | internal/cloudflareManager/tunnel.go:613-626 | over every run all cached IDs are right |
| `ZoneCache.AnswersAgree` | internal/cloudflareManager/tunnel.go:570-633 | for suffix-free zones an answer is never wrong, whatever expired or failed, and is the uncached one when no call fails |
| `ZoneCache.AskedIff` | internal/cloudflareManager/tunnel.go:576-610 | over every run with changing zones the remote is asked exactly when it told of no candidate within ten minutes, and gives the most specific zone |
| `ZoneCache.AnswerOverTime` | internal/cloudflareManager/tunnel.go:570-633 | the cache answers exactly when it did, with what the remote said then of the most specific such candidate |
| `ZoneCache.NeverStale` | internal/cloudflareManager/tunnel.go:613-626 | so an expired entry never answers |
| `ZoneCache.NamelessHasNoZone` | internal/cloudflareManager/tunnel.go:639-651 | the empty name never has a zone, whatever is cached |
| `ZoneCache.ParentShadows` | internal/cloudflareManager/tunnel.go:576-587 | a cached parent zone answers for its subzone |
| `ZoneCache.TransparentIff` | internal/cloudflareManager/tunnel.go:570-633 | the cache is transparent over every run exactly for suffix-free zone sets |
| `Persistence.ValidateSnapshot` | internal/state/persistence.go:344-384 | no error is collected exactly when the snapshot is valid |
| `Persistence.Rekey` | internal/state/manager.go:512-529 | version 1 entries end under their compound keys, none invented, none without a key |
| `Persistence.LoadFromSnapshot` | internal/state/manager.go:500-568 | the state a snapshot loads to, version by version |
| `Persistence.RoundTrip` | internal/state/manager.go:448-568 | saving and loading gives the state back exactly when migration has nothing to do |
| `Persistence.ReachableStatesSurvive` | internal/state/manager.go:448-568 | every state reached from the empty one by handlers, collections, rebuilds and restarts, and by queue sections, loads back unchanged, and is accepted exactly when its time is set and at most five minutes ahead |
| `Persistence.BareKeysAreRefused` | internal/state/persistence.go:351-358 | a version 1 file with a bare key never loads while validation is on |
| `Persistence.RekeyMeans` | internal/state/manager.go:512-529 | a re-keyed entry changes only in a missing service name, which becomes "default" |
| `Persistence.MigrationIsIdleIff` | internal/state/manager.go:512-529 | in one that passes validation the migration changes the entries exactly when a service name is missing |
| `Persistence.LoadedStatuses` | internal/state/manager.go:536-543 | migrated statuses agree with the policies |
| `Persistence.LoadGob` | internal/state/persistence.go:172-216 | a file is used exactly when complete, not too new and valid |
| `Persistence.Load` | internal/state/persistence.go:102-169 | state file, then backups newest first, then JSON; nothing without a state file |
| `Persistence.LoadOrder` | internal/state/persistence.go:102-169 | the state file, or else the newest usable backup, or else, only when no backup is usable, the JSON file |
| `Persistence.PruneBackups` | internal/state/persistence.go:420-441 | a backup stays exactly when fewer than count are newer or it could not be removed; at no point is the newest missing |
| `Persistence.RotateBackups` | internal/state/persistence.go:389-417 | the state file becomes the newest backup and the backups are pruned, or nothing changes |
| `Persistence.WriteState` | internal/state/persistence.go:51-87 | until the final rename only the temporary file changes; it succeeds exactly without a fault |
| `Persistence.Save` | internal/state/persistence.go:35-98 | at every crash point the file is old, new or missing; missing exactly from a successful rotation, if there is one, to the final rename, and meanwhile its content is the newest backup; without a fault it ends with the new file and exactly the newest backups |
| `Persistence.EmptyWindow` | internal/state/persistence.go:389-417 | right after the rotation a usable state loads as empty while it is the newest backup |
| `Persistence.CrashLoads` | internal/state/persistence.go:102-140 | loading after a crash gives the old state, the new one or the empty one, empty exactly where the file is missing |

## Left out

- Cloudflare SDK calls, rate limiting, `callWithRetry` and tunnel creation: a remote call is one step that succeeds, fails without effect, or fails after taking effect.
- Docker client, event stream and dispatcher: a scan is any list of containers with distinct IDs, and events may be missing.
- Label values: what a container's labels parse to is an input with the guarantees of `FromLabels`; whether the validator accepts a service URL and what retention-policy strings mean are inputs; Traefik rules and origin settings are opaque. Persisted rules that no label produced (a hand-edited state file) are outside `Controller.Valid`.
- Unicode: case folding and trimming are ASCII; hostnames hold no NUL and container IDs no colon.
- Zone records: one CNAME per name, stored and listed in lower case without a final dot; the remote's name query finds it in any spelling and refuses a name that ends in two dots. Two records of one name are not modelled.
- Clock: one reading per handler, except that the flapping check and update may read different times; backup stamps never go back.
- Goroutine races between the reconcile ticker and the dispatch loop on the entry maps: the code does not keep the two maps disjoint there; handlers are modelled one at a time.
- Tunnel entries are values in the manager's maps, so shared references to one entry are visible only in `SnapshotCopy`.
- StateManager.Manager.ProcessCompensationQueue: MaxRetries is the configured one throughout, and records added during a pass wait for the next one.
- Compensation.QueueBounded: counts one process; a restart reloads the queue of the last save, and executions since are counted again.
- Publish.RestIsPublished: assumes that the remote does what it reports and refuses names that end in two dots.
- Controller.Controller.CleanupResources: the flush that follows is a trigger; its wait and its error are in the worker's model, not in this contract.
- SyncWorker.EveryScheduleSettles: bounds the number of steps, not time; the debounce delay has no length, and a timer that is reset for ever is a run with steps of others.
- Encoding, fsync, file modes and directories: a file is complete or torn, and a rename is atomic.
- Configuration, metrics, diagnostics, logging, the instance lock and `main`: no property of their own.
