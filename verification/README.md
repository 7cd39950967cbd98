# Verified model of capi-k8s-release's controllers and registry-buddy

This project models the stateful parts of capi-k8s-release and proves what they guarantee:

- the **periodic route sync** of cf-api-controllers, which makes Kubernetes Routes agree with the CF API, one
  create, update or delete at a time, carrying on past failures;
- the **streaming zip-to-tar generator** of registry-buddy, a producer goroutine and a reader joined by a
  synchronous pipe, with a Close that waits for the producer;
- the **generic image deleter** of registry-buddy, alone and under retries;
- the **stack rebase** of the Image controller, over any run of requeues;
- the **build** controller's event filter together with its reconcile;
- the **org/space/app tree** of the backup metadata generator.

`dafny verify dfyconfig.toml` checks the whole project.

## How it is organised

| file | contents |
|---|---|
| `Common.dfy` | options, results, Go's fixed-width integers, iteration orders of Go maps |
| `RouteTranslator.dfy` | CF routes, Kubernetes Routes, and the translation with its shared loop variable |
| `Cluster.dfy` | the API server: stores, calls, and the faults a call can meet |
| `PeriodicSyncController.dfy` | `Pass`, the specification of one reconcile, and the imperative `Reconcile` proved against it |
| `RouteDrift.dfy` | the drift, the plan of writes made from it, and running that plan under faults |
| `PeriodicSyncTheorems.dfy`, `PeriodicSyncOrder.dfy` | convergence, frame, honest results, idempotence, order independence, page bound |
| `TarPipe.dfy` | GenerateTarWithWriter as a step machine, its invariant, and the safety of the pipe |
| `CloseProtocol.dfy` | when the reader's Close returns, and what holds after it |
| `ZipToTar.dfy` | WriteZipToTar and its header handling |
| `ImageDeleter.dfy` | one deletion, and sequences of retries against a registry |
| `KpackStatus.dfy`, `ImageRebase.dfy`, `BuildReconciler.dfy` | the two kpack controllers |
| `BackupMetadata.dfy` | the two-map join, its nested-filter specification, and conservation |

Where the Go code changes state step by step, a class or a loop does so here, and its method is proved against a
specification function; the properties are lemmas about that function. The outside world enters as parameters:

- every call to the Kubernetes API has a fault: it can go through, fail before or after taking effect, or be
  delivered twice (the reply being the second one's);
- the iteration order of a Go map is any sequence that lists its keys once; `Reconcile` returns the orders it used
  as ghost results, and the theorems hold for all orders;
- the theorems about passes hold for every index of desired routes that is named by GUID and carries the managed-by
  label; `DesiredIsProper` shows that the translation of a CF list is one;
- the generator and the tar writer are strategies from the results of their pipe writes so far to their next action;
- a registry has a policy for deletes by tag (untag only, remove the manifest too, or answer UNSUPPORTED).

## What the proofs show about the code

Some of what one would like to be true is not, and is stated with its exact condition:

- A translated route keeps every destination's own port if and only if all its destinations use the same port; the
  Go loop stores the address of its range variable, so all ports read as the last one
  (`SharedPortIsPointwiseIff`, `TwoPortsCollapse`).
- A reader's clean EOF means that the generator returned nil or returned io.EOF itself (`CleanEnd`,
  `EofErrorIsMasked`). The comment at `archive.go:56-57` promises that generator errors reach the reader; io.EOF is
  the exception. It does not mean that the tar was closed without error: only Close tells (`TruncationNeedsClose`,
  `CompleteArchive`).
- Close is sure to return if and only if what is left to run of the generator and of the tar writer's Close, with
  every further write refused, returns (`CloseReturnsIff`, for all strategies and all states the invariant allows, hence
  all reachable ones). Not panicking is not enough: a generator that goes on writing whatever it is told keeps Close
  waiting for ever (`EndlessGeneratorStrands`). Not having panicked yet is not enough either: one that panics only
  when Close makes its write fail does the same (`LatePanicStrands`). A generator that does not panic
  and stops after finitely many failed writes is always enough (`StoppingFinishes`). The code never sends on the
  error channel after a panic (`archive.go:64-69`), so a panic blocks Close (`PanicBlocksClose`).
- A tag deletion that succeeds after retries leaves the manifest behind if and only if the registry untags on a
  delete by tag, and the first attempt to get that delete applied either lost its reply or lost the digest delete
  before it took effect; the next lookup then answers 404, which counts as success (`RetriesByTag`, `LeakExample`).
- A fault-free sync pass succeeds if and only if no CF GUID is the name of a route that lacks the managed-by label
  (`CleanPassSucceedsIff`); such a GUID is never synced (`RunFrame`).
- The managed routes are all CF routes if and only if CF has at most 5000 (`PageBound`), the bound that ADR 0004
  mentions.
- A kpack build that goes back to Unknown between its event and its reconcile is reported FAILED
  (`UnknownIsReportedFailed`).
- A rebase that reports success has moved the droplet if and only if the app has exactly one StatefulSet and that
  has an `opi` container (`SuccessMovesDropletIff`). With no set, or with one set without such a container, it
  reports success and leaves the droplet on the old image (`NoTargetMissesTheRebase`, `SilentRebases`).

## Model

| member | source | states |
|---|---|---|
| RouteTranslator.TranslateRoute | src/cf-api-controllers/cf/kubernetes/route_translator.go:24-78 | the append loop, with every port a pointer to the one range variable, reads as a route with each field and label from its own source, each destination's own fields, and the last destination's port throughout (`Represents`) |
| RouteTranslator.SharedPortIsPointwiseIff | src/cf-api-controllers/cf/kubernetes/route_translator.go:27-31 | the translation equals the pointwise one exactly when all destination ports are equal |
| RouteTranslator.TwoPortsCollapse | src/cf-api-controllers/cf/kubernetes/route_translator.go:27-31 | a route with ports 8080 and 9090 whose first destination reads 9090 |
| PeriodicSyncController.BuildIndex | src/cf-api-controllers/controllers/periodic_sync_controller.go:92-105 | the index loops compute the by-GUID index |
| PeriodicSyncController.IndexKeepsLast | src/cf-api-controllers/controllers/periodic_sync_controller.go:92-105 | the index holds the last element of each GUID |
| PeriodicSyncController.PeriodicSyncReconciler.IndexListed | src/cf-api-controllers/controllers/periodic_sync_controller.go:107-110 | the index of the listed items is exactly the managed routes of the namespace |
| PeriodicSyncController.PeriodicSyncReconciler.UpdateOne | src/cf-api-controllers/controllers/periodic_sync_controller.go:117-135 | one update is sent exactly when the specs differ, keeping everything but the spec, and the success flag follows the reply |
| PeriodicSyncController.PeriodicSyncReconciler.UpdateExisting | src/cf-api-controllers/controllers/periodic_sync_controller.go:114-140 | for some iteration order, the updates run and the missing routes collected are the specified ones |
| PeriodicSyncController.PeriodicSyncReconciler.CreateMissing | src/cf-api-controllers/controllers/periodic_sync_controller.go:142-158 | each missing route's translation is created, in order, past failures |
| PeriodicSyncController.PeriodicSyncReconciler.CollectExtra | src/cf-api-controllers/controllers/periodic_sync_controller.go:160-166 | the extra names are the listed ones without a CF route, in iteration order |
| PeriodicSyncController.PeriodicSyncReconciler.DeleteExtra | src/cf-api-controllers/controllers/periodic_sync_controller.go:168-185 | each extra name is deleted, and the flag stays up exactly when every delete is accepted or answered NotFound |
| PeriodicSyncController.ClosedWhenIncluded | src/cf-api-controllers/controllers/periodic_sync_controller.go:117-148 | the precondition of a pass holds when every listed route finds its space and its domain among the included ones |
| PeriodicSyncController.DesiredMeaning | src/cf-api-controllers/controllers/periodic_sync_controller.go:92-123 | what is desired under a GUID is the last route listed with it, translated with the last space and domain that its relationships name |
| PeriodicSyncController.PlanIsPhased | src/cf-api-controllers/controllers/periodic_sync_controller.go:112-185 | all updates come before all creates and those before all deletes |
| Cluster.ManagedMeaning | src/cf-api-controllers/controllers/periodic_sync_controller.go:78-87 | the listed routes are those of the namespace whose managed-by label says cloudfoundry |
| PeriodicSyncController.PeriodicSyncReconciler.UpdateSyncStatusFailure | src/cf-api-controllers/controllers/periodic_sync_controller.go:209-217 | the status write is attempted with Synced=False and its own error is dropped |
| PeriodicSyncController.PeriodicSyncReconciler.Reconcile | src/cf-api-controllers/controllers/periodic_sync_controller.go:57-197 | the imperative reconcile performs `Pass` on the translation of the listed routes, for the iteration orders it used: stores, history of calls, status writes and result |
| RouteDrift.DesiredIsProper | src/cf-api-controllers/cf/kubernetes/route_translator.go:47-63 | the translation of any list has one route per CF GUID, named after it, in the namespace, with the managed-by label the next List selects |
| RouteDrift.PlanCovers | src/cf-api-controllers/controllers/periodic_sync_controller.go:112-185 | whatever the orders, the planned writes are exactly the one write each drifting GUID needs, each once |
| RouteDrift.NoDriftMeaning | src/cf-api-controllers/controllers/periodic_sync_controller.go:112-191 | no drift means: managed names equal the CF GUIDs and each spec equals its translation |
| RouteDrift.SlotAfter | src/cf-api-controllers/controllers/periodic_sync_controller.go:112-185 | in a pass each call meets its object as it was at the start of the pass and no later call touches it |
| PeriodicSyncTheorems.EveryWriteAttempted | src/cf-api-controllers/controllers/periodic_sync_controller.go:112-185 | every planned write is attempted once, in order, whatever happens to the others |
| PeriodicSyncTheorems.PassDrift | src/cf-api-controllers/controllers/periodic_sync_controller.go:112-191 | under any faults a pass removes from the drift exactly the GUIDs whose write took effect, so it never grows and drops by one per effective GUID |
| PeriodicSyncTheorems.Convergence | src/cf-api-controllers/controllers/periodic_sync_controller.go:112-191 | over any run of passes with any faults: the drift is the initial one less the GUIDs with an effective write; in sync exactly when every initially drifting GUID has had one |
| PeriodicSyncTheorems.RunExtends | src/cf-api-controllers/controllers/periodic_sync_controller.go:57-197 | every run can be extended by a pass for any request and any answers of the world, so runs of every length exist |
| PeriodicSyncTheorems.PassFrame | src/cf-api-controllers/controllers/periodic_sync_controller.go:78-185 | routes of other namespaces or without the managed-by label are unchanged; an update changes the spec only |
| PeriodicSyncTheorems.RunFrame | src/cf-api-controllers/controllers/periodic_sync_controller.go:78-185 | the same over any run, and a CF GUID that is a foreign route's name stays unsynced |
| PeriodicSyncTheorems.NoErrorIff | src/cf-api-controllers/controllers/periodic_sync_controller.go:61-196 | a pass returns no error exactly when the PeriodicSync is gone, or the reads and the status write succeeded and every recorded call was accepted or was a delete answered NotFound |
| PeriodicSyncTheorems.FailedReadIsReported | src/cf-api-controllers/controllers/periodic_sync_controller.go:61-90 | a failed read touches no route, is returned, and is written to the status as Synced=False |
| PeriodicSyncTheorems.HonestSuccess | src/cf-api-controllers/controllers/periodic_sync_controller.go:187-196 | a pass without error leaves the managed routes exactly what CF asks for, even if calls were delivered twice |
| PeriodicSyncTheorems.SuccessIsRecorded | src/cf-api-controllers/controllers/periodic_sync_controller.go:193-229 | it stores Synced=True and requeues after PeriodSeconds times 10^9 ns, within int64 for every int32 |
| PeriodicSyncTheorems.HonestFailure | src/cf-api-controllers/controllers/periodic_sync_controller.go:187-191 | a recorded call that is neither accepted nor a delete of something gone makes the result the route failure and the one status write Synced=False |
| PeriodicSyncTheorems.CleanPassSucceedsIff | src/cf-api-controllers/controllers/periodic_sync_controller.go:112-197 | without faults a pass succeeds exactly when no CF GUID names a foreign route |
| PeriodicSyncTheorems.NothingToDoIff | src/cf-api-controllers/controllers/periodic_sync_controller.go:114-185 | a pass plans no write exactly when nothing drifts |
| PeriodicSyncTheorems.Idempotence | src/cf-api-controllers/controllers/periodic_sync_controller.go:78-130 | after a pass without failures a second pass over the same list makes no route call |
| PeriodicSyncOrder.OrderIndependence | src/cf-api-controllers/controllers/periodic_sync_controller.go:114-185 | when outcomes depend only on the call, stores, status and result are the same for all iteration orders of both maps |
| PeriodicSyncOrder.PageBound | src/cf-api-controllers/cf/client.go:47-131 | a successful pass manages exactly the first page of 5000: all CF routes if and only if there are at most 5000, and none beyond the page |
| TarPipe.RunKeepsInv | src/registry-buddy/archive/archive.go:58-101 | the invariant on bytes, reads, producer and Close holds over every interleaving |
| TarPipe.CleanEnd | src/registry-buddy/archive/archive.go:62-77 | a read ended by the producer, with io.ErrClosedPipe too while the reader is open: all bytes written were read in order, the tar writer's Close has returned, and the end is EOF exactly when the generator returned nil or io.EOF |
| TarPipe.WritesSucceedWhileOpen | src/registry-buddy/archive/archive.go:71-74 | until Close is called no write of the generator or the tar writer fails |
| TarPipe.WritesAreCounted | src/registry-buddy/archive/archive.go:60-63 | a write without error went through in full, a failed one counts what went through, and the counts add up to the bytes read |
| TarPipe.ErrorReachesReader | src/registry-buddy/archive/archive.go:55-77 | once the producer has closed the pipe, a read returns the generator's error, the panic, or EOF for nil |
| TarPipe.CloseReportsTarWriter | src/registry-buddy/archive/archive.go:71-101 | the first Close returns exactly the tar writer's close error, later ones "already closed" |
| TarPipe.CompleteArchive | src/registry-buddy/archive/archive.go:71-101 | a clean EOF and a nil Close together: closed without error and read in full |
| TarPipe.EofErrorIsMasked | src/registry-buddy/archive/archive.go:71-74 | a run where the generator fails with io.EOF and the reader sees a clean end |
| TarPipe.TruncationNeedsClose | src/registry-buddy/archive/archive.go:71-76 | a run where the tar writer fails to close and the reader sees a clean end |
| CloseProtocol.CloseStuckIff | src/registry-buddy/archive/archive.go:64-100 | while Close waits, nothing but reads of the closed pipe can move exactly when the generator has panicked |
| CloseProtocol.CloseProgress | src/registry-buddy/archive/archive.go:79-100 | while Close waits under the condition, every step but the start of a read takes one off the bound, panics on other histories allowed |
| CloseProtocol.CloseReturnsIff | src/registry-buddy/archive/archive.go:58-100 | for all strategies and every waiting Close: its return stays within reach whatever happens, and comes within a bounded number of steps, exactly when generator and tar writer return once every further write is refused; otherwise some run loses it for good |
| CloseProtocol.StoppingFinishes | src/registry-buddy/archive/archive.go:79-100 | strategies that stop after finitely many failed writes, the generator not panicking from here on, meet that condition |
| CloseProtocol.EndlessGeneratorStrands | src/registry-buddy/archive/archive.go:71-95 | a reachable waiting Close that fails it though the generator panics on no history |
| CloseProtocol.LatePanicStrands | src/registry-buddy/archive/archive.go:64-95 | a reachable waiting Close that fails it before any panic, and the reachable panicked state it leads to |
| CloseProtocol.AfterClose | src/registry-buddy/archive/archive.go:81-99 | after Close the producer has finished, and over every continuation nothing is written or received, every read finds the pipe closed, and every further Close errs at once |
| CloseProtocol.PanicBlocksClose | src/registry-buddy/archive/archive.go:64-69 | after a generator panic no continuation lets Close return |
| ZipToTar.WriteZipToTar | src/registry-buddy/archive/archive.go:119-196 | on success the output archives exactly the files the filter accepts, in order, with every header field and body from its file (`Archives`); on error, that of a prefix and at most part of the next, caused by a faulty file or tar writer |
| ZipToTar.AcceptingFilterKeepsAll | src/registry-buddy/archive/archive.go:128-130 | a filter that accepts every name keeps every file |
| ZipToTar.WriteEntry | src/registry-buddy/archive/archive.go:132-192 | one file: its whole image, or an error with at most part of it; with a working tar writer exactly the unreadable and unsupported files fail, not an unopenable symlink |
| ZipToTar.Header.Finalize | src/registry-buddy/archive/archive.go:209-216 | owner given, names cleared, mode given or kept, time normalized or kept |
| ZipToTar.Header.Normalize | src/registry-buddy/archive/archive.go:226-234 | owner and names cleared, time normalized on request, the rest kept |
| ZipToTar.TimestampsDoNotMatter | src/registry-buddy/archive/archive.go:226-229 | with normalization, zips differing only in timestamps have equal images and equal faults |
| ImageDeleter.DeleteImage | src/registry-buddy/image/generic_deleter.go:18-59 | the imperative call performs the specified attempt: registry, result and the deletes sent |
| ImageDeleter.AttemptDeleteByTag | src/registry-buddy/image/generic_deleter.go:63-78 | a tag delete's error is dropped exactly when it is 404 or carries UNSUPPORTED |
| ImageDeleter.ErrorUnsupported | src/registry-buddy/image/generic_deleter.go:80-88 | the scan finds UNSUPPORTED exactly when some diagnostic has that code |
| ImageDeleter.SingleCall | src/registry-buddy/image/generic_deleter.go:18-78 | whatever is answered: tag before digest, digest only after a tag delete accepted, 404 or UNSUPPORTED, success exactly when the digest delete was sent and accepted or 404, else the refusal wrapped |
| ImageDeleter.FailedLookup | src/registry-buddy/image/generic_deleter.go:20-29 | a lookup that fails with 404 is success, any other failure is returned, and nothing is sent |
| ImageDeleter.CleanAttemptSucceeds | src/registry-buddy/image/generic_deleter.go:18-59 | without faults every deletion succeeds, of what is present or not, and leaves it gone |
| ImageDeleter.SuccessIsFinal | src/registry-buddy/image/generic_deleter.go:20-25 | after a success every later attempt changes and sends nothing, and succeeds if its lookup gets through |
| ImageDeleter.SuccessIsFinalForever | src/registry-buddy/image/generic_deleter.go:20-25 | the same for any number of later attempts |
| ImageDeleter.RetriesByTag | src/registry-buddy/image/generic_deleter.go:20-58 | after retries ending in success the manifest remains exactly when the registry untags and the first attempt to get its tag delete applied lost that reply, or lost the digest delete without effect |
| ImageDeleter.RetriesByDigest | src/registry-buddy/image/generic_deleter.go:20-58 | for digest references success always means the manifest is gone |
| ImageDeleter.OrphanedIsFinal | src/registry-buddy/image/generic_deleter.go:20-25 | corollary: once the tag is gone and the manifest is not, later attempts succeed without sending a delete |
| ImageDeleter.LeakExample | src/registry-buddy/image/generic_deleter.go:20-58 | two attempts, the second successful, that leave the manifest |
| ImageDeleter.RetriesFrame | src/registry-buddy/image/generic_deleter.go:18-59 | retries touch nothing but the tag and the manifest it names |
| ImageRebase.ImageReconciler.Reconcile | src/cf-api-controllers/controllers/image_controller.go:58-97 | the imperative reconcile performs the specified one |
| ImageRebase.ImageReconciler.HandleRebasedSet | src/cf-api-controllers/controllers/image_controller.go:97-119 | the loop that changes containers in place performs the specified sequence of updates and patches |
| ImageRebase.RebaseSucceeds | src/cf-api-controllers/controllers/image_controller.go:99-119 | without error every opi container and the droplet have the image, and the other containers are as before |
| ImageRebase.RebaseFrame | src/cf-api-controllers/controllers/image_controller.go:99-119 | under any faults other StatefulSets and other droplets stay as they were |
| ImageRebase.RebaseWrites | src/cf-api-controllers/controllers/image_controller.go:100-118 | under any faults each StatefulSet write changes opi images only, and each droplet patch directly follows a write of the same image to an opi container |
| ImageRebase.NoLostUpdate | src/cf-api-controllers/controllers/image_controller.go:104-110 | a write that lands replaces exactly the set that was read; a racing writer's set stays |
| ImageRebase.ConsistentUnlessFailed | src/cf-api-controllers/controllers/image_controller.go:69-119 | over every run of reconciles and rebuilds of an app with one set of one opi container: consistent, or the last reconcile failed |
| ImageRebase.SuccessMovesDropletIff | src/cf-api-controllers/controllers/image_controller.go:69-119 | a reconcile of a rebased image that reports success patched the droplet exactly when the app had one set with an opi container; then opi and droplet have the image, otherwise nothing changed |
| ImageRebase.NoTargetMissesTheRebase | src/cf-api-controllers/controllers/image_controller.go:85-119 | with no set, or one without an opi container, success is always reported and nothing changes; a requeue is asked for exactly with several sets |
| ImageRebase.SilentRebases | src/cf-api-controllers/controllers/image_controller.go:85-119 | a concrete world of each kind, left with the old image in the droplet |
| ImageRebase.DroppedEventsAreIdle | src/cf-api-controllers/controllers/image_controller.go:69-153 | an event the filter drops for a CF image would have been reconciled without a write |
| ImageRebase.FilterPassesIff | src/cf-api-controllers/controllers/image_controller.go:142-153 | the filter passes CF images whose first Ready condition is there and not Unknown |
| ImageRebase.OtherImagesAreLeftAlone | src/cf-api-controllers/controllers/image_controller.go:69-74 | an image not Ready, or built for another reason than STACK, is left alone without error |
| ImageRebase.StackRebaseMoves | src/cf-api-controllers/controllers/image_controller.go:69-119 | a Ready image with reason STACK and one set with opi containers: on success droplet and opi have the latest image, other containers unchanged |
| ImageRebase.CleanStackRebaseSucceeds | src/cf-api-controllers/controllers/image_controller.go:69-119 | without faults, and with at most one opi container, it does succeed |
| ImageRebase.ReadErrorsAreReturned | src/cf-api-controllers/controllers/image_controller.go:60-84 | a failed read is returned and nothing is written |
| BuildReconciler.Reconcile | src/cf-api-controllers/controllers/build_controller.go:66-107 | a fetched build gets exactly one update, the owed one; a nil dereference exactly when the Succeeded condition is missing, which the filter excludes |
| BuildReconciler.ReconcileSuccessfulBuild | src/cf-api-controllers/controllers/build_controller.go:187-213 | STAGED with image and process map if the metadata decodes, else FAILED, and a requeue exactly on an update error |
| BuildReconciler.CollectProcessTypes | src/cf-api-controllers/controllers/build_controller.go:175-185 | the map has the last entry per process type with its joined command, and no other type |
| BuildReconciler.LastPerTypeIsUnique | src/cf-api-controllers/controllers/build_controller.go:175-179 | that describes one map only |
| BuildReconciler.FullCommandGrows | src/cf-api-controllers/controllers/build_controller.go:182-185 | the joined command is the command followed by each argument after one space |
| BuildReconciler.FindsFirstFailed | src/cf-api-controllers/controllers/build_controller.go:230-238 | the first step that terminated with a non-zero code is found, and none exactly when there is none |
| BuildReconciler.StagedIff | src/cf-api-controllers/controllers/build_controller.go:86-106 | corollary of the owed update: STAGED exactly when the condition is True and the metadata decodes, FAILED otherwise |
| BuildReconciler.OwedIsUnique | src/cf-api-controllers/controllers/build_controller.go:86-106 | a build, its condition and its metadata determine the update, so a requeued reconcile repeats it |
| BuildReconciler.FilterPassesIff | src/cf-api-controllers/controllers/build_controller.go:131-162 | the filter passes CF builds with a reason other than STACK whose first Succeeded condition is there and not Unknown |
| BuildReconciler.OwedMeaning | src/cf-api-controllers/controllers/build_controller.go:86-228 | the update field by field and message by message, over the condition, the metadata and the step states |
| BuildReconciler.FilteredUpdate | src/cf-api-controllers/controllers/build_controller.go:86-161 | for a build that passes the filter: STAGED with its image, or FAILED blaming the first step with a non-zero exit code, or the first Succeeded condition if there is none |
| BuildReconciler.UnknownIsReportedFailed | src/cf-api-controllers/controllers/build_controller.go:86-106 | corollary: a build back in Unknown fails the filter and is still reported FAILED |
| BackupMetadata.GetAllOrgsSummary | src/backup-metadata-generator/internal/cfmetadata/metadata.go:73-89 | for all inputs the two-map join lists each org, under it exactly the spaces with its GUID and under those exactly the apps with theirs, by name and in input order (`ListsOrgs`) |
| BackupMetadata.TreeMeaning | src/backup-metadata-generator/internal/cfmetadata/metadata.go:73-113 | the same of the nested-filter specification |
| BackupMetadata.BuildAppMap | src/backup-metadata-generator/internal/cfmetadata/metadata.go:91-100 | every key reads as the filter of the apps with that space GUID |
| BackupMetadata.BuildSpacesMap | src/backup-metadata-generator/internal/cfmetadata/metadata.go:102-113 | every key reads as the filter of the spaces with that org GUID |
| BackupMetadata.Execute | src/backup-metadata-generator/internal/cfmetadata/metadata.go:55-71 | tree and totals, each total the length of its own listing, failed listings read as empty |
| BackupMetadata.Conservation | src/backup-metadata-generator/internal/cfmetadata/metadata.go:73-113 | for all inputs each space is counted once per org with its GUID, each app once per pair of matching space and org |
| BackupMetadata.WithinTotals | src/backup-metadata-generator/internal/cfmetadata/metadata.go:55-113 | with distinct GUIDs the counts never exceed the totals, and when each equals its total |
| BackupMetadata.NothingLostIff | src/backup-metadata-generator/internal/cfmetadata/metadata.go:55-113 | both counts equal the totals exactly when no space's org and no app's space is missing |

## Left out

- PeriodicSyncController.PeriodicSyncReconciler.Reconcile: requires that the space and domain of every route CF lists are among the included ones; otherwise the Go code dereferences nil and the process ends, after as many writes as the iteration order had allowed, which is not modelled.
- ImageRebase.ConsistentUnlessFailed: other writers may race with an update, but between reconciles they do not change the set or the droplet, because then no controller could keep the two equal.
- ImageDeleter.RetriesByTag: transport failures do not pose as the registry's 404 or UNSUPPORTED, and nobody else writes to the registry between attempts.
- CloseProtocol.CloseReturnsIff: is for one caller of Close at a time and a tar writer whose own Close does not panic; the Go flag that detects a second Close is not synchronised.
- Stale informer caches and resource versions of Route objects: List is taken to return the current store. The rebase model does have resource versions.
- The label-selector conversion error at periodic_sync_controller.go:78-85: the selector is a constant, so it cannot occur.
- LastTransitionTime, logging, object metadata other than labels and annotations.
- HTTP and UAA clients, JSON coding, config loading, request handlers, health checks and main functions: I/O plumbing.
- DockerhubDeleter and DynamicDeleter: straight-line dispatch.
- Compare, compare and toStr of the metadata package: JSON and gojsondiff. A nil slice and an empty one are the same here, although they encode differently.
- archive/tar, archive/zip, filepath.Join and io.Pipe are not verified: the pipe and the writers have small specifications, joining is a parameter.
- TarBuilder and EnvironToMap: they would only add easy members.
- Parsing the digest reference (generic_deleter.go:31-36): a digest from the registry is taken to be well formed.
