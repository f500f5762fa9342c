# A verified model of juicemount's ownership, recovery and cache protocols

juicemount serves a JuiceFS volume over a local NFS mount. The serving engine
may crash and be replaced at any time, so the FUSE manager and the Link network
node live in a separate *volume owner* process. This project models the parts
of that design whose correctness depends on every interleaving, every crash
and every late message, and proves what the design promises about them:

* **The volume owner** (`Owner`, `OwnerRun`, `OwnerInvariant`, `OwnerTheorems`,
  `OwnerObject`, `OwnerClient`): an operation table keyed by original IDs, stop
  and terminal fences, work counters, and the client that must never submit an
  operation twice. Every goroutine advances one locked section or one outside
  call at a time; outside results are inputs of the events.
* **Policy attachment** (`Policy`, `Facade`, `FacadeInvariant`, `FacadeObject`,
  `PolicyRefinement`): the compare-and-swap lanes between owner and engines over
  a network that loses replies and delivers requests late, repeatedly or never,
  and what that gives for the whole owner system above running together with its
  facades.
* **Succession** (`Succession`, `SuccessionInvariant`): intent file, retirement
  records and lifetime lock across any number of engine and owner crashes. Each
  owner process carries the whole owner system above.
* **Desired serving state** (`Desired`, `DesiredRun`, `DesiredObject`,
  `DesiredWitness`): the revisioned record that Start, Stop, NFS completion,
  delayed HTTP stops and crash recovery race on, across crashes and engines of
  other builds.
* **Interrupted shutdown** (`ShutdownScan`): finding the original Stop in an
  owner's receipt.
* **Cache session and offline gate** (`Session`, `SessionRun`, `SessionObject`,
  `SessionWitness`, `WriteProbe`): qualification under epochs, the bridge owner's
  second epoch, the automatic-offline flag and the write probe's admission.
* **Slice graphs and the resident flush** (`SliceGraph`, `CanonicalGraph`,
  `GraphCodec`, `ContentGraph`, `ResidentImage`, `ResidentFlush`, `SyncOrder`,
  `DurableFlush`): the overlay of slice histories, their canonical form, its byte
  encoding and decoder, the loop that hashes a file block by block, the bottom-up
  sync order, and the log of durable writes that every outcome leaves.
* **Two small protocols** (`MountFlights`, `RefusalGate`): mount attempts against
  shutdown, and the backoff of refusal polls.

Objects with mutable fields are classes whose methods are the sections under
their locks; each method's postcondition equates the new abstract state with a
function of the old one, and the theorems are about those functions over all
runs. Texts that the program only compares (digests, tokens, identifiers) are
natural numbers, `EMPTY` being the empty text.

Some properties one would expect do not hold of the code as it stands. Each has a
concrete run and the exact condition under which the property holds:

* Two equal, admitted session observations do not show that the session stayed
  qualified between them: a failed qualification drops `qualified` without a new
  epoch (`EqualObservationsHideAFailure`). It stayed qualified exactly when no
  attempt published a failure in between (`EqualObservations`).
* A clear automatic-offline flag does not always mean a qualified session: between
  a loss of qualification and its callback, still under the session lock, the
  flag is clear (`FlagLagsBehindALoss`). Outside that window it does
  (`SessionSafety` gives the equivalence).
* Refusal polls can come closer than a minute: a lapsed refusal clears the time of
  the last poll and keeps the count already seen (`LapseShortensTheGap`). A new
  active refusal is polled within a minute of the last poll exactly when some call
  in between saw a lapse (`PollWithinMinuteIffLapse`; `EarlyPollIff` for the whole
  backoff).
* A refusal count can be polled twice: a child that starts over, with another key or
  a smaller count, makes the gate forget what it has seen and keeps the minute
  (`FallingCountRepeats`, and `ForgottenCountRepeats`, where the repeating call
  itself starts nothing over). In any run some count is polled twice exactly when,
  between a poll and a later active call with the same count whose wait is over,
  the gate was started over and no poll or enrollment step since carried that count
  or more (`CountTwiceIff`).
* A confirmation that is reported as a failure may still let the next recovery in
  (`UncertainConfirmation`): exactly when the record waited for it and its write was
  left uncertain (`FailedConfirmationIff`). Over any run, a recovery of a revision
  becomes possible exactly when a confirmation of it reached the disk and no Start,
  stop or recovery came after (`RecoveryIffConfirmed`).
* A retired record of another build cannot always be superseded by a fresh Start:
  once its archive was cut short (`CutArchive`), or a stop was repeated after an
  archive whose Start did not land (`OlderArchive`), it is held for good. It is held
  through every run of other builds exactly when it is not retired, its revisions
  are exhausted, or the archive holds something that repeated stops cannot make it
  equal to (`HeldForGoodIff`).

`dafny verify dfyconfig.toml` checks everything.

## Model

| member | source | states |
|---|---|---|
| OwnerTheorems.OwnerSafety | bridge/volume_owner.go:457-865 | in every run the table stays within 128 entries with at most one claim, mount and startup probe; the work of every operation in the table was started exactly once and no other work ever; at most one manager, one Mount call, one StartMonitor call and one Link release ever happen; a release happens only on a retired owner after a complete manager Stop; a retired owner runs no mount, probe or Manager request; every operation reported complete has physically succeeded |
| OwnerInvariant.RunKeepsInv | bridge/volume_owner.go:457-909 | the inductive invariant (table, one thread per pending operation, counters equal to the work in progress, what each thread may rely on) survives every interleaving |
| OwnerInvariant.MoveKeepsOthers | bridge/volume_owner.go:602-865 | what one operation relies on between its locked sections survives every step of an operation that may run beside it |
| OwnerInvariant.MoveKeepsCounts | bridge/volume_owner.go:710-865 | the mount flag, the release-pending flag and the probe and enroll counters stay exactly the work in progress across every step |
| OwnerInvariant.SubmitKeepsTable | bridge/volume_owner.go:483-543 | admission keeps the table bounded, each one-shot kind unique and at most one Stop that is not a recorded failure |
| OwnerTheorems.RunForward | bridge/volume_owner.go:457-600 | over every run an operation ID keeps its method and payload, the work of an admitted operation, pending or settled, is never started again, a settled result never changes, the three fences never reopen, released Links stay released, and an attachment epoch keeps its token |
| OwnerTheorems.WorkOnlyDrainsAfterStop | bridge/volume_owner.go:710-865 | once Stop is admitted, no run raises the mount flag or a work counter again |
| OwnerTheorems.RetiredIsIdle | bridge/volume_owner.go:759-807 | a retired owner has no request in flight and no operation inside a mount, a probe or a claim |
| OwnerTheorems.TerminalIsFinal | bridge/volume_owner.go:811-829 | a terminal owner holds nothing, has only shutdowns unsettled, and no continuation admits an operation, calls the manager, takes or releases a Link |
| OwnerTheorems.OlderEpochIsFenced | bridge/volume_owner.go:1064-1144 | after a newer attachment no delayed cost, offline or enroll request of an older epoch changes the owner or is admitted |
| OwnerTheorems.SettledAnswerIsFinal | bridge/volume_owner.go:582-600 | a "complete" or "error" answer to a query is the answer in every continuation |
| OwnerTheorems.LeavingMountEmptiesIt | bridge/volume_owner.go:720-720 | in every reachable state the flag a leaving mount clears was its own: nobody is inside the mount afterwards |
| OwnerTheorems.ReturnedReleaseLeavesNothing | bridge/volume_owner.go:800-805 | after a release returned, every Link ever installed has been released and no release is under way |
| OwnerTheorems.LeavingProbeUncountsItself | bridge/volume_owner.go:843-843 | a leaving startup probe was counted, and the counter stays the number of probes still in flight |
| OwnerTheorems.ReturningRequestUncountsItself | bridge/volume_owner.go:899-899 | a returning Manager or probe request was counted, and the counters stay the requests still in flight |
| OwnerClient.SelectedOperation | bridge/volume_owner.go:133-215 | the run is what others did, plus one submission of this client exactly if the first query found the ID unknown and the request got through, and nothing else of its own; the verdict is that of the first decisive answer (first query, reply to the submission, or a later query); "complete" means the work physically succeeded and "failed" that it settled with an error |
| OwnerClient.Poll | bridge/volume_owner.go:192-214 | the loop adds no event of its own; every answer before the last was "pending"; the verdict is read off the last one, and is "still pending" exactly when all were |
| OwnerClient.Send | bridge/volume_owner.go:171-190 | one submission is what others did before it and one Submit if it was delivered; the client has the owner's answer exactly when request and reply got through; an immediate "complete" is a physical success |
| OwnerObject.VolumeOwner.constructor | bridge/volume_owner.go:1193-1195 | a bound owner starts empty under its pre-birth intent |
| OwnerObject.VolumeOwner.Barred | bridge/volume_owner.go:491-511 | the walk over the table, in any order, finds exactly the operation that bars a new one of the same kind |
| OwnerObject.VolumeOwner.Screen | bridge/volume_owner.go:483-537 | the checks in front of a new ID refuse for exactly the first applicable reason |
| OwnerObject.VolumeOwner.Begin | bridge/volume_owner.go:457-543 | admission returns the original result for a known ID, refuses a rebound one, and otherwise records the operation and closes the stop fence |
| OwnerObject.VolumeOwner.Finish | bridge/volume_owner.go:544-576 | the outcome of the operation, and nothing else, is recorded |
| OwnerObject.VolumeOwner.InstallClaim | bridge/volume_owner.go:679-702 | the claimed manager and Link are installed and a Stop that came meanwhile is reported |
| OwnerObject.VolumeOwner.EnterMount | bridge/volume_owner.go:711-719 | a mount is admitted exactly when no Stop, retirement or other mount stands against it, and it then owns the mount flag |
| OwnerObject.VolumeOwner.EnterStop | bridge/volume_owner.go:760-763 | the fence closes before any physical stop work and the manager to stop is read in the same section |
| OwnerObject.VolumeOwner.OthersSettled | bridge/volume_owner.go:772-781 | the walk answers whether every operation of another kind has settled |
| OwnerObject.VolumeOwner.StopWithoutManager | bridge/volume_owner.go:764-785 | an owner without manager retires exactly when it holds nothing and nothing else is unsettled |
| OwnerObject.VolumeOwner.SettleStop | bridge/volume_owner.go:787-799 | the release decision is taken exactly on a complete Stop with no mount, probe or enroll in flight, and hands the Link over once |
| OwnerObject.VolumeOwner.RequestShutdown | bridge/volume_owner.go:811-829 | terminal state is entered exactly when nothing is held, running or unsettled |
| OwnerObject.VolumeOwner.EnterProbe | bridge/volume_owner.go:834-842 | a probe counts itself in the section that read the Link, and only under an open owner |
| OwnerObject.VolumeOwner.EnterEnroll | bridge/volume_owner.go:881-898 | a Manager request is admitted exactly under the current attachment of an open owner |
| OwnerObject.VolumeOwner.Attach | bridge/volume_owner.go:1093-1117 | an attachment with the expected epoch starts the next epoch; a repeated one changes nothing; every other one is refused |
| OwnerObject.VolumeOwner.UpdatePolicy | bridge/volume_owner.go:1064-1092 | an update with the current epoch and sequence moves its lane one step if it changes anything; every other one is refused |
| FacadeInvariant.PolicySafety | bridge/volume_owner_facade.go:220-448 | in every run with lost, late and repeated requests: while an attachment is current its lanes are as believed or one step ahead holding exactly the pending payload; no update is applied twice and no sequence slot takes two; every cleared update was applied; the "superseded" and mismatch branches are unreachable; an epoch has one facade |
| FacadeInvariant.RunKeepsInv | bridge/volume_owner_facade.go:220-448 | the two-ended agreement is inductive over every event |
| FacadeInvariant.EpochHasOneHolder | bridge/volume_owner.go:1093-1117 | the token that first held an epoch holds it through every continuation |
| FacadeInvariant.LaneFits | bridge/volume_owner.go:1064-1144 | a request the owner admits is the pending update of the facade it agrees with, and takes the lane exactly one step |
| FacadeInvariant.ConfirmedOK | bridge/volume_owner_facade.go:298-308 | a facade that clears its pending update agrees with the owner again |
| PolicyRefinement.OwnerStepIsPolicyStep | bridge/volume_owner.go:1064-1144 | every event of the owner system leaves the lanes alone or is one request handled as in the facade model, open exactly when the identity and lifecycle checks pass |
| PolicyRefinement.OwnerAndFacadesAgree | bridge/volume_owner.go:1064-1144 | in every run of the whole owner system together with its facades, where every policy request the owner sees was once sent by a facade: a facade attached under the owner's epoch holds its token and agrees with its lanes up to the pending update, no update is applied twice, every cleared one was applied, and nothing is reported superseded |
| PolicyRefinement.ClosedLanesStayClosed | bridge/volume_owner.go:1073-1128 | once Stop is admitted no run changes an attachment or a lane |
| FacadeObject.OwnerFacade.constructor | bridge/volume_owner_facade.go:206-209 | a new facade has its token, no attachment and no pending update |
| FacadeObject.OwnerFacade.Adopt | bridge/volume_owner_facade.go:210-217 | the confirmed receipt becomes the facade's epoch and view of both lanes |
| FacadeObject.OwnerFacade.SetLane | bridge/volume_owner_facade.go:310-335 | a pending update is reconciled first and refuses the new one if it cannot be settled; then an update is sent exactly when it changes what is known, and its payload is retained before it is sent |
| FacadeObject.OwnerFacade.HandleReply | bridge/volume_owner_facade.go:336-355 | the pending update is cleared exactly by a reply that carries this attachment, the next sequence and the payload |
| FacadeObject.OwnerFacade.Reconcile | bridge/volume_owner_facade.go:254-308 | a receipt leads to a replay of the same payload, to nothing, or to the confirmation of exactly the pending update |
| FacadeObject.OwnerFacade.SettlePending | bridge/volume_owner_facade.go:254-308 | a pending update is settled exactly when a receipt, or after one replay a second receipt, shows that the owner holds it |
| SuccessionInvariant.SuccessionSafety | bridge/volume_owner_retirement.go:296-376 | in every history of crashes: at most one owner is admitted, it holds the lock and its intent is the one on disk; each identity is launched at most once; a retirement record exists only for an owner that ended with nothing held, running or unsettled; nobody serves under a retired intent |
| SuccessionInvariant.RunKeepsInv | bridge/volume_owner_intent.go:213-335 | the invariant over disk, lock, identities and the embedded owner systems is inductive |
| SuccessionInvariant.AbandonedIsHeldForever | bridge/volume_owner_retirement.go:296-376 | an intent whose owner died, or was never born, without a retirement record stays selected for ever and nobody serves under it |
| SuccessionInvariant.RetiredOwnerIsFinal | bridge/volume_owner.go:1230-1258 | after its retirement record exists, no step of that owner acquires a manager, a Link, a request or an operation |
| SuccessionInvariant.RecordsAreEarned | bridge/volume_owner_retirement.go:183-206 | every retirement record belongs to an owner process that published it and had ended |
| SuccessionInvariant.NothingLeft | bridge/volume_owner.go:1230-1242 | a terminal owner that is not live and whose control transport is joined holds nothing and runs nothing |
| SuccessionInvariant.Publishes | bridge/volume_owner_intent.go:213-262 | writing an intent keeps the invariant when the file was absent or the retired owner's lock is in hand, whether or not the write is then launched |
| SuccessionInvariant.EngineLeavesAbandoned | bridge/volume_owner_retirement.go:296-330 | no engine step rewrites the file of an abandoned intent or prepares another launch of it |
| DesiredRun.DesiredSafety | bridge/serving_desired.go:44-368 | in every run, across crashes and engines of any build, the record is accepted by the reader of the build that wrote it, holds no secret, and "none" carries no NFS record; every replacement engine started from a recovering record equal to the one observed, and that record was on disk when it started, up to an NFS mark; a delayed HTTP stop only tears down an earlier Start |
| DesiredRun.StopHolds | bridge/serving_desired.go:302-325 | after a stop returned revision n the record never falls below n, is stopped at n, and stays stopped until a later Start |
| DesiredRun.LateStepsAreRefused | bridge/serving_desired.go:250-300 | after that stop no late confirmation, NFS publication or recovery admission of an earlier revision changes the record |
| DesiredRun.NoEngineAfterStop | bridge/serving_recovery.go:178-212 | after an acknowledged stop of revision n, every replacement engine that ever starts belongs to a later Start |
| DesiredRun.RecoveryNeedsConfirmation | bridge/serving_desired.go:284-300 | a record that is not running at revision n admits no recovery of n until a confirmation of n reaches the disk |
| DesiredRun.AdmittedRecovery | bridge/serving_recovery.go:178-212 | after one recovery admission of a revision, no second one succeeds unless a confirmation reached the disk in between |
| DesiredRun.FailedConfirmationIff | bridge/serving_desired.go:269-281 | a confirmation reported as failed lets in a recovery that was not possible before exactly when the record waited for it and its write was left uncertain |
| DesiredRun.RecoveryIffConfirmed | bridge/serving_desired.go:229-325 | over any run, a recovery of a revision that was not running becomes possible exactly when a confirmation of it reached the disk, no Start, stop or recovery admission landed after it, and the engine is of the record's build |
| DesiredRun.ConfirmsReachesDisk | bridge/serving_desired.go:250-281 | a confirmation changes the disk exactly when it is the current, unconfirmed revision with a valid owner and its write is not lost |
| DesiredWitness.UncertainConfirmation | bridge/serving_desired.go:128-281 | a run from an empty disk in which a confirmation reported as failed lets a recovery in |
| DesiredRun.RevisionStep | bridge/serving_desired.go:229-368 | no step lowers the revision or removes the record, and "bound" is entered only from "pending" |
| DesiredRun.RevisionsGrow | bridge/serving_desired.go:229-368 | revisions never decrease over a run |
| DesiredRun.ProvenanceIsKept | bridge/serving_desired.go:128-189 | the record under which an owner of another build served is never lost: until an engine of that build takes over, it stays on file or is in the archive, unchanged up to the revisions of repeated stops |
| DesiredRun.LegacyStep | bridge/serving_desired.go:163-187 | one step over such a record is a repeated stop that changes only the revision, or a fresh owner-free Start of the next revision that finds exactly that record archived |
| DesiredRun.HeldAcrossBuilds | bridge/serving_desired.go:44-76 | a record of another build that is not stopped is changed by nobody but an engine of its own build |
| DesiredRun.ReplaceableIff | bridge/serving_desired.go:163-187 | with every outside answer favourable, a Start supersedes such a record exactly when it is retired and nothing else is archived in its place |
| DesiredRun.ConflictIsHeld | bridge/serving_desired.go:420-467 | a cut archive, or an archive older than the record on file, holds the record through every run of other builds |
| DesiredRun.HeldForGoodIff | bridge/serving_desired.go:128-189 | the record of an owner of another build is held through every run of other builds exactly when it is not retired, its revisions are exhausted, or its archive is neither it nor a later stop of it |
| DesiredWitness.CutArchive | bridge/serving_desired.go:420-467 | a run from an empty disk after which a cut archive holds the record |
| DesiredWitness.OlderArchive | bridge/serving_desired.go:163-187 | a run from an empty disk after which a stop repeated over an archived record holds it |
| DesiredObject.ServingDesired.constructor | bridge/serving_desired.go:27-42 | a process takes over what is on disk, without an active revision |
| DesiredObject.ServingDesired.Write | bridge/serving_desired.go:128-225 | the record is rewritten for this build without its secret; over a retired predecessor of another build only its own repeated stop, or a fresh Start after the predecessor is archived; everything else is refused; an uncertain write may be on disk |
| DesiredObject.ServingDesired.ArchivePredecessor | bridge/serving_desired.go:423-467 | an archive file is created at most once and never replaced; an existing one must hold exactly the predecessor |
| DesiredObject.ServingDesired.BeginStart | bridge/serving_desired.go:229-248 | a Start takes the next revision, pending, without owner or NFS authority, and never wraps |
| DesiredObject.ServingDesired.BindOwner | bridge/serving_desired.go:250-267 | an owner is recorded only under the still current revision |
| DesiredObject.ServingDesired.ConfirmStart | bridge/serving_desired.go:269-281 | only a pending or recovering Start of the current revision with a valid owner becomes running |
| DesiredObject.ServingDesired.AdmitRecovery | bridge/serving_desired.go:284-300 | a recovery is admitted only over exactly the running record it observed |
| DesiredObject.ServingDesired.StopServing | bridge/serving_desired.go:302-325 | a stop takes the next revision and ends the process's NFS authority |
| DesiredObject.ServingDesired.MarkNFSPending | bridge/serving_desired.go:343-351 | the pending phase is entered only under the current revision |
| DesiredObject.ServingDesired.MarkNFSBound | bridge/serving_desired.go:353-368 | the bound phase is entered only from pending and with an operation |
| ShutdownScan.ReceiptOperations | bridge/volume_owner.go:366-378 | the receipt lists every operation of the table exactly once with its state |
| ShutdownScan.FindOriginalStop | bridge/serving_shutdown.go:109-126 | for any list: ambiguous exactly on a malformed Stop or two different live ones, otherwise the one live Stop or none |
| ShutdownScan.Resume | bridge/serving_shutdown.go:130-138 | the found ID is adopted unless another one is already remembered |
| ShutdownScan.RealReceiptIsUnambiguous | bridge/volume_owner.go:491-540 | over the receipt of any reachable owner the scan is never ambiguous and finds exactly the one Stop that is not a recorded failure, if there is one |
| ShutdownScan.OnlyTheOriginalResumes | bridge/volume_owner.go:465-511 | however far the owner has run on, the original ID reaches the recorded operation, and every other Stop ID is refused while that Stop has not failed |
| SessionRun.SessionSafety | cache/session.go:160-447 | in every run a qualified session is online, open, not refused, not resetting and bound to the stored volume; a clear flag means an open, ready owner, and a qualified session exactly unless a loss is still to be delivered |
| SessionRun.NoWorkDuringReset | cache/session.go:312-341 | in every run the reset count is the number of transport changes under way, and none is under way where a qualification may start or remote work is admitted |
| SessionRun.RunKeepsInv | cache/session.go:160-447 | the invariant of session, bridge owner, store and qualification slot is inductive |
| SessionRun.StoreIsWriteOnce | cache/volume.go:151-169 | a stored binding never changes in any run |
| SessionRun.EpochsFence | cache/session.go:160-447 | an epoch is unchanged over a run exactly when nothing it fences happened |
| SessionRun.PublicationIsFenced | cache/session.go:217-307 | an attempt publishes exactly when nothing disruptive happened since its capture, the session is still qualifiable and the attempt not cancelled |
| SessionRun.RecoveryIsFenced | bridge/cache_session.go:110-151 | a recovery clears the flag exactly when no qualification change was published since its capture and the owner is ready and open |
| SessionRun.ClosedStaysOffline | bridge/cache_session.go:126-136 | after `closePublication` the flag stays engaged in every continuation |
| SessionRun.EqualObservations | cache/session.go:400-404 | equal admitted observations exclude every disruption, and the session stayed qualified exactly when no failure was published in between |
| SessionWitness.EqualObservationsHideAFailure | cache/session.go:263-281 | a run in which equal admitted observations, with the flag clear at both ends, hide a loss of qualification |
| SessionWitness.FlagLagsBehindALoss | cache/session.go:160-181 | a run in which the flag is still clear although the session has just lost qualification |
| WriteProbe.ProbeIsFenced | bridge/nfs_write_probe_admission.go:55-81 | a probe whose admission is still current afterwards had no disconnect, transport change, refusal or Stop during its work |
| SessionObject.BridgeCacheOwner.constructor | bridge/cache_session.go:47-73 | a new bridge owner has engaged the flag through its first callback |
| SessionObject.BridgeCacheOwner.QualificationChanged | bridge/cache_session.go:94-108 | a delivered change moves the epoch, sets readiness unless closed, and engages the flag on a loss |
| SessionObject.BridgeCacheOwner.ClearAutoOfflineIfCurrent | bridge/cache_session.go:116-124 | the flag is cleared exactly under the captured epoch of a ready, open owner |
| SessionObject.BridgeCacheOwner.ClosePublication | bridge/cache_session.go:126-136 | publication closes for good and the flag is engaged |
| SessionObject.CacheSession.constructor | cache/session.go:63-105 | a session starts offline and unqualified on its stored binding |
| SessionObject.CacheSession.SetOnline | cache/session.go:160-181 | an outage or reconnect disrupts the session and tells the owner in the same section |
| SessionObject.CacheSession.PublishQualification | cache/session.go:252-307 | an attempt publishes its success or failure exactly under its captured epoch |
| SessionObject.CacheSession.EnterTransportChange | cache/session.go:312-330 | a transport change disrupts the session and counts a reset |
| SessionObject.CacheSession.Stop | cache/session.go:376-396 | the session closes once and tells the owner |
| SessionObject.CacheSession.RefuseIdentity | cache/session.go:426-447 | a positively different volume refuses the session until a new qualification |
| SliceGraph.Resolve | third_party/juicefs/pkg/slicegraph/graph.go:59-98 | resolving fails exactly when an extent with bytes leaves its chunk or slice; otherwise the result is in order, without overlap, and shows at every position what the last write put there |
| SliceGraph.Overlay | third_party/juicefs/pkg/slicegraph/graph.go:72-96 | overlaying one extent replaces exactly the positions it covers |
| SliceGraph.SortSorts | third_party/juicefs/pkg/slicegraph/graph.go:95-95 | the modelled sort orders by position and permutes |
| CanonicalGraph.ChunkSegments | third_party/juicefs/pkg/slicegraph/graph.go:124-149 | a chunk has segments exactly when its extents are resolved, and they are the maximal runs of what it shows |
| CanonicalGraph.AppendMeans | third_party/juicefs/pkg/slicegraph/graph.go:108-122 | appending a run, joined or not, extends the shown bytes by that run |
| CanonicalGraph.CanonicalIffSameBytes | third_party/juicefs/pkg/slicegraph/graph.go:151-213 | two extent lists have the same canonical segments exactly when they show the same bytes |
| ContentGraph.Canonical | third_party/juicefs/pkg/slicegraph/graph.go:155-213 | the bytes are the encoding of the maximal runs of every chunk over its covered part, within every limit of the decoder; it refuses only for an unresolved chunk or a limit that is really broken, and never encodes over a broken one |
| ContentGraph.Collect | cache/content_graph.go:80-98 | the chunks are copied as observed; it gives up only for a chunk that was not observed with the expected attributes or for more extents than allowed |
| ContentGraph.ExportContentGraph | cache/content_graph.go:58-112 | an export is the complete list of chunks, each as observed with the expected attributes and each resolved, with its canonical bytes, and the mapping still stood at the end; a miss, a malformed chunk and a refusal for size each have their cause |
| ContentGraph.EncodingIffSameBytes | third_party/juicefs/pkg/slicegraph/graph.go:151-213 | two mappings of a file have the same canonical bytes exactly when they show the same bytes at every offset |
| ContentGraph.DecodedGraphShows | third_party/juicefs/pkg/slicegraph/graph.go:226-319 | the decoder accepts every canonical encoding and yields a complete, resolved mapping that shows the very bytes that were encoded |
| GraphCodec.DecodeInvertsEncode | third_party/juicefs/pkg/slicegraph/graph.go:226-319 | the decoder returns a graph exactly for the encoding of that graph, if it is valid and within the limits: both round trips |
| GraphCodec.DecodeOfRuns | third_party/juicefs/pkg/slicegraph/graph.go:275-313 | the runs of a chunk are decoded from their encoding, whatever follows it |
| GraphCodec.RunsOfDecode | third_party/juicefs/pkg/slicegraph/graph.go:275-313 | runs that were decoded are valid, cover the chunk, are maximal, and encode to the bytes they were read from |
| ResidentImage.SliceAt | cache/reader.go:1141-1149 | the binary search finds the covering extent exactly when there is one, and agrees with the meaning of the list |
| ResidentImage.BlockReaches | cache/reader.go:1223-1232 | inside a resolved extent the block exists, reaches the byte and is no longer than a block |
| ResidentImage.SegmentAt | cache/resident_flush.go:227-241 | the segment at an offset lies in one chunk, one extent and one block within the file, and there is none exactly where no slice backs the byte |
| ResidentImage.SegmentBytes | cache/resident_flush.go:227-242 | the bytes a segment takes from its block are the bytes of the file |
| ResidentImage.TilesCover | cache/resident_flush.go:223-294 | every offset lies in exactly one segment of a tiling |
| ResidentFlush.Walk | cache/resident_flush.go:77-126 | a walk opens exactly what the disk holds at the path and records every directory above an opened file |
| ResidentFlush.WalkDirs | cache/resident_flush.go:77-126 | a directory walk succeeds exactly when every component is a directory, and records it and every directory above it |
| ResidentFlush.OpenBlock | cache/resident_flush.go:243-261 | a block is opened under its plain name, or under its hashed name where the plain one is absent |
| ResidentFlush.HashImage | cache/resident_flush.go:223-294 | however the loop ends, its log holds exactly one sync per block file it read, in order, and what it has read is a tiled prefix of the file with every directory above a block recorded; it ends with the whole file, or names a byte that is not resident, the outside check that stopped it, or has really exceeded a limit |
| SyncOrder.Order | cache/resident_flush.go:300-310 | the sync order is a sorted permutation of the recorded directories |
| SyncOrder.DescendantFirst | cache/resident_flush.go:304-310 | the comparison puts every descendant before its ancestor |
| SyncOrder.OrderIsBottomUp | cache/resident_flush.go:300-331 | every directory comes after all its recorded descendants and the container comes last |
| DurableFlush.SyncDirectories | cache/resident_flush.go:300-331 | each directory sync is appended to the log in the sorted order, up to the outside check that stops it; success means all of them |
| DurableFlush.WriteMappings | cache/resident_flush.go:366-384 | the snapshot is written once between two rounds of outside checks, so a failing check may come after it |
| DurableFlush.MakeDurable | cache/resident_flush.go:300-384 | however it ends, directories are synced bottom-up and a snapshot is in the log only after every block and every directory above one; it fails only at an outside check |
| DurableFlush.FlushResidentImage | cache/resident_flush.go:145-385 | in every outcome the log is safe: bottom-up, and a snapshot only at its end, over synced and anchored blocks of exactly the file's bytes under the wanted digest; success means the snapshot is written, a missing volume directory fails before anything is read or synced, and every failure has its cause |
| DurableFlush.CrashIsSafe | cache/resident_flush.go:296-384 | every prefix of a safe log, which is what a crash leaves, is safe |
| MountFlights.IdleMeansNoFlight | bridge/cbridge.go:217-240 | in every run the idle channel is closed exactly when no flight is active |
| MountFlights.NoFlightAfterRetirement | bridge/cbridge.go:242-256 | once a retirement saw the channel closed, no flight is active or begins in any continuation |
| MountFlights.QuietStaysQuiet | bridge/cbridge.go:3312-3330 | after the second check of a shutdown no mount path and no controller is published, by a flight or by a boot, in any continuation |
| MountFlights.RunKeepsInv | bridge/nfs_custody.go:59-95 | the invariant of flights, publications and shutdowns is inductive |
| MountFlights.NfsMountFlights.constructor | bridge/cbridge.go:211-215 | flights start with none active and a closed idle channel |
| MountFlights.NfsMountFlights.Begin | bridge/cbridge.go:217-231 | a flight begins unless retired, and the first one opens a new idle channel |
| MountFlights.NfsMountFlights.End | bridge/cbridge.go:233-240 | the last flight to end closes the idle channel |
| MountFlights.NfsMountFlights.Retire | bridge/cbridge.go:242-250 | retirement closes admission and returns the channel to wait for |
| RefusalGate.BackoffHolds | bridge/enrollment.go:122-189 | within one run of refusals the k-th gap lasts at least min(60*2^(k-1), 900) seconds |
| RefusalGate.NoCountTwice | bridge/enrollment.go:144-180 | as long as no call starts the gate over, with lapses or without, polled counts strictly grow |
| RefusalGate.FloorHolds | bridge/enrollment.go:152-180 | without a lapse polls stay a minute apart, even across keys and restarted counts |
| RefusalGate.EarlyPollIff | bridge/enrollment.go:152-180 | a new active refusal inside the wait is polled exactly when a lapse came in between, or the gate was started over and a minute has passed |
| RefusalGate.PollWithinMinuteIffLapse | bridge/enrollment.go:152-180 | a new active refusal within a minute of the last poll is polled exactly when a lapse came in between |
| RefusalGate.RepeatIffForgotten | bridge/enrollment.go:144-189 | after any calls, a count the gate has seen is polled again exactly when it is active, the wait is over, and the gate starts over now or was started over before and no poll or enrollment step since carried that count or more |
| RefusalGate.CountTwiceIff | bridge/enrollment.go:144-189 | in any run some count is polled twice exactly when between a poll and a later active, due call with the same count the gate forgot it |
| RefusalGate.LapseShortensTheGap | bridge/enrollment.go:156-162 | a run in which a lapse lets a poll follow after two seconds |
| RefusalGate.FallingCountRepeats | bridge/enrollment.go:144-148 | a run in which a falling count is polled a second time, after one minute where four were due |
| RefusalGate.ForgottenCountRepeats | bridge/enrollment.go:144-180 | a run in which a count is polled a second time by a call that starts nothing over |
| RefusalGate.RefusalPollGate.constructor | bridge/enrollment.go:134-142 | the gate starts clear |
| RefusalGate.RefusalPollGate.ResetIfNewChild | bridge/enrollment.go:144-148 | another key or a fallen count restarts the run |
| RefusalGate.RefusalPollGate.PollNow | bridge/enrollment.go:152-180 | a poll is made exactly for a new active refusal whose wait is over, and doubles the wait within a run |
| RefusalGate.RefusalPollGate.NotePolled | bridge/enrollment.go:184-189 | refusals already carried by an enrollment step need no poll |

## Left out

- Liveness (a shutdown retry eventually succeeds, a flush eventually finishes): a fixed shutdown ID caches its first result, so only safety is stated.
- Sockets, JSON, file modes, fsync and rename mechanics, flock: atomic disk and lock steps; an uncertain write may or may not be on disk.
- FUSE, Link, Redis, the NFS client and the clock: their results are inputs of the events.
- Succession is modelled on values: the intent file, records and lock are one value, and the in-process cache of the selected owner and the unbound owner are not modelled. The evidence checks of the historical-succession path are one nondeterministic answer.
- The proof that a predecessor of another build is retired (its owner's record, its configuration digest and the NFS journal) is an answer from outside, given once at the read and once at the write.
- The delayed HTTP stop is modelled for the serving process, where the revision check applies.
- NFS write-readiness generation fencing and the mirroring of readiness into the metadata client: check and store are separate atomics there, so no such claim is made.
- The Link that a claim starts and stops again when the claim fails before its manager exists: the release theorems are about installed Links.
- A boot publishes the path of a mount it finds while no shutdown holds the lifecycle lock or has closed the server; the lock itself is that guard.
- Sequence, epoch and revision counters are unbounded naturals except the desired revision, whose 64-bit limit is modelled.
- DurableFlush.FlushResidentImage: the disk does not change during the flush; the identity re-checks against concurrent edits (before and after stat, racy re-reads, final name walk) are outside checks that may stop it, also after the snapshot.
- ResidentFlush.Walk: does not model symbolic links, file modes or hard-link counts; a component is a directory, a file or absent.
- The checksum trailer of a cached block, which the block reader verifies before it yields bytes, is not modelled: a block on disk is its content.
- The decoder of slice graphs is modelled on values, as recursive functions over the remaining bytes instead of a loop over an index; its first, validating pass and its second, building pass are the same function.
- The cost lane and the offline lane share one model of a facade's update.
- An engine that failed to attach keeps epoch 0 and may still send updates under it; the agreement is stated for attached facades.
- HTTP handlers, enrollment networking, diagnostics, warm-up, metrics, thumbnails and the boot sequence.
