# Quick Share session layer

A Dafny model of the session layer of Quick Share (`sharing/`): the single-threaded state machines that find
devices, connect to them, shake hands, read frames, introduce and send payloads, account for progress and end a
session, together with the two byte-level formats they use. For each component there is

* a module of pure functions that say what every call does to the component's state, with the lemmas about them;
* where the source keeps its state in an object, a class with that object's fields and methods, each method proved
  to do exactly what the function says, loops and recursion included.

Runs are sequences of steps in any order: calls of the client, events of the connection layer, timers. Whatever
the outside decides (which timer fires, what a callback does, what a lookup in an unordered map returns) is an
argument of the step, so every lemma about runs is about all of those decisions. Fields called history in the
comments (event logs, answers given, bytes won) only record what happened.

| file | component |
|---|---|
| OutgoingTargets.dfy, OutgoingTargetsManager.dfy | discovered targets, their sessions, the discovery cache and the event stream |
| FrameReader.dfy, IncomingFramesReader.dfy | typed frame reads over a FIFO connection with synchronous callbacks |
| PayloadAccounting.dfy, PayloadBounds.dfy, Sums.dfy | status listeners, the update queue and the payload tracker |
| OutgoingTransfer.dfy, OutgoingShareSession.dfy | the sender's pump from update batches to the next payload |
| Surfaces.dfy, SharingService.dfy | surface invalidation: scanning, advertising and fast initiation |
| Handshake.dfy, PairedKeyVerificationRunner.dfy | the paired-key handshake between two devices |
| SessionLifetime.dfy, ShareSession.dfy | the status latches of a session, reject, cancel and disconnect |
| Connections.dfy, DisconnectRequests.dfy, NearbyConnectionsManager.dfy | outgoing connection requests, their timers and callbacks, and the disconnect requests in flight |
| Advertisement.dfy | the advertisement codec |
| Introduction.dfy, IntroductionEntries.dfy, IntroductionLookup.dfy, AttachmentSizes.dfy, IntroductionSession.dfy | filling and reading the introduction frame, what its attachments are looked up by and their total size |
| Visibility.dfy, NearbyShareSettings.dfy, DeviceVisibility.dfy | temporary visibility across restarts |
| TokenHash.dfy | the four-digit token |
| Wrappers.dfy | an option type and a set fact |

## Results that differ from what one might expect

The model follows the code. These are facts about it, each with a lemma:

* A cached target can be overwritten by the loss of another one and then never gets a lost event
  (`OutgoingTargets.OverwriteIsReachable`); the client's view is exact exactly when that and a cleanup of known
  targets do not happen (`OutgoingTargets.ViewStaysExact`).
* A frame that answers the first of several queued reads, with three requests involved, leaves the others queued and
  no read armed. That is the only way in any run (`FrameReader.StallsIff`), and then no run delivers anything any more
  (`FrameReader.StallIsPermanent`). Three reads and one frame suffice (`FrameReader.StallIsReachable`). The header's
  rule of one request at a time excludes it.
* An update batch shows a failure only when it is the last update of the batch
  (`OutgoingTransfer.BatchSurfacesLastFailureOnly`); a run in which progress of another text overtakes a failure is
  `OutgoingTransfer.FailureIsHidden`.
* Wi-Fi credentials are tracked with the length of the SSID but sent as serialized password and hidden flag, so
  the bytes sent need not equal the tracked size and a second set of credentials may never be sent
  (`OutgoingTransfer.WifiCredentialsStall`, with the exact condition in `OutgoingTransfer.SuccessSendsNextIff`).
* The unsigned subtraction behind the speed figure wraps exactly when a sample is due and the bytes confirmed since
  the last sample, with those of the new update, fall short of what that sample counted on top of the confirmed ones
  (`PayloadBounds.WrapsIff`). Two payloads within their sizes reach it, by progress and by success
  (`PayloadBounds.WrapIsReachable`).
* `Reset` sends a disconnect request for every connection without looking at those already requested, so an endpoint
  can have two in flight: exactly when is `DisconnectRequests.SingleRequestsIff`, and a run that does is
  `DisconnectRequests.ResetCollides`.
* A connection that times out before it is initiated is reported with an unknown status, not as a timeout
  (`Connections.TimeoutResolves`), even if it is initiated afterwards (`Connections.ToldTimeoutIff`).
* The introduction's overflow guard covers file sizes and the sizes apps declare, not the sizes of apks, texts and
  SSIDs that the attachments get. `AttachmentSizes.TotalFitsIff` says exactly when the total of an accepted frame is
  computed without overflow; `AttachmentSizes.TextSizesEscapeTheGuard` and `AttachmentSizes.ApkSizesEscapeTheGuard`
  are frames for which it is not.
* An attachment sent with id 0 is rebuilt under a random id while its payload is recorded under 0, so it does not find
  its payload (`IntroductionLookup.FreshLookupIff`; for ids drawn with collisions, `IntroductionLookup.LookupIff`). A
  single file of id 0 never does (`IntroductionLookup.ZeroIdFindsNothing`).
* An app with fewer sizes or payloads than names is read past the end of its lists (`Introductions.MisreadIff`,
  `Introductions.MisreadIsReachable`).
* A post-transfer cooldown whose outcome the session swallows starts without an invalidation, so fast initiation
  scanning may go on during it. With nothing posted the radios are on target exactly unless that has happened
  (`Surfaces.OnTargetUnlessLate`), it happens in one step only (`Surfaces.LateStartsIff`,
  `Surfaces.SwallowedOutcomeMissesIff`), lasts until the next invalidation of reception (`Surfaces.LateEndsIff`), and a
  run reaches it (`Surfaces.CooldownIsMissed`).
* A temporary visibility that replaces everyone does not end in everyone (`VisibilitySettings.TemporaryRestoresIff`,
  `VisibilitySettings.EveryoneIsNotRestored`), and everyone as a stored fallback is not corrected by a restart
  (`VisibilitySettings.StoredEveryoneKeptIff`, `VisibilitySettings.StoredEveryoneOutlivesRestart`).

## Model

| member | source | states |
|---|---|---|
| OutgoingTargets.EveryRun | sharing/outgoing_targets_manager.cc:70-344 | in every run, endpoint to id and id to session are a bijection matching each session's own ids, cached ids are distinct and disjoint from live ones, each target's events are discovered, updates, at most one loss, and a client folding the events agrees with every target the manager lists, keeping beyond those only the ids dropped without a lost event |
| OutgoingTargets.ExecKeeps | sharing/outgoing_targets_manager.cc:70-344 | the invariant behind it is kept by any sequence of discover, lose, expire, connect and cleanup steps from any state that has it |
| OutgoingTargets.DiscoverInv | sharing/outgoing_targets_manager.cc:70-116 | a discovery, by endpoint, by device id, from the cache or new, keeps the bijection, shows exactly one target and leaves every other target and cache entry as it was |
| OutgoingTargets.LoseInv | sharing/outgoing_targets_manager.cc:229-261 | a loss keeps the bijection and the known ids, except for the id of an overwritten cache entry |
| OutgoingTargets.ExpireInv | sharing/outgoing_targets_manager.cc:236-256 | an expiring cache entry keeps the bijection and forgets exactly its id |
| OutgoingTargets.DefensiveBranchesAreDead | sharing/outgoing_targets_manager.cc:204-298 | in every run the branches for a live endpoint without session, an endpoint already bound and an id already used cannot be taken |
| OutgoingTargets.RetiredIsSilent | sharing/outgoing_targets_manager.cc:229-261 | once an id is neither live nor cached, no later run reports it again |
| OutgoingTargets.CleanupSilences | sharing/outgoing_targets_manager.cc:322-332 | nothing known before a cleanup is ever reported after it |
| OutgoingTargets.ViewStaysExact | sharing/outgoing_targets_manager.cc:258-261 | an exact client view stays exact over a step if and only if the step neither overwrites another target's cache entry nor cleans up known targets |
| OutgoingTargets.OverwriteIsReachable | sharing/outgoing_targets_manager.cc:157-166 | a concrete run in which a cached target is overwritten and abandoned |
| OutgoingTargets.LoseAllIsARun | sharing/outgoing_targets_manager.cc:310-320 | losing all targets is a run of single losses, so the results above apply to it |
| OutgoingTargets.RebindInv | sharing/outgoing_share_session.cc:494-513 | updating a session for a rediscovered target keeps the bijection and every other target, connected or not |
| OutgoingTargetsManagers.OutgoingTargetsManager.OnShareTargetDiscovered | sharing/outgoing_targets_manager.cc:70-116 | the method does what one of the truthful lookups allows, state and event |
| OutgoingTargetsManagers.OutgoingTargetsManager.FindExistingTargetId | sharing/outgoing_targets_manager.cc:154-187 | returns a session matching by endpoint id or else by non-empty device id, and none only if there is none; re-keys it |
| OutgoingTargetsManagers.OutgoingTargetsManager.FindInDiscoveryCache | sharing/outgoing_targets_manager.cc:118-152 | takes a matching entry out of the cache, by the same criteria, and none only if there is none |
| OutgoingTargetsManagers.OutgoingTargetsManager.AddTarget | sharing/outgoing_targets_manager.cc:263-298 | binds the endpoint and creates or updates the session, with both refusals |
| OutgoingTargetsManagers.OutgoingTargetsManager.RemoveTarget | sharing/outgoing_targets_manager.cc:189-223 | removes endpoint and session unless connected and not to be closed |
| OutgoingTargetsManagers.OutgoingTargetsManager.OnShareTargetLost | sharing/outgoing_targets_manager.cc:229-261 | caches the removed target as receive-disabled and reports the update |
| OutgoingTargetsManagers.OutgoingTargetsManager.OnCacheEntryExpired | sharing/outgoing_targets_manager.cc:240-256 | drops the entry and reports the loss |
| OutgoingTargetsManagers.OutgoingTargetsManager.AllTargetsLost | sharing/outgoing_targets_manager.cc:310-320 | loses each endpoint of the snapshot exactly once, in some order |
| OutgoingTargetsManagers.OutgoingTargetsManager.Cleanup | sharing/outgoing_targets_manager.cc:322-332 | the loop over endpoints and the cleared cache leave all three maps empty without an event |
| OutgoingTargetsManagers.OutgoingTargetsManager.EndpointIds | sharing/outgoing_targets_manager.cc:312-316 | takes the snapshot of all endpoints, each once |
| OutgoingTargetsManagers.OutgoingTargetsManager.ForEachShareTarget | sharing/outgoing_targets_manager.cc:334-344 | shows every cached target, then every live one, each exactly when listed |
| FrameReader.EveryRun | sharing/incoming_frames_reader.cc:80-244 | with one request outstanding, whatever callbacks do, frames of each type are delivered in order without loss or duplication, each request gets its type, and a pending request has its read armed with nothing unread or cached that would answer it |
| FrameReader.ReadFrameKeeps | sharing/incoming_frames_reader.cc:80-122 | issuing a read keeps that invariant, through callbacks that read again |
| FrameReader.OnDataKeeps | sharing/incoming_frames_reader.cc:146-178 | an arriving message keeps it, whether undecodable, unwanted, cached or delivered |
| FrameReader.DoneKeeps | sharing/incoming_frames_reader.cc:193-218 | delivering to the front request and re-issuing the next keeps it |
| FrameReader.NextKeeps | sharing/incoming_frames_reader.h:49-56 | every step a caller of one request at a time can cause keeps it |
| FrameReader.StallsIff | sharing/incoming_frames_reader.cc:193-218 | in every run, whatever is requested and however many reads callbacks issue, a request is pending without an armed read if and only if some step answered the first of at least two queued requests when, with the reads its callback issues, three were involved |
| FrameReader.StepStallsIff | sharing/incoming_frames_reader.cc:80-218 | the same for each step: it stalls a live reader exactly so, and else a pending request has its read armed with nothing unread |
| FrameReader.StallsExactlyWithThreeRequests | sharing/incoming_frames_reader.cc:203-217 | an armed reader is stalled by a frame for its first request if and only if another is queued behind it and, with all reads the callback issues, at least three requests are involved |
| FrameReader.StallIsPermanent | sharing/incoming_frames_reader.cc:80-218 | from a stalled state that any run reaches, no further run of requests, messages, timeouts and closing, whatever callbacks do, delivers anything or answers a pending request |
| FrameReader.FreeRunTimer | sharing/incoming_frames_reader.cc:100-122 | in every run, disciplined or not, the timer runs with a request pending only while a read is armed, so no timeout ends a stall |
| FrameReader.StallIsReachable | sharing/incoming_frames_reader.cc:193-218 | three reads issued at once and one frame stall a new reader |
| FrameReaders.NearbyConnectionImpl.Read | sharing/nearby_connection_impl.cc:57-71 | hands over the oldest unread message or arms the callback; terminates with the messages and callbacks left |
| FrameReaders.NearbyConnectionImpl.WriteMessage | sharing/nearby_connection_impl.cc:79-93 | hands the message to an armed callback or queues it |
| FrameReaders.NearbyConnectionImpl.Destroy | sharing/nearby_connection_impl.cc:37-55 | answers an armed read with nothing |
| FrameReaders.IncomingFramesReader.ProcessReadRequest | sharing/incoming_frames_reader.cc:80-122 | queues behind a pending request, answers from the cache, or reads |
| FrameReaders.IncomingFramesReader.ReadNextFrame | sharing/incoming_frames_reader.cc:124-139 | reads the next message, recursing through its callback |
| FrameReaders.IncomingFramesReader.OnDataReadFromConnection | sharing/incoming_frames_reader.cc:146-178 | skips, caches or delivers the message |
| FrameReaders.IncomingFramesReader.Finish | sharing/incoming_frames_reader.cc:193-218 | delivers to the front request and re-issues the next one |
| FrameReaders.IncomingFramesReader.CloseAllPendingReads | sharing/incoming_frames_reader.cc:180-191 | fails every pending request, callbacks included |
| FrameReaders.IncomingFramesReader.OnTimerFired | sharing/incoming_frames_reader.cc:141-144 | a timeout fails every pending request |
| FrameReaders.IncomingFramesReader.PopCachedFrame | sharing/incoming_frames_reader.cc:220-244 | removes and returns the first cached frame of the wanted type |
| PayloadAccounting.EveryRun | sharing/payload_tracker.cc:110-152 | for any registrations, updates, cancellations and batches the success counter is the number of succeeded payloads, the confirmed size is the sum of their success bytes, a queued update is scheduled, and the tracker is complete if and only if every payload succeeded |
| PayloadAccounting.ExecKeeps | sharing/nearby_connections_manager_impl.cc:857-887 | that invariant, with at most one terminal status per payload, is kept by every run |
| PayloadAccounting.DeliverKeeps | sharing/nearby_connections_manager_impl.cc:857-887 | dropping the listener at the first terminal status leaves at most one such update per payload |
| PayloadAccounting.CancelKeeps | sharing/nearby_connections_manager_impl.cc:549-564 | so does cancelling |
| PayloadAccounting.ProcessHeadExact | sharing/payload_tracker.cc:110-137 | counting one update keeps the counters exact |
| PayloadAccounting.ProcessHeadTerminalOnce | sharing/payload_tracker.cc:110-137 | processing one update keeps terminal statuses unique |
| PayloadAccounting.CompleteIffAllSucceeded | sharing/payload_tracker.cc:237-239 | the counter comparison holds exactly when every tracked payload succeeded |
| PayloadAccounting.CompletionReportedIff | sharing/payload_tracker.cc:142-152 | an update is reported as completion if and only if it is a success and every other payload has succeeded |
| PayloadBounds.TotalCoversSizes | sharing/payload_tracker.cc:41-96 | the constructor's total covers the tracked sizes and equals their sum when payloads are distinct |
| PayloadBounds.EveryReportIsSound | sharing/payload_tracker.cc:249-263 | if no update reports more than its payload's size, every batch result has bytes within the total and progress within 0..100, for any interleaving |
| PayloadBounds.TransferredWithinTotal | sharing/payload_tracker.cc:249-254 | confirmed bytes plus those in progress never exceed the total |
| PayloadBounds.ReportsNeverFall | sharing/payload_tracker.cc:172-206 | with payloads one after another the reported bytes never decrease and never fall below the last speed sample |
| PayloadBounds.LevelRises | sharing/payload_tracker.cc:124-137 | one more update in that order never lowers the transferred bytes |
| PayloadBounds.WrapsIff | sharing/payload_tracker.cc:184-190 | after any run the subtraction for the next update wraps if and only if a sample is due and the bytes confirmed since the last sample, with this update's, fall short of what that sample counted on top of the confirmed ones |
| PayloadBounds.SampleLedger | sharing/payload_tracker.cc:184-190 | in every run the last sample plus what was confirmed since equals the confirmed bytes plus what the sample counted on top |
| PayloadBounds.WrapNeedsInterleaving | sharing/payload_tracker.cc:184-190 | it takes two payloads, or a success with fewer bytes than its own payload's last sample |
| PayloadBounds.WrapIsReachable | sharing/payload_tracker.cc:184-190 | two payloads within their sizes that reach it, by progress and by success |
| OutgoingTransfer.EveryPumpRun | sharing/outgoing_share_session.cc:350-359 | in every run, whatever updates arrive, what has been sent is the beginning of one fixed order without repetition: no payload is sent twice or skipped |
| OutgoingTransfer.SendNextTakesHead | sharing/outgoing_share_session.cc:451-471 | sending moves exactly the head of texts, files and Wi-Fi credentials, each last first, and registers it |
| OutgoingTransfer.NeverStalls | sharing/nearby_sharing_service_impl.cc:2477-2483 | with distinct tracked payloads, progress within sizes and success at exactly the size, whenever nothing is queued and all sent payloads have succeeded, none is left unsent and completion is pending; queued updates are scheduled |
| OutgoingTransfer.OnUpdatesLively | sharing/nearby_sharing_service_impl.cc:2923-2965 | a batch keeps that a sent payload is unfinished while any is unsent |
| OutgoingTransfer.LastUpdateDecides | sharing/outgoing_share_session.cc:585-600 | the last update of a batch decides: success completes or triggers the next payload, progress leaves its payload unfinished |
| OutgoingTransfer.CompletionIsHonest | sharing/nearby_sharing_service_impl.cc:2948-2951 | in every run, whatever updates arrive and however batches hide them, completion is pending only when every tracked payload has succeeded, and it is not reported before the session ends |
| OutgoingTransfer.NothingQueuedAfterSuccess | sharing/nearby_connections_manager_impl.cc:868-877 | once every payload has succeeded nothing is queued any more |
| OutgoingTransfer.BatchIsLast | sharing/outgoing_share_session.cc:594-599 | a batch's result is that of its last update alone |
| OutgoingTransfer.BatchSurfacesLastFailureOnly | sharing/nearby_sharing_service_impl.cc:2955-2964 | a batch ends the session if and only if its last update is a failure or cancellation |
| OutgoingTransfer.FailureIsHidden | sharing/nearby_sharing_service_impl.cc:2955-2964 | a run in which a text fails, another makes progress in the same batch, and the session is neither final nor disconnecting |
| OutgoingTransfer.SuccessSendsNextIff | sharing/nearby_sharing_service_impl.cc:2477-2483 | after a success short of completion the next payload is sent if and only if the recorded bytes equal the tracked size |
| OutgoingTransfer.StallIsPermanent | sharing/nearby_sharing_service_impl.cc:2923-2939 | with nothing queued and no listener, no step sends anything |
| OutgoingTransfer.WifiCredentialsStall | sharing/outgoing_share_session.cc:191-211 | two sets of Wi-Fi credentials of which the second is never sent |
| OutgoingShareSessions.WorkerQueue.Queue | sharing/worker_queue.h:80-84 | appends and leaves the reader scheduled |
| OutgoingShareSessions.WorkerQueue.ReadAll | sharing/worker_queue.h:89-95 | takes everything and clears the schedule |
| OutgoingShareSessions.PayloadTracker.constructor | sharing/payload_tracker.cc:41-96 | the loops over files, texts and Wi-Fi credentials build the tracked payloads and total |
| OutgoingShareSessions.PayloadTracker.OnStatusUpdate | sharing/payload_tracker.cc:100-108 | queues updates of tracked payloads only |
| OutgoingShareSessions.PayloadTracker.ProcessPayloadUpdate | sharing/payload_tracker.cc:110-140 | records the update and reports |
| OutgoingShareSessions.PayloadTracker.OnTransferUpdate | sharing/payload_tracker.cc:142-235 | complete, cancelled, failed, nothing new, or progress, in that order |
| OutgoingShareSessions.OutgoingShareSession.ExtractNextPayload | sharing/outgoing_share_session.cc:451-471 | pops from the back of the first non-empty vector |
| OutgoingShareSessions.OutgoingShareSession.SendNextPayload | sharing/outgoing_share_session.cc:350-359 | sends it and registers its listener |
| OutgoingShareSessions.OutgoingShareSession.UpdateTransferMetadata | sharing/share_session.cc:123-136 | swallows updates after a final one and otherwise reports |
| OutgoingShareSessions.OutgoingShareSession.OnOutgoingTransferUpdate | sharing/nearby_sharing_service_impl.cc:2443-2483 | reports and sends the next payload when the current one is full |
| OutgoingShareSessions.OutgoingShareSession.DelayComplete | sharing/outgoing_share_session.cc:473-492 | keeps the result pending and reports progress instead |
| OutgoingShareSessions.OutgoingShareSession.ProcessPayloadTransferUpdates | sharing/outgoing_share_session.cc:585-600 | the batch loop, keeping the last result |
| OutgoingShareSessions.OutgoingShareSession.OnOutgoingPayloadTransferUpdates | sharing/nearby_sharing_service_impl.cc:2923-2965 | delays completion, reports anything else and disconnects on failure |
| OutgoingShareSessions.OutgoingShareSession.OnPayloadTransferUpdate | sharing/nearby_connections_manager_impl.cc:857-887 | forwards to the listener, dropping it at a terminal status |
| OutgoingShareSessions.OutgoingShareSession.Cancel | sharing/nearby_connections_manager_impl.cc:549-564 | drops the listener and reports a cancellation |
| Surfaces.InvalidateReachesTarget | sharing/nearby_sharing_service_impl.cc:1779-2165 | from every state invalidation reaches the declared scanning, power level, fast advertising and fast scanning; the power level may be unknown only if no endpoint info can be built |
| Surfaces.SilentIffOnTarget | sharing/nearby_sharing_service_impl.cc:1779-2188 | it issues no command if and only if the target is already reached, and repeating it issues none |
| Surfaces.CommandsDrive | sharing/nearby_sharing_service_impl.cc:1994-2188 | its commands take the radios from the old flags to the new, none of them a redundant start or stop |
| Surfaces.EveryRun | sharing/nearby_sharing_service_impl.cc:405-757 | at every boundary between steps scanning excludes transferring and connecting and implies a foreground send surface, the radios are where the commands put them, and they are on target (up to a cooldown) unless an invalidation is posted or the service is down |
| Surfaces.OnTargetUnlessLate | sharing/nearby_sharing_service_impl.cc:2095-2165 | after every run, with nothing posted and the service up, the radios are on target if and only if fast scanning is not on during a cooldown |
| Surfaces.LateStartsIff | sharing/nearby_sharing_service_impl.cc:2885-2911 | that begins in exactly one kind of step, an incoming outcome while fast scanning is on |
| Surfaces.LateEndsIff | sharing/nearby_sharing_service_impl.cc:2095-2165 | it ends in exactly the steps that invalidate reception, directly or by starting to scan, end the cooldown or shut down |
| Surfaces.SwallowedOutcomeMissesIff | sharing/nearby_sharing_service_impl.cc:2885-2911 | from a state on target an incoming outcome leaves the target missed with nothing posted if and only if the session swallowed it and fast scanning was on |
| Surfaces.CooldownIsMissed | sharing/nearby_sharing_service_impl.cc:2885-2911 | a run that ends so |
| Surfaces.NextExclusive | sharing/nearby_sharing_service_impl.cc:697-701 | each step keeps the exclusion |
| Surfaces.NextSettled | sharing/nearby_sharing_service_impl.cc:2062-2088 | each step leaves the radios on target or an invalidation posted |
| Surfaces.NextDriven | sharing/nearby_sharing_service_impl.cc:1994-2088 | each step keeps the radios in agreement with the flags |
| Surfaces.ShutdownIsQuiet | sharing/nearby_sharing_service_impl.cc:295-332 | after shutdown all radios are off and no step changes anything |
| Surfaces.BeginScanThenSend | sharing/nearby_sharing_service_impl.cc:2016-2060 | what StartScanning re-enters ends in the same state as the closed form |
| SharingServices.NearbySharingServiceImpl.InvalidateSurfaceState | sharing/nearby_sharing_service_impl.cc:1779-1782 | send surfaces, then receive surfaces |
| SharingServices.NearbySharingServiceImpl.InvalidateSendSurfaceState | sharing/nearby_sharing_service_impl.cc:1784-1787 | terminates through StartScanning and reaches the closed form |
| SharingServices.NearbySharingServiceImpl.InvalidateScanningState | sharing/nearby_sharing_service_impl.cc:1789-1824 | stops for each of the four reasons or starts scanning |
| SharingServices.NearbySharingServiceImpl.StartScanning | sharing/nearby_sharing_service_impl.cc:2016-2060 | does nothing when scanning; otherwise re-invalidates both surfaces and terminates because scanning is now on |
| SharingServices.NearbySharingServiceImpl.StopScanning | sharing/nearby_sharing_service_impl.cc:2062-2088 | stops once and posts an invalidation |
| SharingServices.NearbySharingServiceImpl.InvalidateFastInitiationAdvertising | sharing/nearby_sharing_service_impl.cc:1826-1863 | fast advertising equals its condition |
| SharingServices.NearbySharingServiceImpl.InvalidateReceiveSurfaceState | sharing/nearby_sharing_service_impl.cc:1865-1868 | advertising, then fast scanning |
| SharingServices.NearbySharingServiceImpl.InvalidateAdvertisingState | sharing/nearby_sharing_service_impl.cc:1870-1992 | stops, keeps or restarts at the wanted level |
| SharingServices.NearbySharingServiceImpl.StopAdvertising | sharing/nearby_sharing_service_impl.cc:1994-2014 | stops once |
| SharingServices.NearbySharingServiceImpl.StopAdvertisingAndInvalidateSurfaceState | sharing/nearby_sharing_service_impl.cc:2090-2093 | restarts advertising from scratch |
| SharingServices.NearbySharingServiceImpl.InvalidateFastInitiationScanning | sharing/nearby_sharing_service_impl.cc:2095-2165 | fast scanning equals its condition |
| SharingServices.NearbySharingServiceImpl.RegisterSendSurface | sharing/nearby_sharing_service_impl.cc:405-519 | refuses duplicates and conflicting vendors, and unregisters again while receiving |
| SharingServices.NearbySharingServiceImpl.InternalUnregisterSendSurface | sharing/nearby_sharing_service_impl.cc:1007-1068 | removes the surface and invalidates |
| SharingServices.NearbySharingServiceImpl.RegisterReceiveSurface | sharing/nearby_sharing_service_impl.cc:540-632 | refuses duplicates and conflicting vendors, and invalidates reception |
| SharingServices.NearbySharingServiceImpl.InternalUnregisterReceiveSurface | sharing/nearby_sharing_service_impl.cc:1070-1120 | removes the surface and invalidates |
| SharingServices.NearbySharingServiceImpl.SendAttachments | sharing/nearby_sharing_service_impl.cc:682-757 | only while scanning; starts the transfer, then connecting |
| SharingServices.NearbySharingServiceImpl.OnTransferStarted | sharing/nearby_sharing_service_impl.cc:2231-2239 | marks the transfer and invalidates |
| SharingServices.NearbySharingServiceImpl.OnTransferComplete | sharing/nearby_sharing_service_impl.cc:2214-2229 | clears the transfer and posts an invalidation |
| SharingServices.NearbySharingServiceImpl.OnOutgoingTransferUpdate | sharing/nearby_sharing_service_impl.cc:2453-2461 | final and awaiting-local updates end connecting |
| SharingServices.NearbySharingServiceImpl.OnIncomingTransferUpdate | sharing/nearby_sharing_service_impl.cc:2406-2430 | final and awaiting-local updates |
| SharingServices.NearbySharingServiceImpl.OnLockStateChanged | sharing/nearby_sharing_service_impl.cc:1330-1336 | records the lock and invalidates |
| SharingServices.NearbySharingServiceImpl.Shutdown | sharing/nearby_sharing_service_impl.cc:295-332 | stops all four activities and clears the surfaces |
| SharingServices.NearbySharingServiceImpl.Cleanup | sharing/nearby_sharing_service_impl.cc:338-372 | resets the flags |
| Handshake.BothFailOrNeither | sharing/paired_key_verification_runner.cc:151-219 | in every run in which both devices read both frames, one ends in failure if and only if the other does, exactly when either could not verify the other's signature, and each learns the other's system |
| Handshake.SuccessMeansMutualContacts | sharing/paired_key_verification_runner.cc:296-356 | a device that answers success holds a certificate its peer signs with, and the peer holds one of its own |
| Handshake.NeverStuck | sharing/paired_key_verification_runner.cc:131-219 | until both have answered some device can start or read unless one timed out, and a waiting device can always time out |
| Handshake.EveryStepIsProgress | sharing/paired_key_verification_runner.cc:131-219 | at most six steps are taken and an answer is final |
| Handshake.EveryRun | sharing/paired_key_verification_runner.cc:151-219 | every answer combines the token hash, the signature check and the peer's result, in that order of arrival |
| Handshake.CombineIsWorst | sharing/paired_key_verification_runner.cc:358-380 | however many results, the combination is the worst in success, unable or unknown, fail |
| Handshake.OrderDoesNotMatter | sharing/paired_key_verification_runner.cc:358-380 | and does not depend on their order |
| Handshake.SignatureAcceptedIff | sharing/paired_key_verification_runner.cc:317-356 | a peer's frame is accepted if and only if a certificate is known that the peer signs with, by its current or recently replaced key |
| Handshake.ReflectionIsNotAccepted | sharing/paired_key_verification_runner.cc:113-127 | a device's own frame sent back is never accepted |
| Handshake.HashAcceptedIff | sharing/paired_key_verification_runner.cc:296-315 | the token hash is accepted if and only if the peer knows a certificate of this device, and never fails the handshake |
| Handshake.KnownContactsVerify | sharing/paired_key_verification_runner.cc:253-356 | mutual contacts pass both checks on both sides |
| PairedKeyVerificationRunners.PairedKeyVerificationRunner.constructor | sharing/paired_key_verification_runner.cc:93-127 | swaps the prefixes by direction; a sender uses its all-contacts history |
| PairedKeyVerificationRunners.PairedKeyVerificationRunner.Run | sharing/paired_key_verification_runner.cc:131-149 | starts from success and writes the encryption frame |
| PairedKeyVerificationRunners.PairedKeyVerificationRunner.OnReadPairedKeyEncryptionFrame | sharing/paired_key_verification_runner.cc:151-194 | fails without a frame, else applies both checks and writes the result |
| PairedKeyVerificationRunners.PairedKeyVerificationRunner.OnReadPairedKeyResultFrame | sharing/paired_key_verification_runner.cc:196-219 | fails without a frame, else applies the peer's result and answers |
| PairedKeyVerificationRunners.PairedKeyVerificationRunner.SendPairedKeyEncryptionFrame | sharing/paired_key_verification_runner.cc:253-294 | signs, with random bytes where there is no key, and adds the previous key's signature when visibility changed recently |
| PairedKeyVerificationRunners.PairedKeyVerificationRunner.VerifyAuthTokenHashWithPrivateCertificate | sharing/paired_key_verification_runner.cc:296-315 | success or unable |
| PairedKeyVerificationRunners.PairedKeyVerificationRunner.VerifyPairedKeyEncryptionFrame | sharing/paired_key_verification_runner.cc:317-356 | unable without certificate, success by either signature, else fail |
| PairedKeyVerificationRunners.PairedKeyVerificationRunner.ApplyResult | sharing/paired_key_verification_runner.cc:358-380 | the worse of the two results |
| SessionLifetime.EveryRun | sharing/share_session.cc:123-224 | in every run the client sees at most one final status and nothing after it, payloads are cancelled at most once, and after OnDisconnect a session that was ever connected has shown exactly one final status |
| SessionLifetime.ExecKeeps | sharing/share_session.cc:123-224 | the latches behind it are kept by every run |
| SessionLifetime.FinalIsSilent | sharing/share_session.cc:123-136 | after the final status nothing reaches the client in any run |
| SessionLifetime.CompletesIff | sharing/outgoing_share_session.cc:155-161 | a disconnection makes an outgoing session report completion if and only if no final status was seen and all payloads completed since the last disconnection or elapsed delay |
| SessionLifetime.OnlyDisconnectCompletes | sharing/outgoing_share_session.cc:473-492 | no other step does |
| SessionLifetime.PendingIff | sharing/outgoing_share_session.cc:473-492 | a result is pending exactly when completion was neither followed by the delay's end nor by a disconnection |
| SessionLifetime.ElapsedDelayFails | sharing/outgoing_share_session.cc:484-491 | if the delay ends first, the disconnection reports a failure |
| SessionLifetime.OnDisconnectKeeps | sharing/share_session.cc:200-207 | a disconnection, repeated or not, keeps the latches |
| SessionLifetime.CancelKeeps | sharing/nearby_sharing_service_impl.cc:877-917 | cancelling keeps them, from either side |
| SessionLifetime.RejectKeeps | sharing/nearby_sharing_service_impl.cc:829-836 | rejecting keeps them |
| ShareSessions.ShareSession.UpdateTransferMetadata | sharing/share_session.cc:123-136 | latches the first final status and swallows the rest |
| ShareSessions.ShareSession.OnConnectResult | sharing/outgoing_share_session.cc:528-562 | with a connection a later disconnection is a failure; without one the timeout or failure is final |
| ShareSessions.ShareSession.ReadyForTransfer | sharing/incoming_share_session.cc:211-236 | restores the failure status and asks for confirmation unless self-sharing |
| ShareSessions.ShareSession.DelayComplete | sharing/outgoing_share_session.cc:473-492 | keeps the result and arms the timer |
| ShareSessions.ShareSession.OnDisconnectionTimeout | sharing/outgoing_share_session.cc:486-491 | drops the pending result |
| ShareSessions.ShareSession.OnConnectionDisconnected | sharing/outgoing_share_session.cc:155-161 | reports the pending result once |
| ShareSessions.ShareSession.OnDisconnect | sharing/share_session.cc:200-207 | then the disconnect status, if any |
| ShareSessions.ShareSession.CancelPayloads | sharing/share_session.cc:214-224 | cancels each payload once |
| ShareSessions.ShareSession.Reject | sharing/nearby_sharing_service_impl.cc:801-840 | only when connected; rejected replaces the disconnect status |
| ShareSessions.ShareSession.DoCancel | sharing/nearby_sharing_service_impl.cc:859-926 | once; the initiator leaves no status for the disconnection |
| Connections.EveryRun | sharing/nearby_connections_manager_impl.cc:336-491 | in every run a callback that became pending has been answered exactly once when its endpoint has left the map and not before, pending requests and timers go together, each has a timer running or a disconnect under way, and Disconnect never has two requests of its own in flight for an endpoint |
| Connections.AnsweredWhenRemoved | sharing/nearby_connections_manager_impl.cc:689-765 | a callback is invoked in exactly the step that takes its endpoint off the map |
| Connections.DroppedIffPending | sharing/nearby_connections_manager_impl.cc:366-377 | a callback is dropped if and only if one is pending for the endpoint |
| Connections.TimeoutResolves | sharing/nearby_connections_manager_impl.cc:430-441 | once the timer has fired, the answer to the disconnect resolves the request, as a timeout exactly when the connection had been initiated |
| Connections.FiredTimerResolves | sharing/nearby_connections_manager_impl.cc:430-441 | after any further steps a callback whose timer has fired has been answered exactly once, or its disconnect is still in flight and the answer to that answers it |
| Connections.FiredTimerTells | sharing/nearby_connections_manager_impl.cc:738-765 | and what the callback is told then, or by a disconnection, is the last status recorded since: of a later refusal, else of the timeout |
| Connections.ToldTimeoutIff | sharing/nearby_connections_manager_impl.cc:430-441 | without a later refusal that is the timeout if and only if the connection had been initiated before the timer fired, and otherwise unknown |
| Connections.DisconnectKeeps | sharing/nearby_connections_manager_impl.cc:460-491 | a disconnect adds a request only when none of its own is in flight |
| Connections.OnDisconnectedKeeps | sharing/nearby_connections_manager_impl.cc:738-765 | a disconnection answers and removes the pending request |
| Connections.AnswerAllKeeps | sharing/nearby_connections_manager_impl.cc:917-952 | a reset answers every pending callback once, even if callbacks disconnect |
| Connections.AcceptedKeeps | sharing/nearby_connections_manager_impl.cc:689-723 | accepting answers the request with the connection, or disconnects |
| DisconnectRequests.SingleRequestsIff | sharing/nearby_connections_manager_impl.cc:917-928 | in every run an endpoint never has two disconnect requests in flight, those of Reset included, if and only if no Reset finds it connected with one in flight and nothing asks to disconnect it with one of Reset's in flight |
| DisconnectRequests.SecondRequestIff | sharing/nearby_connections_manager_impl.cc:917-928 | the same for one step |
| DisconnectRequests.RequestsLedger | sharing/nearby_connections_manager_impl.cc:460-491 | every step accounts for each endpoint's requests: one more when asked or closed by Reset, one fewer when answered |
| DisconnectRequests.NoResetNoCollision | sharing/nearby_connections_manager_impl.cc:460-491 | without Reset no endpoint has two |
| DisconnectRequests.ResetCollides | sharing/nearby_connections_manager_impl.cc:917-928 | a connected endpoint, a disconnect and a Reset leave two |
| NearbyConnectionsManagers.NearbyConnectionsManagerImpl.Connect | sharing/nearby_connections_manager_impl.cc:366-377 | records callback and timer unless one is pending |
| NearbyConnectionsManagers.NearbyConnectionsManagerImpl.OnConnectionTimedOut | sharing/nearby_connections_manager_impl.cc:430-441 | marks an initiated connection as timed out and disconnects |
| NearbyConnectionsManagers.NearbyConnectionsManagerImpl.OnConnectionRequested | sharing/nearby_connections_manager_impl.cc:443-458 | a refused request disconnects |
| NearbyConnectionsManagers.NearbyConnectionsManagerImpl.Disconnect | sharing/nearby_connections_manager_impl.cc:460-491 | at most one request of its own in flight per known endpoint |
| NearbyConnectionsManagers.NearbyConnectionsManagerImpl.OnConnectionInitiated | sharing/nearby_connections_manager_impl.cc:663-687 | keeps the first connection info |
| NearbyConnectionsManagers.NearbyConnectionsManagerImpl.OnConnectionAccepted | sharing/nearby_connections_manager_impl.cc:689-723 | incoming, outgoing pending or outgoing forgotten |
| NearbyConnectionsManagers.NearbyConnectionsManagerImpl.OnConnectionRejected | sharing/nearby_connections_manager_impl.cc:725-736 | answers with the status |
| NearbyConnectionsManagers.NearbyConnectionsManagerImpl.OnDisconnected | sharing/nearby_connections_manager_impl.cc:738-765 | answers with the recorded status and forgets the connection |
| NearbyConnectionsManagers.NearbyConnectionsManagerImpl.OnDisconnectAnswered | sharing/nearby_connections_manager_impl.cc:480-489 | as a disconnection, then forgets the request |
| NearbyConnectionsManagers.NearbyConnectionsManagerImpl.DisconnectConnections | sharing/nearby_connections_manager_impl.cc:920-928 | the loop requests a disconnect for every connection, whatever was requested before |
| NearbyConnectionsManagers.NearbyConnectionsManagerImpl.OnResetRequestAnswered | sharing/nearby_connections_manager_impl.cc:921-926 | the answer only ends the request |
| NearbyConnectionsManagers.NearbyConnectionsManagerImpl.Reset | sharing/nearby_connections_manager_impl.cc:917-952 | disconnects all connections, clears, then answers each pending callback once in the map's order |
| Advertisements.RoundTripIff | sharing/advertisement.cc:159-277 | an advertisement parses back to itself if and only if its version is 0, salt and key have their sizes, the name is absent or of 1 to 255 bytes and the vendor is 0 or 1 |
| Advertisements.ParsePrintParse | sharing/advertisement.cc:159-277 | parsing, printing and parsing again equals parsing, for all bytes |
| Advertisements.PrintedWithTailParses | sharing/advertisement.cc:245-271 | any well-formed elements and at most one byte after a printed advertisement change only the vendor, to the last one given |
| Advertisements.OtherTlvsKeepVendor | sharing/advertisement.cc:261-270 | elements of other types change nothing |
| Advertisements.TailParsesIff | sharing/advertisement.cc:245-271 | a tail is accepted if and only if it is a list of elements with one-byte vendors and at most one byte over |
| Advertisements.AcceptedIff | sharing/advertisement.cc:197-277 | exactly which byte strings are accepted |
| Advertisements.ParsedIsFaithful | sharing/advertisement.cc:126-157 | only round-tripping advertisements come out of parsing |
| Advertisements.VersionOneReadsAsZero | sharing/advertisement.cc:210-215 | setting the version bit changes nothing |
| Advertisements.FirstByteReadsBack | sharing/advertisement.cc:80-122 | name flag and device type read back, the version modulo eight |
| Advertisements.MasksAndShifts | sharing/advertisement.cc:80-122 | the arithmetic of the model is what the masks and shifts compute on eight bits |
| Advertisements.ToEndpointInfo | sharing/advertisement.cc:159-195 | the appending code prints that layout |
| Advertisements.FromEndpointInfo | sharing/advertisement.cc:197-277 | the reading code parses it, in bounds |
| Advertisements.ReadName | sharing/advertisement.cc:227-242 | length byte, then that many bytes, or refusal |
| Advertisements.ReadTail | sharing/advertisement.cc:244-271 | the loop over elements |
| Introductions.RoundTripIff | sharing/incoming_share_session.cc:85-184 | a filled frame is accepted and rebuilds the same attachments in order if and only if no id is 0, sizes are positive and the file total fits 64 bits |
| Introductions.AcceptedIff | sharing/incoming_share_session.cc:85-184 | an arbitrary frame is accepted if and only if sizes are positive, every apk has a size and a payload, file and declared app sizes fit 64 bits together and it brings an attachment |
| Introductions.MisreadIff | sharing/incoming_share_session.cc:134-146 | an app's lists are read past their end if and only if the reading reaches an app with fewer sizes or payloads than names |
| Introductions.MisreadIsReachable | sharing/incoming_share_session.cc:134-146 | an app of one name without size or payload |
| Introductions.FilesReadIff | sharing/incoming_share_session.cc:87-112 | the running sum never leaves 64 bits; files are read if and only if sizes are positive and their total fits |
| Introductions.AppsReadIff | sharing/incoming_share_session.cc:114-148 | the same for apps, whose lists must match |
| Introductions.FilesRebuilt | sharing/incoming_share_session.cc:89-112 | each file is rebuilt in order, with a random id for 0 |
| IntroductionEntries.AcceptedEntries | sharing/incoming_share_session.cc:85-178 | the attachments rebuilt from any accepted frame have its ids and sizes in order, random ids drawn in turn for those without, and each payload is recorded under its own key |
| IntroductionLookup.LookupIff | sharing/incoming_share_session.cc:283-372 | for every accepted frame and whatever ids are drawn, every rebuilt attachment finds its own payload by its own id if and only if payloads recorded under the same id other than 0 agree and what was recorded under 0 was by chance also recorded under the id drawn |
| IntroductionLookup.FreshLookupIff | sharing/incoming_share_session.cc:283-372 | when the ids that the frame draws differ from each other and from its own, if and only if no file, text or Wi-Fi id is 0 and no two that share an id have different payloads, apks included |
| IntroductionLookup.FreshIsPossible | sharing/attachment.cc:29-32 | such ids exist for every frame whose own leave as many free at the top of the range as it draws |
| IntroductionLookup.ZeroIdFindsNothing | sharing/attachment.cc:45-49 | whatever id is drawn, a single file sent with id 0 is accepted and does not find its payload |
| IntroductionLookup.MapRoundTrip | sharing/outgoing_share_session.cc:239-294 | a filled frame without id 0 lets every attachment find its payload if and only if ids determine payloads, whatever is drawn; one with id 0 does not when drawn ids are new; and when ids determine payloads the receiver's map is the sender's |
| IntroductionEntries.OrderDoesNotMatter | sharing/share_session.cc:209-212 | pairs in which ids determine payloads give the same map in any order |
| IntroductionLookup.OverflowClears | sharing/incoming_share_session.cc:105-131 | any frame refused for its total leaves no attachment, and recorded payloads of exactly those before the total overflowed and of the file that did it, if one did |
| AttachmentSizes.TotalFitsIff | sharing/attachment_container.cc:35-51 | for every accepted frame the total is computed without overflow if and only if apk sizes added to the file sizes one by one stay within 64 bits and all sizes, texts and SSIDs included, fit together |
| AttachmentSizes.GetTotalAttachmentsSize | sharing/attachment_container.cc:35-51 | the three loops add up files, texts and Wi-Fi credentials, or overflow exactly when some partial sum leaves 64 bits |
| AttachmentSizes.TextSizesEscapeTheGuard | sharing/incoming_share_session.cc:150-162 | an accepted frame of a file and a text whose total overflows |
| AttachmentSizes.ApkSizesEscapeTheGuard | sharing/incoming_share_session.cc:126-147 | an accepted frame of one small app whose apk sizes overflow |
| IntroductionSessions.OutgoingIntroduction.FillIntroductionFrame | sharing/outgoing_share_session.cc:239-294 | refuses empty or mismatched vectors, else writes each attachment with its payload id |
| IntroductionSessions.IncomingIntroduction.ProcessIntroduction | sharing/incoming_share_session.cc:85-184 | files, apps, texts and Wi-Fi credentials in turn, with each refusal |
| IntroductionSessions.IncomingIntroduction.ProcessFiles | sharing/incoming_share_session.cc:89-112 | size check, attachment, map entry, overflow guard, in that order |
| IntroductionSessions.IncomingIntroduction.ProcessApps | sharing/incoming_share_session.cc:114-148 | size check and guard before the files of an app are added, whose lists may not match |
| IntroductionSessions.IncomingIntroduction.ProcessApkFiles | sharing/incoming_share_session.cc:132-147 | one file attachment for each name, until a size or payload is missing |
| IntroductionSessions.IncomingIntroduction.ProcessTexts | sharing/incoming_share_session.cc:150-162 | size check, attachment, map entry |
| IntroductionSessions.IncomingIntroduction.ProcessWifis | sharing/incoming_share_session.cc:164-176 | attachment and map entry |
| VisibilitySettings.EveryRun | sharing/nearby_sharing_settings.cc:139-181 | over any changes, expiries and restarts, from a stored fallback other than everyone, the fallback is never everyone, equals its stored copy and, while everyone is in force, is the most recent other visibility; a running timer ends less than a second after the stored expiry |
| VisibilitySettings.TemporaryEnds | sharing/nearby_sharing_settings.cc:139-181 | a temporary visibility ends in the most recent one other than everyone, through restarts and whether the timer fires or a restart finds it expired |
| VisibilitySettings.RestartKeepsDeadline | sharing/nearby_sharing_settings.cc:165-173 | a restart moves the end by less than a second and never beyond the maximum |
| VisibilitySettings.SetVisibilityKeeps | sharing/nearby_sharing_settings.cc:242-287 | setting a visibility makes the most recent other one the fallback |
| VisibilitySettings.TemporaryRestoresIff | sharing/nearby_sharing_settings.cc:139-181 | that is the visibility it replaced if and only if that one was not everyone |
| VisibilitySettings.EveryoneIsNotRestored | sharing/nearby_sharing_settings.cc:139-155 | everyone, hidden for five minutes, and then the stored fallback |
| VisibilitySettings.StoredEveryoneOutlivesRestart | sharing/nearby_sharing_settings.cc:157-181 | a stored fallback of everyone after a restart |
| VisibilitySettings.StoredEveryoneKeptIff | sharing/nearby_sharing_settings.cc:157-181 | in every run the fallback is everyone if and only if it was stored so and no visibility other than everyone has been replaced since, by the client or by expiry |
| NearbyShareSettingsModel.NearbyShareSettings.constructor | sharing/nearby_sharing_settings.cc:70-97 | reads the fallback and expiry from the preferences |
| NearbyShareSettingsModel.NearbyShareSettings.GetVisibility | sharing/nearby_sharing_settings.cc:228-240 | selected contacts read as self share |
| NearbyShareSettingsModel.NearbyShareSettings.RestoreFallbackVisibility | sharing/nearby_sharing_settings.cc:157-181 | resumes, ends or ignores a temporary visibility |
| NearbyShareSettingsModel.NearbyShareSettings.SetVisibility | sharing/nearby_sharing_settings.cc:242-287 | caps the duration, records fallback and expiry, restarts the timer |
| NearbyShareSettingsModel.NearbyShareSettings.SetFallbackVisibility | sharing/nearby_sharing_settings.cc:326-338 | everyone is not recorded |
| NearbyShareSettingsModel.NearbyShareSettings.OnVisibilityTimerExpired | sharing/nearby_sharing_settings.cc:139-155 | returns to the fallback |
| NearbyShareSettingsModel.NearbyShareSettings.GetFallbackVisibility | sharing/nearby_sharing_settings.cc:308-324 | shown only while the timer runs |
| TokenHash.HashIsPolynomial | sharing/share_session.cc:56-70 | for every byte sequence the hash stays strictly within the modulus, is congruent to the sum of signed byte i times 31 to the i, and no operation of the next round leaves 32 bits |
| TokenHash.TokenIsFourDigits | sharing/share_session.cc:56-70 | the token is exactly four decimal digits whose value is that hash up to sign |
| TokenHash.TokenToFourDigitString | sharing/share_session.cc:56-70 | the loop over hash and multiplier computes it |

## Left out

* Logging, analytics, `Dump`, observers and fakes.
* Protobuf encoding, certificates, signatures and random bytes: certificates in the handshake are symbolic keys, and
  random ids are a function giving positive numbers.
* Threads and locks: each entry point is one step and each timer a step of its own. Interleavings between the two
  locked sections of `Done`, and between the two of the work posted after a disconnect request, are not modelled.
* Medium selection, feature flags and connectivity checks in connecting and advertising; fast initiation itself is
  two flags. A failure that fast initiation scanning reports later is not a step of `Surfaces`.
* The services a manager may lack (a null connections service in `Connect`) and payload content, file and disk access.
* The receiver's batch loop, which stops at completion to finalize payloads (sharing/incoming_share_session.cc:455-499).
* Session callbacks that run inside the removal of a target (sharing/outgoing_targets_manager.cc:221) are steps of
  `SessionLifetime` and `Surfaces`, not of `OutgoingTargets`.
* Speed and remaining-time figures, apart from the sample the unsigned subtraction uses; whether a sample is due is an
  argument of an update. The progress percentage is exact division, not floating point.
- PayloadAccounting.EveryRun: counts in unbounded numbers, so a total beyond 64 bits does not wrap as it would in the source.
- OutgoingShareSessions.OutgoingShareSession.OnOutgoingPayloadTransferUpdates: the disconnection after a failure is recorded as requested; what follows it is in SessionLifetime.
- OutgoingTransfer.NeverStalls: asks that payloads succeed with exactly their tracked size, because without that the pump does stall; SuccessSendsNextIff gives the exact condition.
- FrameReader.EveryRun: asks for one request at a time, as the header does, and for typed reads to carry a timeout, because Done re-issues a read without one as untyped.
- SharingServices.NearbySharingServiceImpl.Cleanup: covers the flags and surfaces; sessions and targets are in their own modules.
- NearbyConnectionsManagers.NearbyConnectionsManagerImpl.OnConnectionTimedOut: the timer's own cancellation is not modelled beyond its leaving the map.
- IntroductionSessions.IncomingIntroduction.ProcessIntroduction: stops where the source indexes an app's lists past their end; what the undefined behaviour does is not modelled.
- AttachmentSizes.GetTotalAttachmentsSize: gives no total where the source's signed sum overflows, which is undefined.
- IntroductionLookup.FreshLookupIff: asks that the ids drawn for the frame are new, which the source makes likely but does not ensure; LookupIff does without.
- Advertisements.FromEndpointInfo: works on the sequence of bytes instead of iterators into a buffer.
- NearbyShareSettingsModel.NearbyShareSettings.SetVisibility: preference observers are not notified.
