# A verified model of the robot dashboard's safety and data paths

The dashboard lets a browser drive a legged robot, plan over saved maps, start a navigation stack and
record camera datasets. This project models the parts of it whose correctness is a matter of whole runs
rather than single calls, and proves what the program relies on. Time is a nondecreasing real number
handed to every step; whatever a lock makes atomic in the program is one step here.

**Motion safety.** `ControlCore`, `ControlObject`, `ControlRuns`, `ControlTheorems` and `ControlHistory` are
the dashboard's lease and intent manager, with `ClientClock` for the age of browser frames; `BridgeCore`,
`BridgeObject`, `BridgeRuns`, `BridgeTheorems`, `BridgeAdmission`, `BridgeReplay`, `BridgeOwner` and
`BridgeHistory` are the independent watchdog beside the robot; `BridgeNode` is the node around it, an object whose invariant is that everything it has done is a run
of the watchdog, and `ControlLink` composes both ends over a channel that may delay, drop, duplicate and
reorder.
`RequestEvidence` and `MotionObservation` are the two monitors. `Wire` and `SportApi` hold the values on
the wire. "Moving" means that some axis of a request is above 1e-6 in magnitude.

**Algorithms and state machines beside it.** `GridProbe` is the offline connectivity search;
`CollisionMask` and `CollisionRaster` are the keep-out rasteriser, and `EvenOdd` and `MapZones` carry what it
does from grid cells back to the map and the zones as drawn; `JpegFraming` and `JpegReaders` cut
frames out of a byte stream; `NavLifecycle`, `NavStarts` and `NavManager` are the navigation job manager under
free interleaving; `PublicLog` is its bounded log; `NavNames`, `YamlTree`, `NavParameters` and `NavRoundTrip`
are its parameter document; `HealthClassifier`, `Readiness` and `ReadinessObject` decide when
localization is ready; `DatasetStore` and `DatasetWriter` commit and recover recorded samples.

The usual shape is a value function for each operation (`...Core`), a class whose methods update fields
as the program's do and are proved equal to those functions, runs of such steps with a log, reference
readings of the log that do not mention the state, and theorems that connect the two. For both ends of the
motion path the last of these are exact: `BridgeHistory.RunIsExpected` and `ControlHistory.RunIsExpected` give
every effect, answer and output of every run as a function of what came before it.

Premises written into the statements: clocks do not run backwards; the transport numbers envelopes
upwards and stamps them with their tick time; a navigation start is not admitted while a stop call is
still running, since one coordination lock surrounds both; recovery acts only on a manifest whose durable
state is an active one. An emergency stop clears the action guard, so guard claims except it.

Five things the code does not do, each with an input that shows it and its exact boundary.

- A command's number is not refused for ever. The table keeps the last sixteen sources that arrived; a
  source's numbers may be taken again once more newcomers have stored a number than there were free entries
  and entries older than its own (`ReplayIsExact`, `RememberedExactly`, `NoReplay`). `ReplayIsTaken` is such a
  run: sixteen sources, a copy refused, a seventeenth source, the same copy taken.
- Pruning the raster to a bounding box does lose cells at the full numerical margin, exactly those a polygon's
  lowest coordinate touches (`PrunedThoughTouched`, with an instance in `PruningIsNotExact`); at any smaller
  margin it loses none.
- A frame reader that cuts its buffer may lose a frame, exactly when it drops an oversized open frame (camera)
  or noise ending in the first marker byte (decoder): `CameraIsExact` and `DecoderIsExact` over whole streams,
  `CameraCutIsHarmless` and `DecoderCutIsHarmless` for one cut, `CameraLosesAFrame` and `DecoderLosesAFrame` for
  the inputs.
- A stopped navigation start does not always leave an idle record. Once a stop has been called and nothing is
  admitted after it, at rest no group and no directory is left, and the record is idle unless the last thing to
  settle was the stopped start's own failure, which the stop leaves it the token for (`StopTakesTheJobDown`;
  `StopThenFailure` is such a run).
- Recovery restores the sample count exactly while the number still has eight digits or the durable count was
  not behind (`RecoveryRestores`). `LongSessionIsUndercounted` is a session it undercounts; it needs a hundred
  million samples and so a quota far above the default.

## Model

| member | source | states |
|---|---|---|
| BridgeObject.Go2BridgeCore.ForceStop | robot_dashboard/go2_bridge.py:903-915 | a forced stop disarms, owes a StopMove, drops every window and pending action and voids a held inhibit |
| BridgeObject.Go2BridgeCore.AcceptSource | robot_dashboard/go2_bridge.py:746-763 | a number is taken once per source, ownership passes only after the source timeout or for a stop, the table keeps sixteen sources; `BridgeOwner.OwnerIsLastPass` says what the three fields mean |
| BridgeObject.Go2BridgeCore.AcceptInhibit | robot_dashboard/go2_bridge.py:808-834 | taking and releasing the observation inhibit, with every refusal |
| BridgeObject.Go2BridgeCore.AcceptAction | robot_dashboard/go2_bridge.py:846-869 | an action disarms, waits 0.10 s behind a StopMove and opens its hold and in-flight windows |
| BridgeObject.Go2BridgeCore.AcceptDrive | robot_dashboard/go2_bridge.py:871-901 | a drive arms with the cut target and an issue time that counts the transport age |
| BridgeObject.Go2BridgeCore.Accept | robot_dashboard/go2_bridge.py:782-901 | the whole acceptance, every check in its order, equals the value specification, which `BridgeHistory.RunIsExpected` gives from the history alone |
| BridgeObject.Go2BridgeCore.Steer | robot_dashboard/go2_bridge.py:975-1019 | the choice between movement, watchdog stop, idle stop and silence; `BridgeHistory.MovesExactly` says when it is a movement |
| BridgeObject.Go2BridgeCore.Tick | robot_dashboard/go2_bridge.py:925-1019 | one tick's requests and new state equal the value specification, which `BridgeHistory.RunIsExpected` gives from the history alone |
| BridgeCore.Configure | robot_dashboard/go2_bridge.py:609-685 | the limits are refused exactly when not positive finite numbers (booleans read as 1 and 0), else inside the hard ones and never raised; the command timeout is at most 0.20 s |
| BridgeAdmission.ArmsExactly | robot_dashboard/go2_bridge.py:782-901 | a drive arms the robot exactly when it is current, owned, uninhibited, outside every action window, pressed and finite |
| BridgeAdmission.QueuesExactly | robot_dashboard/go2_bridge.py:846-869 | an action is taken exactly when current, owned, allow-listed, uninhibited and no hold runs |
| BridgeAdmission.StopsExactly | robot_dashboard/go2_bridge.py:836-844 | a stop takes effect exactly when its number is new: no ownership, readiness or freshness is asked |
| BridgeReplay.TableIsRecent | robot_dashboard/go2_bridge.py:746-763 | after every run the table holds the last sixteen sources that arrived, each with its last stored number |
| BridgeReplay.ReplayIsExact | robot_dashboard/go2_bridge.py:746-749 | a valid command is refused as a replay exactly when its source is among those sixteen and its number is not above the last one stored from it |
| BridgeReplay.RememberedExactly | robot_dashboard/go2_bridge.py:746-763 | a source stays in the table from one event to another exactly when no more sources arrive in between than there were free entries and entries older than its own |
| BridgeReplay.NumbersNeverRewind | robot_dashboard/go2_bridge.py:746-763 | a recorded number falls only after its source has been forgotten |
| BridgeReplay.NoReplay | robot_dashboard/go2_bridge.py:746-763 | a number that was stored, and every lower one, is refused from its source while the source outlasts the newcomers; a valid copy is refused as a replay for exactly that long, unless a later number was stored |
| BridgeReplay.SixteenSourcesAreKept | robot_dashboard/go2_bridge.py:755-760 | nothing is forgotten while at most sixteen sources have stored a number |
| BridgeReplay.ReplayIsTaken | robot_dashboard/go2_bridge.py:746-763 | with a seventeenth source an already used stop number of the oldest takes effect again |
| BridgeAdmission.ForgottenExactly | robot_dashboard/go2_bridge.py:746-763 | a source is forgotten exactly when it is the oldest of sixteen and a seventeenth is stored |
| BridgeOwner.OwnerIsLastPass | robot_dashboard/go2_bridge.py:746-763 | after every run the owner, the time it was last heard and the stored numbers are those of the commands that passed the number and ownership checks, read off the commands that arrived |
| BridgeOwner.OwnershipIsExact | robot_dashboard/go2_bridge.py:750-756 | a well formed command with a new number is turned away as foreign exactly when it is no stop and the last command that passed came from another source no longer than the source timeout ago |
| BridgeOwner.OnlyPassesTakeEffect | robot_dashboard/go2_bridge.py:746-763 | a command takes an effect only when it passes |
| BridgeRuns.RunKeeps | robot_dashboard/go2_bridge.py:782-1019 | the watchdog's fields agree with the log readings after every run |
| BridgeTheorems.ArmedByMeans | robot_dashboard/go2_bridge.py:871-901 | the reading `ArmedBy` in plain words: an accepted pressed drive with no later drive, stop, action or unready tick |
| BridgeTheorems.MoveIsJustified | robot_dashboard/go2_bridge.py:992-1008 | a MOVE is published only on a ready tick for the latest accepted pressed drive, nothing having stopped it since, no older than the timeout, inside the limits |
| BridgeTheorems.MotionIsRenewedOrStopped | robot_dashboard/go2_bridge.py:925-1019 | after a nonzero MOVE the next tick publishes one more justified MOVE or opens with StopMove |
| BridgeTheorems.StopComesInTime | robot_dashboard/go2_bridge.py:925-1019 | with ticks at most D apart, StopMove comes within the timeout plus D of the last drive's issue |
| BridgeTheorems.StopIsFlushed | robot_dashboard/go2_bridge.py:970-973 | the first tick after a stop, forced stop or action opens with StopMove |
| BridgeTheorems.MovementNeedsNewDrive | robot_dashboard/go2_bridge.py:836-968 | after any of them, or an unready tick, a movement needs a newly accepted drive |
| BridgeTheorems.ActionWindow | robot_dashboard/go2_bridge.py:846-996 | an undisturbed window publishes exactly one StopMove and then, from 0.10 s on, exactly one action: no MOVE and no idle StopMove |
| BridgeTheorems.ActionIsOwed | robot_dashboard/go2_bridge.py:970-990 | every action request answers the one waiting acceptance, at least 0.10 s old, after a StopMove, and uses it up |
| BridgeTheorems.ActionsAreNotRepeated | robot_dashboard/go2_bridge.py:846-990 | in every run no more action requests go out than were accepted |
| BridgeTheorems.HolderMeans | robot_dashboard/go2_bridge.py:808-834 | the inhibit in force, in plain words, violated flag included |
| BridgeTheorems.InhibitedTicksOnlyStop | robot_dashboard/go2_bridge.py:832-1019 | while an inhibit is held every published request is StopMove |
| BridgeTheorems.InhibitIsExclusive | robot_dashboard/go2_bridge.py:808-834 | it is taken only when free and released only by its own token and source |
| BridgeTheorems.InhibitRecordIsExact | robot_dashboard/go2_bridge.py:808-957 | the violated flag is set exactly when a tick was not ready, a stop was forced or a drive or action reached the inhibit check |
| BridgeHistory.ReadyMeansSound | robot_dashboard/go2_bridge.py:687-720 | a tick counts as ready exactly with telemetry no older than its limit, one publisher of it, one reader of the requests, and as their writers this process and the expected bare ones alone |
| BridgeHistory.MovesExactly | robot_dashboard/go2_bridge.py:998-1008 | a tick publishes a movement exactly when it is ready and the log is armed by a drive no older than the command timeout; it is that drive's, comes last, and at most the owed stop precedes it |
| BridgeHistory.RunIsExpected | robot_dashboard/go2_bridge.py:782-1019 | every command has exactly the effect, and every tick publishes exactly the requests, that the commands passed, a small fold of the log and the inhibit in force before it call for |
| BridgeHistory.AcksAreLast | robot_dashboard/go2_bridge.py:765-780 | the two acknowledgements in the record are the last command that took effect and the last inhibit released |
| BridgeHistory.ForcedReasonIsCut | robot_dashboard/go2_bridge.py:903-915 | a caller's reason for a forced stop is kept, cut to its first 160 characters |
| BridgeNode.Go2ControlBridge.CommandCallback | robot_dashboard/go2_control_bridge.py:308-334 | a refused or undecodable command forces a stop, an accepted one asks for an early status, a closing node ignores both; the node stays on a run of the watchdog |
| BridgeNode.Go2ControlBridge.Tick | robot_dashboard/go2_control_bridge.py:437-490 | a tick publishes what the watchdog says, in order, and records it; a due status that cannot be sent forces a stop; the node stays on a run of the watchdog |
| BridgeNode.Go2ControlBridge.StopSafely | robot_dashboard/go2_control_bridge.py:492-519 | shutdown forces a stop, publishes three StopMoves and closes the timer for good |
| BridgeNode.HearRuns | robot_dashboard/go2_control_bridge.py:308-334 | what a command callback leaves of the node is where the watchdog is after one more command, and a forced stop if it was refused |
| BridgeNode.TickRuns | robot_dashboard/go2_control_bridge.py:449-490 | a timer step is one more tick of the run, and a forced stop when the status cannot be sent |
| BridgeNode.NodeMovesAreJustified | robot_dashboard/go2_control_bridge.py:467-478 | a movement a node publishes rests on the drive everything that has happened to it leaves armed, on a ready tick, no older than the timeout, inside the limits |
| BridgeNode.PublishedIsWellMade | robot_dashboard/go2_bridge.py:916-1019 | everything a run publishes is a StopMove, an allow-listed action or a MOVE inside the limits |
| BridgeNode.WatchdogFeedsCleanEvidence | robot_dashboard/go2_bridge.py:462-565 | fed by any run of the watchdog the monitor counts nothing malformed and its maxima stay inside the hard limits |
| ControlCore.Configure | robot_dashboard/control.py:227-366 | whatever the profile holds every setting is inside its range, one readable and inside it is used as it stands, and control is enabled exactly when profile and startup both say so |
| ControlObject.ControlManager.RequireLease | robot_dashboard/control.py:536-562 | the gate of every message: expiry first, then token, binding and readiness |
| ControlObject.ControlManager.AcquireLease | robot_dashboard/control.py:456-514 | when a lease is granted and what it starts from |
| ControlObject.ControlManager.BindLease | robot_dashboard/control.py:516-534 | the first binding is taken and renews the lease, the same one again changes nothing, another is refused |
| ControlObject.ControlManager.Heartbeat | robot_dashboard/control.py:573-580 | a higher number renews the lease, any other is refused |
| ControlObject.ControlManager.SubmitDrive | robot_dashboard/control.py:602-661 | an accepted drive request replaces the intent, its issue time set back by the client's age; `ControlTheorems.ParseIsExact` says which are accepted and what they ask for |
| ControlObject.ControlManager.RequestAction | robot_dashboard/control.py:676-720 | an accepted action puts out a stop and the action, ends the lease and opens the guard |
| ControlObject.ControlManager.EmergencyStop | robot_dashboard/control.py:791-805 | the latch ends the lease, clears the guard and puts out a stop |
| ControlObject.ControlManager.ClearEmergencyStop | robot_dashboard/control.py:807-825 | the latch is cleared only on confirmation while ready; with no stop latched the call is a snapshot, timers included |
| ControlObject.ControlManager.Observe | robot_dashboard/control.py:431-454 | losing readiness revokes the lease behind a stop |
| ControlObject.ControlManager.ReleaseLease | robot_dashboard/control.py:775-789 | releasing ends the lease behind a stop |
| ControlObject.ControlManager.Tick | robot_dashboard/control.py:863-927 | one timer step and the drained queue equal the value specification |
| ControlObject.ControlManager.Close | robot_dashboard/control.py:996-1007 | closing ends the lease behind a stop and refuses everything after |
| ControlRuns.SlewIsGentle | robot_dashboard/control.py:835-837 | each axis moves towards its target, never past it, by at most its reach |
| ControlHistory.SlewIsApproach | robot_dashboard/control.py:835-837 | an axis reaches its target when that is in reach and moves by its whole reach towards it otherwise |
| ControlRuns.RunKeeps | robot_dashboard/control.py:456-1010 | the manager's fields agree with the output stream and the log after every run |
| ControlTheorems.UnleasedIsStill | robot_dashboard/control.py:739-861 | no lease implies no intent, zero velocity and a stream empty or ending in a stop or action; a latched stop holds no lease |
| ControlTheorems.LeasesAreSeparated | robot_dashboard/control.py:456-495 | drives of two leases are separated by a stop |
| ControlTheorems.MessagesNeedTheGrant | robot_dashboard/control.py:536-562 | a message is accepted only under the latest grant, by its token, while it lasts |
| ControlTheorems.GoneForGood | robot_dashboard/control.py:739-789 | once a lease is gone no message with its token is accepted unless that token is granted again |
| ControlTheorems.DriveIsFreshAndSmooth | robot_dashboard/control.py:835-921 | every drive put out is fresh with the client's age counted, within limits, between the last velocity and the target, and within slew times elapsed of the former |
| ControlTheorems.ParseIsExact | robot_dashboard/control.py:582-661 | a request is taken exactly with three axes between -1 and 1, a numeric scale, a boolean deadman and an age within the source's timeout; each axis is then its own fraction of its own limit times the scale cut to 0.1 to 1 |
| ControlTheorems.RequestMakesIntent | robot_dashboard/control.py:602-661 | an accepted drive request is the intent the stream is judged by: its own number, deadman, source and axes, each a fraction of its own limit, issued as long before as the client says |
| ControlTheorems.SilenceRevokes | robot_dashboard/control.py:755-773 | any tick past the timeout of a pressed intent that nothing renewed leaves no lease, and a stop has been put out |
| ControlTheorems.SilenceEndsTheLease | robot_dashboard/control.py:755-927 | with ticks at most D apart, some tick within the timeout plus D of the last drive's issue leaves no lease, a stop is out by then, and from there no message is accepted without a new grant of its token |
| ControlTheorems.ActionEndsLease | robot_dashboard/control.py:676-720 | an action goes out only right after the stop of the same accepted call, which ends its lease |
| ControlTheorems.ClosedIsUnleased | robot_dashboard/control.py:996-1007 | a closed manager never holds a lease again |
| ControlTheorems.NoLeaseDuringGuard | robot_dashboard/control.py:424-495 | without an emergency stop no lease exists, and no other action is accepted, until an action's guard has run out |
| ControlHistory.RunIsExpected | robot_dashboard/control.py:456-1010 | every call of every run is answered, puts out envelopes and leaves a lease or not exactly as the readings of the log before it call for, the velocity of every drive included |
| ClientClock.ClientFrameClock.Validate | robot_dashboard/control.py:196-220 | the age of a frame, or exactly why it is refused; a refused frame changes nothing |
| ClientClock.FramesAreJudged | robot_dashboard/control.py:204-220 | in any series a frame is judged by its lag behind the bind frame, how much that grew since the last frame taken, and the order of both clocks |
| ClientClock.TimeIsExact | robot_dashboard/control.py:196-202 | a time is any number that is not negative, and nothing else |
| ClientClock.TakenFramesAreFresh | robot_dashboard/control.py:175-220 | in any series every frame taken lags the bind frame by at most 200 ms, is ahead by at most 500 ms, and no clock runs backwards |
| ClientClock.TransitIsBounded | robot_dashboard/control.py:175-220 | whatever constant the clocks differ by, a frame taken was under way at most 200 ms longer than the bind frame |
| ControlLink.MoveTracesToIntent | robot_dashboard/ros/control_transport.py:1619-1743 | over any such channel every published MOVE carries the cut velocity of a sent drive whose intent is younger than both timeouts together (0.4 s manual, 0.5 s navigation), sent after every stop delivered so far |
| ControlLink.StopOutranksEarlierDrives | robot_dashboard/go2_bridge.py:746-763 | once a stop is delivered no earlier-issued drive restarts motion |
| ControlLink.ShutdownOnlyStops | robot_dashboard/go2_control_bridge.py:449-519 | from shutdown on only StopMove is published |
| ControlLink.ArrivalIsACallback | robot_dashboard/go2_control_bridge.py:308-334 | a copy arriving over the channel does to the bridge exactly what the node's command callback does |
| ControlLink.PulseIsATick | robot_dashboard/go2_control_bridge.py:449-490 | a pulse is the node's timer step while its status transport works |
| ControlLink.FailedStatusIsAFault | robot_dashboard/go2_control_bridge.py:420-490 | a timer step whose due status cannot be sent is a pulse and a fault |
| ControlLink.ShutdownIsTheFarewell | robot_dashboard/go2_control_bridge.py:492-519 | a shutdown is the node's own, its three StopMoves included |
| RequestEvidence.SportRequestEvidence.Record | robot_dashboard/go2_bridge.py:509-565 | the incremental fields stay equal to the reference report of the whole published history |
| RequestEvidence.AdvanceIsExact | robot_dashboard/go2_bridge.py:488-565 | updating the report by one request gives the saturated folds of the longer history |
| RequestEvidence.LastRunGrows | robot_dashboard/go2_bridge.py:525-565 | how the last motion run changes with one more request |
| RequestEvidence.RunShape | robot_dashboard/go2_bridge.py:525-565 | a run is open exactly when one has started and nothing has ended it since |
| RequestEvidence.ReportSplits | robot_dashboard/go2_bridge.py:509-565 | unsaturated, published splits into stops, moves, actions and others, and moves into zero, nonzero and malformed |
| RequestEvidence.KindsAreExact | robot_dashboard/go2_bridge.py:488-565 | what is counted as a stop, an allow-listed action, a zero, nonzero or malformed movement, or anything else |
| RequestEvidence.PeakCovers | robot_dashboard/go2_bridge.py:525-565 | the reported maxima cover every well-formed movement published |
| RequestEvidence.PeakIsLeast | robot_dashboard/go2_bridge.py:525-565 | and nothing smaller does |
| MotionObservation.SportModeStateObservation.ObserveMotion | robot_dashboard/go2_bridge.py:267-336 | a sample is taken exactly when nothing was refused before and it fits the last one; the counts, the last gap, the reset flag and the reason of the first refusal are exactly those of that verdict |
| MotionObservation.SportModeStateObservation.Compare | robot_dashboard/go2_bridge.py:278-328 | a sample fits, repeats or is refused exactly as judged against the last accepted one |
| MotionObservation.SportModeStateObservation.MotionQuality | robot_dashboard/go2_bridge.py:396-459 | the evidence is reported ready exactly while unbroken and recent |
| MotionObservation.TakenExactly | robot_dashboard/go2_bridge.py:267-328 | a message is taken exactly when nothing was refused before, it is well formed and its sample continues the chain; it is a duplicate exactly when it repeats the last stamp |
| MotionObservation.PositionIsExact | robot_dashboard/go2_bridge.py:209-235 | a position is read exactly off three bounded numbers in their order |
| MotionObservation.StampIsExact | robot_dashboard/go2_bridge.py:237-255 | a stamp is read exactly off its seconds and the nanoseconds that remain |
| MotionObservation.GapIsExact | robot_dashboard/go2_bridge.py:310-326 | a gap is within so many milliseconds exactly when the time passed is |
| MotionObservation.AgeIsExact | robot_dashboard/go2_bridge.py:396-459 | an age is within a limit exactly when the time passed is |
| MotionObservation.DeltaIsNearest | robot_dashboard/go2_bridge.py:292-301 | the time between callbacks in nanoseconds, to the nearest one, and nothing when it runs backwards |
| MotionObservation.CountsSaturate | robot_dashboard/go2_bridge.py:267-336 | a counter holds the number of its events as far as 32 bits reach |
| MotionObservation.StampsIncrease | robot_dashboard/go2_bridge.py:267-336 | accepted stamps strictly increase |
| MotionObservation.DisplacementIsBounded | robot_dashboard/go2_bridge.py:267-336 | after k accepted steps the net displacement is at most k metres |
| MotionObservation.SourceTimeIsBounded | robot_dashboard/go2_bridge.py:267-336 | source time advances by at most the elapsed callback time plus 250 ms a step |
| MotionObservation.MaxGapIsTheMaximum | robot_dashboard/go2_bridge.py:396-459 | the reported gap is the true maximum and within the stale limit |
| GridProbe.CenterLiesInCell | robot_dashboard/offline_plan_probe.py:20-39 | a cell's centre lies in that cell for any rotated origin |
| GridProbe.PointsLieInTheirCell | robot_dashboard/offline_plan_probe.py:20-39 | every point of a cell's square on the map is found in that cell, and in none when the cell is off the grid |
| GridProbe.EveryPointHasACell | robot_dashboard/offline_plan_probe.py:20-39 | every point of the map lies in the square of some cell, on the grid or off it |
| GridProbe.PointIsExact | robot_dashboard/offline_plan_probe.py:42-108 | a point is two finite coordinates in their order, and nothing else |
| GridProbe.NeighboursShareAnEdge | robot_dashboard/offline_plan_probe.py:120-132 | the neighbours of a cell are the four that share an edge with it |
| GridProbe.FirstUnmetRefuses | robot_dashboard/offline_plan_probe.py:42-108 | the probe is refused for the first demand that is not met, in their order, and for nothing else |
| GridProbe.ChainIsCovered | robot_dashboard/offline_plan_probe.py:110-132 | every chain is accounted for although distances are fixed at first discovery |
| GridProbe.Expand | robot_dashboard/offline_plan_probe.py:120-132 | expanding the nearest open cell keeps the tree and the two-layer frontier |
| GridProbe.Search | robot_dashboard/offline_plan_probe.py:110-146 | the rebuilt path is a shortest chain of known-free cells; no connection is reported only when there is none |
| GridProbe.ProbeConnectivity | robot_dashboard/offline_plan_probe.py:42-146 | the whole probe's answer: every rejection in its order, or a shortest chain that passes the route check, or none because there is none |
| CollisionMask.SlabIsAnInterval | robot_dashboard/navigation_collision_mask.py:145-148 | the parameters of a slanted segment inside a slab form one interval |
| CollisionMask.SegmentTouchesCell | robot_dashboard/navigation_collision_mask.py:134-149 | true exactly when some point of the segment lies in the grown closed cell |
| CollisionMask.CrossesMeans | robot_dashboard/navigation_collision_mask.py:159-160 | an edge is counted exactly when it passes the ray's line strictly to the right of the point |
| CollisionMask.CellIntersects | robot_dashboard/navigation_collision_mask.py:152-162 | true exactly when an edge meets the grown cell or its centre is inside by the even-odd rule |
| CollisionMask.SidesAlternate | robot_dashboard/navigation_collision_mask.py:155-161 | going round a closed chain one changes sides an even number of times |
| CollisionMask.PrunedCellsAreClear | robot_dashboard/navigation_collision_mask.py:222-236 | outside the bounding box no edge meets the cell at any margin short of epsilon, and its centre is outside |
| CollisionMask.PrunedThoughTouched | robot_dashboard/navigation_collision_mask.py:222-225 | a cell touched at the full margin is pruned exactly when the polygon's lowest coordinate lies on its upper grown side |
| CollisionMask.PruningIsNotExact | robot_dashboard/navigation_collision_mask.py:222-225 | one such square, at the margin of 1e-9 that is used for an 8 by 8 grid of ordinary coordinates |
| EvenOdd.AnyDirectionDecides | robot_dashboard/navigation_collision_mask.py:152-162 | off its edges a polygon contains a point by the rule's eastward ray exactly when it does by a ray in any other direction |
| EvenOdd.UnseparatedAgree | robot_dashboard/navigation_collision_mask.py:152-162 | two points with no point of the outline between them are both inside or both outside |
| MapZones.ToGridUndoesPlace | robot_dashboard/navigation_collision_mask.py:216-218 | the grid transform undoes the placement of grid points on the map, for every origin, turn and resolution |
| MapZones.PlaceUndoesToGrid | robot_dashboard/navigation_collision_mask.py:216-218 | and the placement undoes the transform |
| CollisionRaster.AdmitZones | robot_dashboard/navigation_collision_mask.py:211-229 | the admitted polygons are the keep-out zones in order, or the first complaint (transform, polygon check, summed work) |
| CollisionRaster.KeepOutsAreTheZones | robot_dashboard/navigation_collision_mask.py:213-229 | all keep-out zones are admitted and no others |
| CollisionRaster.FirstUnmetRefuses | robot_dashboard/navigation_collision_mask.py:175-209 | before the zones are looked at the build is refused for the first demand that is not met, and for nothing else |
| CollisionRaster.FirstObjection | robot_dashboard/navigation_collision_mask.py:213-228 | the zones are refused for the first keep-out zone that is not finite, not simple, or whose work exceeds what is left, and for nothing else |
| CollisionRaster.CostCountsTests | robot_dashboard/navigation_collision_mask.py:226-226 | the cost of a polygon is the number of edge tests its loops make |
| CollisionRaster.PaintPolygon | robot_dashboard/navigation_collision_mask.py:232-236 | one polygon's nested loops paint exactly the cells of its box that it hits |
| CollisionRaster.BuildCollisionMask | robot_dashboard/navigation_collision_mask.py:165-241 | the mask byte of every cell, the image rows, and the first check that fails, for given verdicts of the pin, document and polygon checks; `MapZones` says what the bytes mean on the map |
| CollisionRaster.EveryByteIsACell | robot_dashboard/navigation_collision_mask.py:231-237 | every mask byte is 0 or 100 |
| CollisionRaster.FreeMeansClear | robot_dashboard/navigation_collision_mask.py:231-237 | in grid coordinates, a free byte means a free source cell, no keep-out edge meeting the cell at any margin below epsilon and a centre outside every keep-out polygon |
| CollisionRaster.BlockedHasAReason | robot_dashboard/navigation_collision_mask.py:231-237 | in grid coordinates, a blocked byte has a non-free source or a keep-out zone that hits the cell |
| MapZones.FreeIsClearOnTheMap | robot_dashboard/navigation_collision_mask.py:211-237 | on the map, a free byte means a free source cell, no outline of a keep-out zone as drawn in the cell's square grown by any margin below epsilon, and no point of the square inside such a zone |
| MapZones.BlockedHasAReasonOnTheMap | robot_dashboard/navigation_collision_mask.py:211-237 | on the map, a blocked byte has a non-free source or a keep-out zone whose drawn outline comes within epsilon of the cell's square or which contains the whole square |
| CollisionRaster.RowsReadBack | robot_dashboard/navigation_collision_mask.py:238-241 | the flipped image rows read back as the mask, cell for cell |
| JpegFraming.ParseShape | robot_dashboard/go2_multicast_camera.py:310-325 | every frame cut begins and ends with its markers |
| JpegFraming.LeadingNoise | robot_dashboard/go2_multicast_camera.py:311-318 | bytes before the first start marker do not matter to the frames |
| JpegFraming.ParseResumes | robot_dashboard/go2_multicast_camera.py:302-325 | parsing may be interrupted anywhere and resumed from the leftover |
| JpegFraming.CameraCutIsHarmless | robot_dashboard/go2_multicast_camera.py:312-323 | the camera's cut loses nothing, whatever follows, exactly when the leftover is not an oversized open frame |
| JpegFraming.DecoderCutIsHarmless | robot_dashboard/camera_decoder.py:113-117 | the decoder's cut loses nothing, whatever follows, exactly when oversized noise does not end in a marker's first byte |
| JpegFraming.CameraIsExact | robot_dashboard/go2_multicast_camera.py:302-325 | over a stream the camera agrees with one parse at every chunk boundary, whatever follows, exactly when no open frame outgrows the limit at a boundary |
| JpegFraming.DecoderIsExact | robot_dashboard/camera_decoder.py:98-126 | and the decoder exactly when none of its cuts ends in a marker's first byte |
| JpegFraming.CameraLosesAFrame | robot_dashboard/go2_multicast_camera.py:319-323 | chunks of at most 64 KiB, as the reads return them, from which the camera loses a frame |
| JpegFraming.DecoderLosesAFrame | robot_dashboard/camera_decoder.py:113-117 | chunks of at most 64 KiB from which the decoder loses a frame |
| JpegFraming.CameraIgnoresChunking | robot_dashboard/go2_multicast_camera.py:302-325 | for every chunking in which no open frame outgrows the limit at a boundary, the frames are those of one whole-stream parse |
| JpegFraming.DecoderIgnoresChunking | robot_dashboard/camera_decoder.py:98-126 | the same for the decoder, whenever its cuts are clean |
| JpegFraming.CleanNoiseMakesCleanCuts | robot_dashboard/camera_decoder.py:113-117 | the decoder's cuts are clean if no long run of noise before a chunk boundary ends in a marker's first byte, a condition on the stream alone |
| JpegFraming.ReadersAgree | robot_dashboard/camera_decoder.py:98-126 | the two readers deliver the same frames, each with its own chunking, under those two conditions on the stream |
| JpegFraming.CameraFramesAreWellShaped | robot_dashboard/go2_multicast_camera.py:327-329 | the publisher's shape test never rejects a frame the camera cut |
| JpegReaders.MulticastCamera.PublishJpeg | robot_dashboard/go2_multicast_camera.py:327-345 | only a well-shaped frame reaches the callback, and only one it takes is counted |
| JpegReaders.MulticastCamera.Drain | robot_dashboard/go2_multicast_camera.py:310-325 | the inner loop delivers the parse of its buffer and keeps at most 8 MiB |
| JpegReaders.MulticastCamera.ReadJpegs | robot_dashboard/go2_multicast_camera.py:302-325 | the whole loop delivers what the chunk fold says, with a buffer of at most 8 MiB |
| JpegReaders.CameraDecoder.Drain | robot_dashboard/camera_decoder.py:111-126 | the decoder's inner loop delivers the same parse |
| JpegReaders.CameraDecoder.ReadLoop | robot_dashboard/camera_decoder.py:98-126 | the decoder's loop delivers and counts what its chunk fold says |
| NavLifecycle.RunKeeps | robot_dashboard/navigation_jobs.py:651-829 | the lifecycle invariant holds under every interleaving of starts, stops, deaths and monitors |
| NavLifecycle.EveryGroupHasAnOwner | robot_dashboard/navigation_jobs.py:651-829 | every live group is the registered one of the current token or has a pending step that terminates it |
| NavLifecycle.NoOrphans | robot_dashboard/navigation_jobs.py:651-829 | at rest the live groups and job directories are exactly those of the running job |
| NavLifecycle.ClosedIsEmpty | robot_dashboard/navigation_jobs.py:856-862 | after closing nothing lives at rest |
| NavLifecycle.StaleActorsAreHarmless | robot_dashboard/navigation_jobs.py:777-797 | a starter or monitor of an older token changes nothing of the record and nothing of another job |
| NavLifecycle.StopEndsItsOwnJob | robot_dashboard/navigation_jobs.py:801-829 | the unguarded last section of a stop only clears the token it began with, after taking its group and directory down |
| NavLifecycle.StopActsOnAnyJob | robot_dashboard/navigation_jobs.py:801-810 | a called stop acts exactly when the state is starting, running, stopping or failed, and captures the registered group and directory |
| NavLifecycle.StopEndsIdle | robot_dashboard/navigation_jobs.py:815-829 | the last section of any stop leaves the record idle and nothing registered |
| NavLifecycle.StopTakesTheJobDown | robot_dashboard/navigation_jobs.py:777-829 | whatever the interleaving, at rest after a stop with no start admitted since no group and no directory is left, and the record is idle unless a stopped start's failure settled after the last stop ended |
| NavLifecycle.StopThenFailure | robot_dashboard/navigation_jobs.py:785-829 | a run whose stopped start settles as failed after the stop has ended |
| NavStarts.HistoryTells | robot_dashboard/navigation_jobs.py:670-829 | the record's token is the start admitted last, its stop flag says whether a stop began since, and its closing flag whether closing was asked for |
| NavStarts.AdmitsExactly | robot_dashboard/navigation_jobs.py:670-692 | a new start is admitted exactly when no stop call is running, closing was not asked for, the state is idle or failed and the prerequisites are there |
| NavStarts.CancelledExactly | robot_dashboard/navigation_jobs.py:751-769 | a start is cancelled exactly when another was admitted or a stop began since its own admission |
| NavStarts.StartComesUp | robot_dashboard/navigation_jobs.py:670-776 | in any history a start that is admitted and not interfered with ends with its job running, registered and watched |
| NavStarts.StartComesToRest | robot_dashboard/navigation_jobs.py:670-776 | and a world at rest is at rest again, with the job running |
| NavStarts.FailureCleansUp | robot_dashboard/navigation_jobs.py:777-797 | in any history a start that throws anywhere takes its own group and directory down and nothing else, and fails the record if it is still its own |
| NavStarts.CancelledStartGoesDown | robot_dashboard/navigation_jobs.py:751-797 | a cancelled start goes down at its next check |
| NavStarts.NoticeIsGivenOnce | robot_dashboard/navigation_jobs.py:1602-1629 | the monitor of a job that ends by itself gives notice exactly once |
| NavStarts.DeadLeaderIsCleanedUp | robot_dashboard/navigation_jobs.py:1602-1629 | when the running job's leader dies at rest its monitor takes the group and directory down and leaves the record failed and noticed |
| NavManager.NavigationJobManager.AdmitStart | robot_dashboard/navigation_jobs.py:670-692 | the first locked section of start |
| NavManager.NavigationJobManager.RegisterProcess | robot_dashboard/navigation_jobs.py:751-757 | registration, or cancellation, after the spawn |
| NavManager.NavigationJobManager.MarkRunning | robot_dashboard/navigation_jobs.py:765-769 | the running state, or cancellation, after the grace period |
| NavManager.NavigationJobManager.SettleFailedStart | robot_dashboard/navigation_jobs.py:785-796 | a failed start touches only its own token's record |
| NavManager.NavigationJobManager.EnterStop | robot_dashboard/navigation_jobs.py:801-810 | what a stop captures and when it acts |
| NavManager.NavigationJobManager.LeaveStop | robot_dashboard/navigation_jobs.py:815-829 | the last section of stop |
| NavManager.NavigationJobManager.WakeMonitor | robot_dashboard/navigation_jobs.py:1602-1629 | when a monitor takes the job over and when it asks for the terminal callback |
| PublicLog.NavigationLog.Append | robot_dashboard/navigation_jobs.py:1746-1769 | the ring keeps the last entries of the numbered history |
| PublicLog.NavigationLog.ProgressSnapshot | robot_dashboard/navigation_jobs.py:514-583 | a poll shows what the reference view of the whole history shows, and which arguments are refused |
| PublicLog.PageContinues | robot_dashboard/navigation_jobs.py:539-556 | an unflagged response continues exactly at the cursor, and says there is more exactly when there is |
| PublicLog.PageIsFull | robot_dashboard/navigation_jobs.py:536-556 | a page is as full as it may be: at most the limit, short of the end only when it holds that many, starting right after the cursor or at the oldest entry left |
| PublicLog.FlagIsExact | robot_dashboard/navigation_jobs.py:542-543 | truncation is flagged exactly when the cursor is foreign or an unseen entry was evicted, and only those entries are missing |
| PublicLog.TailFlagIsExact | robot_dashboard/navigation_jobs.py:544-547 | a tail request is flagged exactly when it does not show everything |
| PublicLog.Delivery | robot_dashboard/navigation_jobs.py:539-583 | under any interleaving of appends and polls entries arrive once and in order, and all of them unless a response was flagged |
| NavParameters.ValidationIsIdempotent | robot_dashboard/navigation_jobs.py:938-976 | a validated set is valid as it stands |
| NavParameters.ValidatesExactly | robot_dashboard/navigation_jobs.py:938-976 | a set is valid exactly when every parameter has an allowed value and their cross-parameter order holds; only numbers change, into decimals |
| NavParameters.PatchYaml | robot_dashboard/navigation_jobs.py:1033-1215 | patching table after table equals the patch function, failing where it fails |
| YamlTree.MergeKeeps | robot_dashboard/navigation_jobs.py:1016-1030 | opening a path and revising its table changes nothing it does not concern |
| YamlTree.MergePlaces | robot_dashboard/navigation_jobs.py:1016-1030 | the opened table is there afterwards with the updates in it |
| NavRoundTrip.PatchSucceeds | robot_dashboard/navigation_jobs.py:1016-1094 | patching succeeds exactly with a known binding and nothing but tables on the way to the owned ones |
| NavRoundTrip.PatchPreserves | robot_dashboard/navigation_jobs.py:1033-1215 | nothing is changed that no change of the patch concerns |
| NavRoundTrip.ForeignKeysStay | robot_dashboard/navigation_jobs.py:1033-1215 | an unknown key keeps what it holds outside the runtime's own table |
| NavRoundTrip.PatchIsIdempotent | robot_dashboard/navigation_jobs.py:1033-1215 | patching a patched document changes nothing |
| NavRoundTrip.RoundTrip | robot_dashboard/navigation_jobs.py:1033-1386 | for every patchable document and valid set, extraction passes every fixed check and returns the set |
| NavRoundTrip.ExtractsExactly | robot_dashboard/navigation_jobs.py:1218-1386 | extraction gives a set exactly when the binding is known, the parameters validate to it, and every checked entry holds what the patch writes there with nothing else beside them |
| NavRoundTrip.ExtractedIsOrdered | robot_dashboard/navigation_jobs.py:959-976 | an extracted set is each number as it stands at its home, and in every accepted document the inflation covers the robot, obstacles have a height and rays reach as far as obstacles are marked |
| HealthClassifier.PolicyFor | robot_dashboard/localization_health.py:112-143 | the policy is enabled exactly for the competition profile, and its exit rate is not above its enter rate |
| HealthClassifier.NumberIsExact | robot_dashboard/localization_health.py:149-157 | a number that counts is not negative, and a number already or a text that reads as one |
| HealthClassifier.ReadyIsExact | robot_dashboard/localization_health.py:160-306 | ready is given exactly when every requirement holds |
| HealthClassifier.RateReasonIsExact | robot_dashboard/localization_health.py:160-265 | the one soft reason is given exactly when the rate is the first thing amiss |
| HealthClassifier.FirstUnmetDecides | robot_dashboard/localization_health.py:160-250 | the first of the session's demands that is not met gives state and reason, and with all met the rates decide |
| HealthClassifier.FirstUnmetRateDecides | robot_dashboard/localization_health.py:224-306 | the first of the demands on rates, jitter, points and stall that is not met gives the reason; with none left the session is ready |
| ReadinessObject.LocalizationReadinessStabilizer.Update | robot_dashboard/localization_health.py:385-512 | one observation's new fields and report equal the value specification |
| ReadinessObject.LocalizationReadinessStabilizer.Reset | robot_dashboard/localization_health.py:347-369 | a reset forgets every candidate and the transition count |
| Readiness.RunKeeps | robot_dashboard/localization_health.py:385-512 | the fields agree with the log's streaks, last entry and change count |
| Readiness.EntryNeedsTheDwell | robot_dashboard/localization_health.py:462-476 | ready is entered only after 10 s of uninterrupted ready ticks in one generation, raw rate at least 9.5 Hz and gap at most 0.25 s throughout |
| Readiness.EntriesAreApart | robot_dashboard/localization_health.py:347-512 | two entries are at least 10 s apart across faults, resets and generation changes |
| Readiness.ReadyReportsAreSound | robot_dashboard/localization_health.py:427-512 | ready is never reported on a hard fault, its stable duration is at least 10 s and the transition count is the true one |
| Readiness.SlownessEndsReady | robot_dashboard/localization_health.py:437-452 | after 2 s continuously below 9.0 Hz ready is no longer reported |
| Readiness.TicksAreExact | robot_dashboard/localization_health.py:385-512 | every tick leaves the state and makes the report the log's readings call for: a ready streak of ten seconds is always answered by ready, and only a hard fault or two slow seconds end it |
| Readiness.ChangesReset | robot_dashboard/localization_health.py:347-430 | a change of generation and a restart leave the state unavailable and the count at zero |
| DatasetStore.RecoveryRestores | robot_dashboard/dataset_capture.py:920-989 | recovery restores the count and the byte sum of the committed samples, exactly while the next number has eight digits or the count was not behind |
| DatasetStore.LongSessionIsUndercounted | robot_dashboard/dataset_capture.py:944-981 | a crash-safe session of a hundred million samples whose last sample recovery does not count |
| DatasetStore.AnyCrashRecovers | robot_dashboard/dataset_capture.py:920-989 | at every crash point the restored count is the number of sample directories |
| DatasetStore.RecoveryCountsOnlyWhole | robot_dashboard/dataset_capture.py:944-981 | whatever is on disk, at most one more sample is counted, and only a whole one of this session and number |
| DatasetStore.RecoveryIsIdempotent | robot_dashboard/dataset_capture.py:920-989 | recovering again changes nothing |
| DatasetStore.RecoverInterruptedSessions | robot_dashboard/dataset_capture.py:920-989 | the startup loop recovers each session independently |
| DatasetWriter.Writer.Fill | robot_dashboard/dataset_capture.py:781-797 | the temporary directory grows file by file into the complete sample, within the quota at every moment |
| DatasetWriter.Writer.Publish | robot_dashboard/dataset_capture.py:798-799 | the rename makes it the next committed sample |
| DatasetWriter.FitsExactly | robot_dashboard/dataset_capture.py:745-780 | a stored bundle fits the quota, the manifest's allowance included, and has readable metadata, exactly when the checks let it pass |
| DatasetWriter.Writer.CommitBundle | robot_dashboard/dataset_capture.py:730-810 | one bundle: it fails for the first check it does not meet and otherwise exactly where the file system refuses; what is then on disk and counted, and how little a failure leaves behind |
| DatasetWriter.Writer.WriterLoop | robot_dashboard/dataset_capture.py:812-855 | every store it ever leaves on disk is safe to crash in; the session is completed exactly when every queued bundle goes through in its turn and the last manifest is written, and then holds them all in order |

## Left out

- HMAC, JSON, UTF-8 and the datagram format of control messages: messages are authentic and arrive as typed values.
- ROS nodes, QoS, WebSockets, HTTP routes, subprocess and camera SDK calls: they appear only as environment steps such as deliver, drop, spawn, die and crash.
- IEEE rounding: arithmetic is over `real`; the numerical margin of the mask is a positive parameter.
- UUIDs and secrets: tokens are fresh values; wall-clock strings, public status texts and most snapshot projections are not modelled.
- ControlLink: both ends read one clock; a difference between their clocks adds to the ages stated. The ends are taken as values; the bridge's is the node's (`ArrivalIsACallback`, `PulseIsATick`, `FailedStatusIsAFault`, `ShutdownIsTheFarewell`), the dashboard's the manager's.
- Configure: the three time limits are taken as finite numbers already read.
- Go2ControlBridge: the observation-only role, and a shutdown whose StopMove cannot be published.
- RunIsExpected: of a published StopMove the bridge's theorem leaves the reason text open, and of the status it leaves out the name of the held action and the last request.
- Go2BridgeCore: the observation-only role, the fields of the robot's mode state that are not about motion, and the status projection.
- ControlManager: an expired action guard is left in its field rather than zeroed, which no later test distinguishes; reasons for a lease's end and public projections are omitted.
- SubmitDrive: the client's age is an argument; that the WebSocket handler obtains it from the frame clock is not modelled.
- Search: the heap is a multiset with an extract-min; the program's skip of outdated entries is proved never to be needed.
- ProbeConnectivity: the known-free test and the route check are uninterpreted functions, as the code they call is not part of this model.
- AdmitZones: whether a polygon's transform to the grid overflows, and the checks for area, repeated vertices and self-intersection, are given verdicts, made in their order.
- BuildCollisionMask: the checks of the map family, the frame name, the revision pin and the annotation document are given verdicts, made in their order; the margin is a given positive number; the manifest, hashes and the writing of the artifact are not modelled.
- MulticastCamera: the watchdog, stop event and process handling around the reading loop.
- NavLifecycle: terminating a group and removing a directory succeed, a group keeps its number, and the map and parameter snapshots taken before the spawn are one step that may fail.
- NavLifecycle: mapping jobs are not modelled; unlike navigation, that manager does not check for a stop again after it spawns.
- PatchYaml: a base document is a tree, so tables shared through YAML anchors are not captured, nor is the order of keys.
- RoundTrip: rendering to YAML text and parsing it back, the size limit and the publication of the file.
- Update: reason texts, threshold texts and rounded durations of the readiness report.
- Recover: the bounded, best-effort removal of temporary sample directories.
- Writer: the sampler, duplicate and skew checks of bundles, camera tokens and the export archives.
- Mount calibration, goal precision, the model registry, presets, lineage, annotations and discovery: numerics on arrays or sequences of field checks.
