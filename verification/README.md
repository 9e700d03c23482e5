# Verified model of the ChirpStack simulator engine

A Dafny 4.11 model of the simulation engine and of the services around it: LoRaWAN devices and gateways, the life
cycle of a simulation run, the log stream, provisioning and passive synchronization, unique names, and the byte
codecs of the telemetry tab. Protocols with several goroutines are machines of atomic steps: a step that is not
enabled changes nothing, so a list of events is an interleaving and every theorem over lists of events speaks of every
interleaving. Objects that the Go code updates in place are classes. `Devices.Device`, `LogStreams.LogHook` and
`Lifecycle.SimState` carry the state of their machine as a ghost field, and each method is proved to make exactly its
step; gateways and queues are tied to the network of `DownlinkNetwork` by its predicate `Coupled` and the three methods
after it; the provisioning methods are proved equal to functions of the server's records and answers.

Run `dafny verify dfyconfig.toml` in this directory.

## Files

| file | contents |
|---|---|
| `Prelude.dfy`, `Arithmetic.dfy`, `Decimals.dfy` | small shared types, facts about products and quotients, decimal numerals |
| `SessionKeys.dfy` | session-key blocks (LoRaWAN 1.0.3 section 6.2.5, and LoRaWAN 1.1 section 6.2.3 with OptNeg) |
| `DeviceModel.dfy` | one device as a machine: uplink loop cut at its lock sections, downlink loop, manual commands |
| `DeviceUplinks.dfy`, `DevicePayload.dfy`, `DeviceAnomaly.dfy`, `DeviceManual.dfy`, `DeviceJoin.dfy`, `DeviceDownlinks.dfy`, `FrameCounter.dfy` | theorems over every run of that machine |
| `Device.dfy` | the device as an object with payload buffers; every method makes the steps of the machine |
| `Gateway.dfy`, `DownlinkNetwork.dfy` | gateways and bounded queues: as objects, and as a network of steps |
| `LogStream.dfy` | the log hook with its replay buffer and lossy clients |
| `Lifecycle.dfy`, `WindingDown.dfy` | start, stop, manager goroutine, simulators, devices, registry; and that a stopped run can come to its end |
| `RunSetup.dfy` | staggered starts and anomaly-type lists |
| `PassiveSync.dfy` | snapshot differences and pending changes |
| `Names.dfy` | unique readable names |
| `Codecs.dfy` | hexadecimal, temperature and meter codecs |
| `Store.dfy` | the server's records, listings and calls |
| `DeviceWorkers.dfy`, `WorkerRuns.dfy` | the device goroutines of one application: what every interleaving keeps, and interleavings constructed to show that the conditions are exact |
| `Bootstrap.dfy` | the provisioning request, as methods and as functions |
| `Provisioning.dfy`, `RecordNames.dfy`, `Reruns.dfy`, `FreshTenants.dfy` | what an accepted request guarantees, the names of the records, when a run leaves the records alone, and all that for a tenant nobody had before |

## Where the code differs from its comments and documentation, or from what one would expect

- Provisioning: the goroutines that create the devices of one application share one error variable, and each reads it
  in a step of its own. A refused device can therefore be reported as created, and so can a refused key.
  `WorkerRuns.TrustedIff` and `WorkerRuns.KeysTrustedIff` say exactly when a success can be trusted;
  `Reruns.RequestHidesRefusal` is a whole accepted request that reports a device nobody has. With exactly two
  names, one of them listed, such a run needs a random EUI equal to that of the listed device; when EUIs are drawn fresh
  that case is safe, and every other one with a missing device and a second name is not (`WorkerRuns.FreshTrustedIff`).
  The reported count is right as a number in every case, because it counts goroutines and not devices.
- Provisioning: a listing shows a hundred records, and a failed listing shows none. A request leaves the records alone in
  every interleaving exactly when the first pages show every name (`Reruns.LeftAloneIff`); on a complete store anything
  else creates a name twice (`Reruns.RerunUniqueIff`). So provisioning a new tenant is idempotent exactly up to a hundred
  of each kind, the tenant being among the first hundred (`FreshTenants.FreshIdempotentIff`).
- Join: the nonce is not frozen at the moment of activation. A join-request under way when the join-accept arrives still
  draws a nonce, and a copy of the message that is valid for that nonce changes the keys of the activated device.
  `DeviceJoin.NonceFrozenIff` and `DeviceJoin.CopiesAreHarmlessIff` give the exact conditions,
  `DeviceJoin.AnsweredWhileJoining` and `DeviceJoin.InFlightRequestMovesKeys` the runs.
- Manual anomalies: a command given while a manual spike is being sent is cleared together with the spike
  (`DeviceManual.CommandLost`).
- Life cycle: the manager goroutine sets the status to running without looking at it, so a stop requested before that
  is overwritten by running (`Lifecycle.StopOverwrittenIff`); the run stays cancelled all the same, so each of its
  devices can leave from its start on (`Lifecycle.StopOverwritten`).
- Life cycle: when a payload does not decode, the run's WaitGroup is never zero again (`Lifecycle.WaitGroupStaysRaised`),
  and simulators started before it keep going while the status is error. Status error means that nothing of the run is
  left exactly when the first payload is the bad one (`Lifecycle.ErrorMeansOverIff`).
- Life cycle: when a run is stopped and a later payload of it does not decode, the status becomes error with devices
  still running; in the next run the uplink loop of such a device unregisters the EUI of its successor
  (`Lifecycle.StaleLoopUnregisters`). It takes a device whose context is done or can still be stopped
  (`Lifecycle.StaysFoundIff`): after an error without a stop nobody cancels the run any more, since a stop is refused and
  the next start replaces the cancel function, so its devices run on and leave the registry alone.
- Session keys: blocks of the two forms can coincide (`SessionKeys.BlockFormsOverlapIff`, and `SessionKeys.BlocksCoincide`
  for a pair).
- Downlinks: a device handles the first item of a downlink frame and no other. `DeviceDownlinks.OnlyTheFirstIff` says when
  nothing is missed, and `DeviceDownlinks.MissedAccept` is a frame whose valid join-accept is missed.
- Downlinks: a join-accept does not reset the frame counters (LoRaWAN 1.0.3 section 4.3.1.5 starts them again at zero).
  A sender that does is followed exactly when the old counter is zero or among the last 65535 values
  (`DeviceDownlinks.RestartFollowedIff`); `DeviceDownlinks.SecondJoinLosesTrack` is a run that loses track.
- Meter and temperature codecs: the round trips hold exactly on the stated ranges; outside them the value comes back
  reduced.

## Model

| member | source | states |
|---|---|---|
| SessionKeys.GetSKey | simulator/session_keys.go:22-67 | the buffer filled in place, encrypted, is the key block of the standard in both forms |
| SessionKeys.KeyBlockInjective | simulator/session_keys.go:47-55 | two blocks of one form are equal iff type, join nonce, device nonce and NetID (or JoinEUI with OptNeg) are all equal |
| SessionKeys.AppAndNwkKeysDiffer | simulator/session_keys.go:12-20 | for an injective cipher an AppSKey never equals an NwkSKey, whatever the inputs of the two derivations |
| SessionKeys.KeysFollowNonce | simulator/session_keys.go:12-66 | with the join-accept fixed, keys are equal iff the device nonces are |
| SessionKeys.BlockFormsOverlapIff | simulator/session_keys.go:47-55 | blocks of the two forms are equal iff type and join nonce agree, the OptNeg nonce is zero and the reversed JoinEUI spells NetID and nonce of the other |
| SessionKeys.BlocksCoincide | simulator/session_keys.go:47-55 | two such blocks, for any join nonce |
| DeviceUplinks.UplinkAccounting | simulator/device.go:531-550 | in every interleaving the uplink metric is frames sent plus dropouts, fCntUp is that number modulo 2^32, and lastPayload is the plaintext of the last frame |
| DeviceUplinks.FlatlineHolds | simulator/device.go:553-561 | every flatline frame after a non-empty one repeats the frame before it |
| DeviceUplinks.EmittedCounters | simulator/device.go:711-739 | up to 2^32 uplinks, emitted counters strictly increase, skip exactly the dropout values and together with them leave no gap |
| DeviceUplinks.ExactlyTheLimit | simulator/device.go:393-409 | with a limit n, uncancelled, never more than n counters are spent, and the loop has ended iff n are spent and the limit was looked at since |
| DeviceUplinks.NothingAfterTheEnd | simulator/device.go:378-383 | once the uplink loop has ended no request or frame is sent and the counter stands still, whatever else happens |
| DeviceUplinks.EndedIsCancelled | simulator/device.go:393-409 | when the uplink loop has ended the device is cancelled, so its downlink loop ends too |
| DevicePayload.UplinkCarries | simulator/device.go:552-771 | from the choice on, whatever join-accepts, downlinks, commands or cancellations fall between the steps: exactly one frame, with the counter, port and confirmation due, the session of the moment it is built, and as plaintext the last payload for a flatline, else what the script yields, else octets that read big-endian as temperature (15 more for a spike, the drift more for a drift), pressure and voltage |
| DevicePayload.DropoutSendsNothing | simulator/device.go:529-550 | a dropout adds no frame and leaves both payloads alone, but spends a counter and is counted |
| DevicePayload.SentAsConfigured | simulator/device.go:695-728 | every frame goes out on the configured port, confirmed or not as configured |
| DevicePayload.PayloadIsStatic | simulator/device.go:552-651 | without a script, a payload that is not five octets long is sent unchanged in every frame, in every interleaving |
| DevicePayload.NoncesDrawn | simulator/device.go:932-944 | the i-th join-request carries the i-th random value in random mode and i modulo 65536 otherwise; the device keeps the last |
| DevicePayload.CancelledFinishes | simulator/device.go:378-420 | a cancelled device finishes at most the uplink or join-request it is in, whatever else happens |
| DevicePayload.PollDecides | simulator/device.go:378-391 | each time round the loop ends iff cancelled, else sends data iff activated and a join-request iff not |
| DeviceAnomaly.EpisodesLastExactly | simulator/device.go:497-549 | a random episode covers exactly anomalyDuration (5 when not positive) non-manual uplinks, however manual commands fall between the lock sections, and there is no random anomaly outside an episode |
| DeviceAnomaly.TypeIffRemaining | simulator/device.go:737-766 | at every step boundary a random anomaly is in force iff its remaining count is positive |
| DeviceAnomaly.NoneWithoutDraws | simulator/device.go:504-520 | with probability zero or no types, in every interleaving, no uplink carries an anomaly that no command asked for |
| DeviceAnomaly.DriftCountsUplinks | simulator/device.go:745-765 | without manual commands the drift is 0.5 for each uplink sent in the drift episode in force, and zero otherwise |
| DeviceManual.ManualLaw | simulator/device.go:319-326 | in every interleaving a manual anomaly is active iff the last command switched one on and was not spent since by a manual dropout or the uplink of a manual spike, and it is of that command's kind |
| DeviceManual.SpentForGood | simulator/device.go:533-550 | after a manual dropout, or a manual spike sent, no uplink is manual until the next command |
| DeviceManual.LastsUntilCommand | simulator/device.go:745-753 | a manual drift, flatline or other kind is what every further uplink carries until a command comes |
| DeviceManual.CommandLost | simulator/device.go:745-750 | the run in which a command given while a spike is being sent is lost |
| DeviceManual.ChoiceIsDue | simulator/device.go:497-521 | the next uplink carries the command in force; else the kind of the episode towards which fewer than the configured uplinks have counted; else, when the draw hits, the drawn type; else nothing |
| DeviceManual.DriftLaw | simulator/device.go:737-766 | in every interleaving, with manual commands, the drift is half a degree for each uplink sent under drift since it was last set back by switching off, a roll or the end of an episode |
| DeviceJoin.DataOnlyAfterJoin | simulator/device.go:774-822 | no data frame before the first valid join-accept; every frame carries a session derived from a valid join-accept and the device's nonce when it came in; the current one comes from the last, both keys and the address spelled out |
| DeviceJoin.AcceptSetsKeys | simulator/device.go:774-822 | a valid join-accept sets the address of the message and the two keys: type octet 2 for the application and 1 for the network key, followed by the octets of the standard written out in both forms; an invalid one changes nothing |
| DeviceJoin.FramesCarryKeys | simulator/session_keys.go:12-66 | the keys and the address of every frame are those octets for one of the valid join-accepts |
| DeviceJoin.ActivatedForGood | simulator/device.go:383-420 | activation never reverts; at most one more nonce is drawn, and only when a request was already in flight |
| DeviceJoin.CopiesAreHarmlessIff | simulator/device.go:774-822 | for any activated device: copies of a message leave keys and address as they are, in every interleaving, iff at the present nonce and at each nonce that a request under way can draw the message is invalid or brings the keys that are there |
| DeviceJoin.HarmlessIffInvalid | simulator/device.go:774-822 | with an injective cipher, for keys that come from the message and the present nonce: that condition holds iff no request is under way or every other nonce it can draw makes the message invalid |
| DeviceJoin.SettledForGood | simulator/device.go:436-460 | with no request under way, copies leave keys, address, nonce, state and the list of requests as they were, whatever is interleaved |
| DeviceJoin.NonceFrozenIff | simulator/device.go:383-391 | from activation on the nonce is frozen in every interleaving iff no request is under way |
| DeviceJoin.AnsweredWhileJoining | simulator/device.go:385-391 | the run in which request 1 is answered while request 2 is under way: activated, keys from nonce 1, and not frozen |
| DeviceJoin.InFlightRequestMovesKeys | simulator/device.go:774-805 | when the message is valid for nonce 2 as well, a copy of it replaces the keys of the activated device by others |
| DeviceJoin.FrameKeysDiffer | simulator/device.go:799-807 | no frame is ever sent under equal application and network keys |
| DeviceJoin.NoncesDiffer | simulator/device.go:933-944 | in counter mode any 65536 consecutive join-requests use different nonces and lead to different keys |
| FrameCounter.FollowsIff | simulator/device.go:846-847 | for any counter of the device and any of the sender: the rebuilt value is the sender's modulo 2^32 iff the sender is fewer than 65536 steps ahead, modulo 2^32 |
| FrameCounter.LeastWithLowBits | simulator/device.go:846-847 | short of the 32-bit wrap the rebuilt counter is the least value not below the old one with the received low bits |
| FrameCounter.ReceivedAreRebuilt | simulator/device.go:825-847 | in every interleaving the downlink counter depends on the accepted downlinks alone |
| FrameCounter.TracksSender | simulator/device.go:825-847 | over whole runs, with losses and repeats, the counter after each accepted downlink is the sender's true counter modulo 2^32 |
| DeviceDownlinks.FrameIsARun | simulator/device.go:436-460 | handling a frame is at most one event of the machine, so what holds of every interleaving holds of frames |
| DeviceDownlinks.OnlyTheFirstIff | simulator/device.go:436-460 | handling the first item is the same as handling them all iff no later item would be accepted |
| DeviceDownlinks.MissedAccept | simulator/device.go:436-460 | a frame whose valid join-accept stands behind another item leaves the device without activation |
| DeviceDownlinks.FollowsAfterJoinIff | simulator/device.go:774-847 | after a join-accept the device follows a sender at u iff u is fewer than 65536 steps ahead of the counter before it, modulo 2^32 |
| DeviceDownlinks.RestartFollowedIff | simulator/device.go:774-847 | a sender that starts again at zero is followed iff the counter before was zero or above 2^32 - 65536 |
| DeviceDownlinks.SecondJoinLosesTrack | simulator/device.go:774-847 | the run join, data 40000, second join-accept, data 0: the last is taken for 65536 under the new keys |
| Devices.Device.constructor | simulator/device.go:207-216 | the payload is copied into a buffer of the device's own |
| Devices.Device.SetManualAnomaly | simulator/device.go:319-326 | sets the command; switching off clears the drift; nothing else changes |
| Devices.Device.SelectAnomaly | simulator/device.go:497-521 | first lock section: manual before running episode before draw |
| Devices.Device.Drop | simulator/device.go:531-550 | dropout section: spends a counter, counts the metric, sends nothing |
| Devices.Device.WriteTelemetry | simulator/device.go:654-675 | the five octets written in place are the telemetry of the readings, in 16-bit arithmetic; only the payload buffer changes |
| Devices.Device.PreparePayload | simulator/device.go:553-685 | flatline, script or in-place rewrite; the last payload and every frame on the air keep their contents |
| Devices.Device.MakeFrame | simulator/device.go:700-735 | the frame gets a copy of the payload that shares no array with any other buffer |
| Devices.Device.Finish | simulator/device.go:737-770 | last lock section: counter, copy of the payload, anomaly bookkeeping |
| Devices.Device.DataUp | simulator/device.go:496-771 | an uninterrupted call takes the machine through its steps, dropout and crypto error included |
| Devices.DataUpIsARun | simulator/device.go:496-771 | such a call is one of the machine's interleavings |
| Devices.Device.UplinkLoop | simulator/device.go:393-409 | with a limit, uncancelled and without crypto errors, the loop ends after exactly the counters left (measure: limit minus fCntUp) |
| Devices.Device.JoinRequest | simulator/device.go:466-493 | draws the next nonce and moves on |
| Devices.Device.JoinAccept | simulator/device.go:774-822 | a message failing a check changes nothing; a valid one sets keys, address and state |
| Devices.Device.DownlinkData | simulator/device.go:825-847 | the gap is taken in sixteen bits and added in thirty-two |
| Devices.Device.HandleFrame | simulator/device.go:436-460 | takes the machine through the first item of the frame and stops |
| Gateways.Gateway.AddDevice | simulator/gateway.go:336-348 | a later device of the same EUI replaces the earlier one |
| Gateways.Gateway.HandleDownlink | simulator/gateway.go:378-443 | every covered queue is offered the frame once; the n-th downlink is NACKed iff the rate is at least 1 and divides n; one ack item per downlink item |
| Gateways.Gateway.CountDownlink | simulator/gateway.go:412-428 | the counter stays n mod r and NACKs so far are n / r; with rate 0 everything is ACKed |
| Gateways.Gateway.FanOut | simulator/gateway.go:395-408 | whatever the map order, each covered queue gets the frame iff it has room |
| Gateways.DownlinkQueue.TrySend | simulator/gateway.go:400-406 | a send that is dropped when a hundred frames are queued |
| Gateways.DownlinkQueue.Receive | simulator/device.go:431-436 | the device takes the oldest frame |
| DownlinkNetwork.FanOutConserves | simulator/gateway.go:395-408 | for each gateway and covered device, enqueued and dropped frames together are the downlinks since addDevice, each exactly once |
| DownlinkNetwork.DropsExactlyWhenFull | simulator/gateway.go:400-406 | a frame is dropped iff a downlink finds the covered queue holding a hundred |
| DownlinkNetwork.ProcessedInOrder | simulator/device.go:431-461 | frames processed and queued keep, gateway by gateway, the order of that gateway's downlinks |
| DownlinkNetwork.HandleDownlink | simulator/gateway.go:378-443 | the objects, coupled to the network, stay coupled when a gateway handles a downlink: the network makes its downlink step |
| DownlinkNetwork.AddToCoverage | simulator/gateway.go:336-348 | coupled objects stay coupled when a device joins a gateway's coverage |
| DownlinkNetwork.Receive | simulator/device.go:431-461 | coupled objects stay coupled when a device takes a frame, and it is the oldest one |
| LogStreams.LogHook.Fire | internal/api/logs.go:58-70 | makes the machine's step: the buffer stays the last hundred lines, each registered client gets the line iff its queue has room, and no closed queue is sent on |
| LogStreams.LogHook.Connect | internal/api/logs.go:88-96 | makes the machine's step: replay and registration in one lock section |
| LogStreams.LogHook.Read | internal/api/logs.go:107-114 | makes the machine's step: the oldest queued line is sent |
| LogStreams.LogHook.Deregister | internal/api/logs.go:101-103 | the client leaves the map, under the lock |
| LogStreams.LogHook.Close | internal/api/logs.go:104 | the queue is closed after that, when nobody can send on it |
| LogStreams.StreamIsFaithful | internal/api/logs.go:88-115 | in every interleaving a client's output plus queue is an ordered, duplicate-free choice of the history that starts with the replayed lines and misses exactly the lost ones |
| LogStreams.LostExactlyWhenFull | internal/api/logs.go:64-69 | a line is lost to a client iff it is written while its queue holds fifty |
| LogStreams.ReadDelivers | internal/api/logs.go:107-114 | in every interleaving a read of a registered client sends the oldest queued line, takes it from the queue, and touches no other client |
| LogStreams.ReadsDrain | internal/api/logs.go:107-114 | n reads send the first n queued lines in order |
| LogStreams.DrainedIsComplete | internal/api/logs.go:88-115 | a client that has read its queue empty has been sent every line since it connected except those lost |
| LogStreams.NothingOnClosed | internal/api/logs.go:100-105 | nothing is ever sent on a closed queue |
| Lifecycle.AtMostOneManager | internal/api/simulation.go:283-328 | a manager is live iff the status is starting, running or stopping; there is never more than one; stopping means its context is cancelled |
| Lifecycle.IdleOnlyAtZero | internal/api/simulation.go:319-325 | a live run becomes idle only through its own manager with its WaitGroup at zero |
| Lifecycle.IdleMeansOver | internal/simulator/simulator.go:134-152 | when the status is idle, both loops of every device of the latest run are done and the registry holds none of them |
| Lifecycle.IdleMeansNothingLeft | internal/api/simulation.go:319-325 | when the status is idle and no run ended in error, every device of every run is over and the registry is empty |
| Lifecycle.StopOverwrittenIff | internal/api/simulation.go:306-309 | from stopping, the status can become running with no new start iff the latest manager has not run yet |
| Lifecycle.StopOverwritten | internal/api/simulation.go:306-309 | the run that does it; whatever follows, the run's context stays cancelled and each of its devices, created before or after, can leave the registry |
| Lifecycle.CancelledForGood | internal/api/simulation.go:354-357 | a cancelled run stays cancelled |
| Lifecycle.CancelledCanLeave | simulator/device.go:378-383 | once a run is cancelled, whatever happened since, each loop of its devices that is there can leave |
| Lifecycle.LeftInTimeExec | simulator/device.go:378-383 | in every interleaving a loop has left only if the run was cancelled or the simulator's own context ended |
| Lifecycle.WaitGroupStaysRaised | internal/simulator/simulator.go:50-55 | once a start failed, the run's WaitGroup is its unfinished simulators plus one for ever |
| Lifecycle.ErrorMeansOverIff | internal/api/simulation.go:311-317 | for a request: status error means every device of the run is over, in every interleaving, iff all payloads decode or the first does not |
| Lifecycle.InnerWaitIsEnough | internal/simulator/simulator.go:326 | once the inner wait returns, each device of that simulator is over and unregistered |
| Lifecycle.WaitGroupsNotNegative | simulator/device.go:355-368 | no WaitGroup goes negative, so each loop's Done is matched |
| Lifecycle.LookupIffRunning | simulator/registry.go:33-58 | when no run has two devices of one EUI and no earlier run ended in error, a lookup finds a device of the latest run iff its uplink loop has not unregistered it; the same devices may have been in earlier runs |
| Lifecycle.StaysFoundIff | simulator/registry.go:40-44 | a device that is found stays found while it runs, in every interleaving without a start, an expiry or a new device of its EUI, iff no other running device of its EUI has a context that is done or is in the latest run while a stop is possible |
| Lifecycle.StaleLoopUnregisters | simulator/device.go:366-368 | the run in which the loop of a device, stopped before its run ended in error, unregisters its successor in the next run |
| Lifecycle.NeverFoundAgain | internal/api/simulation.go:296 | a device made before an accepted start is never found again, whatever follows |
| Lifecycle.ExpiredCanLeave | simulator/device.go:378-383 | when the context of a simulator ends, both loops of its devices can leave |
| WindingDown.StopLeadsHome | internal/api/simulation.go:319-325 | from every state with a stop requested the goroutines can finish without any further request, and then the status is idle iff every payload decodes, and error otherwise |
| WindingDown.WindDown | internal/simulator/simulator.go:134-152 | a cancelled run with a live manager, whatever the status, can be finished: no wait ever lacks its Done |
| Lifecycle.SimState.HandleStart | internal/api/simulation.go:283-304 | accepted iff idle or error; then the status is starting and the registry empty; otherwise nothing changes |
| Lifecycle.SimState.HandleStop | internal/api/simulation.go:343-357 | accepted iff running or starting; cancels the latest run's context |
| Lifecycle.SimState.ManagerRunning | internal/api/simulation.go:307-309 | the manager's first write sets running whatever the status was |
| Lifecycle.SimState.ManagerFailed | internal/api/simulation.go:311-317 | a start error leaves the status at error |
| Lifecycle.SimState.ManagerFinished | internal/api/simulation.go:320-325 | after the wait the status is idle |
| Lifecycle.SimState.CreateDevice | simulator/device.go:353-361 | makes the machine's step: the new device is registered under its EUI in place of any other |
| Lifecycle.SimState.LeaveRegistry | simulator/device.go:366-368 | makes the machine's step: whatever is registered under the EUI is removed |
| Lifecycle.SimState.GetDevice | simulator/registry.go:54-58 | a lookup yields only a device of that EUI whose uplink loop has not unregistered it |
| RunSetup.StaggerIsEven | internal/simulator/simulator.go:269-274 | device i starts at i/n of the interval, rounded down; neighbours, the wrap to the next period included, are interval / n apart, rounded down or up |
| RunSetup.StaggerMonotone | internal/simulator/simulator.go:269-274 | delays do not decrease |
| RunSetup.NoOverflow | internal/simulator/simulator.go:272 | while interval * (n - 1) is below 2^63 the 64-bit product is exact |
| RunSetup.ParseTypes | internal/simulator/simulator.go:259-267 | the types are the trimmed non-empty pieces in order, each without comma or white space at its ends |
| RunSetup.ParseUndoesJoin | internal/simulator/simulator.go:259-267 | parsing a joined list of clean names gives those names back |
| RunSetup.ParseCleans | internal/simulator/simulator.go:259-267 | names with white space around them and blank pieces between them come back clean, in order, without the blanks |
| RunSetup.JoinSplit | internal/simulator/simulator.go:261 | nothing of a list is lost by splitting it at its commas |
| RunSetup.ParsedTypesAreNamed | internal/simulator/simulator.go:259-288 | a device configured from a parsed list meets the premise of the episode laws |
| RunSetup.KindsByName | simulator/device.go:529-553 | dropout, spike, drift and flatline each go by exactly one name, and any other name is a kind of its own |
| PassiveSync.DiffSlices | internal/api/passive_sync.go:252-272 | both results are duplicate-free and exactly the ids gained and lost |
| PassiveSync.DiffRestores | internal/api/passive_sync.go:252-272 | old minus removed plus added is new, in content and in size |
| PassiveSync.CompareSnapshots | internal/api/passive_sync.go:205-249 | one message for each entity and direction that changed, in the fixed order, with the right ids or number |
| PassiveSync.OneMessageEach | internal/api/passive_sync.go:205-249 | an entity and direction has a message iff its ids changed that way, and never two |
| PassiveSync.EachFieldIsTold | internal/api/passive_sync.go:205-249 | for each of the five id lists of the snapshots: one message with exactly the ids gained (or their number) iff there are any, and one for those lost; tenants and gateways are listed, the others counted |
| PassiveSync.InRankOrder | internal/api/passive_sync.go:205-249 | messages come in the order tenants, gateways, profiles, applications, devices, each with additions first |
| PassiveSync.SilentIffSame | internal/api/passive_sync.go:205-249 | nothing is reported iff all five id sets match |
| PassiveSync.FoldReachesLast | internal/api/passive_sync.go:117-118 | applying the lists that DiffSlices returned, one after the other, to the first ids gives the last |
| PassiveSync.SyncState.Commit | internal/api/passive_sync.go:105-127 | keeps, over every run of commits and dismissals: each report is against the snapshot before, pending iff changes stand undismissed, the summary is the latest of them |
| PassiveSync.SyncState.DismissChanges | internal/api/passive_mode.go:159-162 | clears flag and summary, keeps the snapshot |
| Names.UsedNames.Generate | internal/mock/names.go:170-224 | a success takes exactly one unused name: the first of a thousand draws that is free, else the next draw with the first of 999 numbers that makes it free; a failure takes none; names handed out never repeat; with words and entropy it fails only on a root whose 999 suffixes are all taken |
| Names.UsedNames.TakeSuffixed | internal/mock/names.go:210-223 | the smallest free number is taken, or all 999 are in use |
| Names.UsedNames.SeedFromStrings | internal/mock/names.go:230-239 | exactly the non-empty names are put in use |
| Names.GenerateName | internal/mock/names.go:170-173 | with a nil map a name is made without being remembered |
| Names.PickWord | internal/mock/names.go:127-136 | fails iff the list is empty or the draw fails; else a word of the list |
| Names.ComposeInjective | internal/mock/names.go:139-148 | on hyphen-free words a composed name determines its words |
| Names.ComposeReads | internal/mock/names.go:139-148 | a composed name is its three words in order with hyphens between |
| Names.SuffixedIsNotComposed | internal/mock/names.go:211-216 | a suffixed name is never a three-word name |
| Names.SuffixedInjective | internal/mock/names.go:211-216 | suffixed names are equal iff root and number are |
| Names.SuffixReads | internal/mock/names.go:211-212 | a suffixed name is its root, a hyphen and three decimal digits that read as the number |
| Codecs.HexToBytes | internal/api/frontend/js/tabs/dynamic-telemetry.js:254-260 | on any text the loop yields what parseInt makes of each pair, an odd last character standing alone, NaN included |
| Codecs.BytesOfText | internal/api/frontend/js/tabs/dynamic-telemetry.js:305-306 | after the filter only octets come out, and they print as the kept digits iff their number is even |
| Codecs.PairsAreParsed | internal/api/frontend/js/tabs/dynamic-telemetry.js:254-260 | each pair is read as parseInt in base sixteen reads any string: white space, sign, 0x, digits |
| Codecs.KeepsEachDigit | internal/api/frontend/js/tabs/dynamic-telemetry.js:306 | the filter keeps every hexadecimal digit and drops everything else, in order |
| Codecs.HexAlphabet | internal/api/frontend/js/tabs/dynamic-telemetry.js:249-251 | digits have their usual values in both cases, and upper case is written |
| Codecs.NumbersReadBack | internal/api/frontend/js/tabs/dynamic-telemetry.js:249-260 | whatever the numbers, their text reads back as their low octets |
| Codecs.BytesRoundTrip | internal/api/frontend/js/tabs/dynamic-telemetry.js:249-260 | octets written as text read back as those octets |
| Codecs.TextRoundTrip | internal/api/frontend/js/tabs/dynamic-telemetry.js:249-260 | a text comes back in upper case iff it is an even number of hexadecimal digits |
| Codecs.OrIsSum | internal/api/frontend/js/tabs/dynamic-telemetry.js:327 | bitwise or of patterns that share no bit adds them |
| Codecs.Join4IsSum | internal/api/frontend/js/tabs/dynamic-telemetry.js:339 | the four shifted octets joined with bitwise or are the number they spell |
| Codecs.TemperatureRoundTrip | internal/api/frontend/js/tabs/dynamic-telemetry.js:41-48 | decode undoes encode iff the value fits sixteen signed bits |
| Codecs.TemperatureIsBigEndian | internal/api/frontend/js/tabs/dynamic-telemetry.js:41-48 | the two octets are the 16-bit two's complement value, high octet first |
| Codecs.TelemetryDecodes | simulator/device.go:656-671 | the first two octets of the device's own telemetry decode to the temperature it measured |
| Codecs.MeterRoundTrip | internal/api/frontend/js/tabs/dynamic-telemetry.js:124-132 | decode undoes encode iff the value fits thirty-two unsigned bits |
| Codecs.MeterIsBigEndian | internal/api/frontend/js/tabs/dynamic-telemetry.js:123-129 | the four octets are the 32-bit value, high octet first |
| Stores.ChirpStack.List | internal/api/bootstrap.go:197-205 | at most a hundred records of the owner; nothing when the call fails |
| Stores.PageShows | internal/api/bootstrap.go:197-205 | a failed listing shows nothing, any other the owner's first hundred records, or all when there are fewer |
| Stores.CreateAdds | internal/api/bootstrap.go:219-236 | a creation adds exactly one record, with a fresh id, to its own table, or it fails and adds none |
| Stores.IdAppend | internal/api/bootstrap.go:211-217 | a new record changes what is known of its own owner and name only, and only when nothing was known |
| Stores.NumberedInjective | internal/api/bootstrap.go:208 | numbered names are equal iff the numbers are |
| DeviceWorkers.SuccessMeans | internal/api/bootstrap.go:305-441 | in every interleaving: a success reports one device per name, only those names are added, names stay unique unless one exists beyond the listing, a fully listed application is left alone, and all names exist unless a device was refused with another worker about |
| DeviceWorkers.Always | internal/api/bootstrap.go:312-434 | what every interleaving keeps: counters count workers, at most ten calls in flight, quitting means failure, names stay unique |
| DeviceWorkers.KeysReplaced | internal/api/bootstrap.go:408-423 | when the server refused nothing, after a success every name has a device with the key its goroutine drew, and the keys of all other devices are as they were |
| DeviceWorkers.WorksWithDraws | internal/api/bootstrap.go:342-363 | in every interleaving a worker works with the key it drew, and with the EUI it drew unless the listing gave one |
| DeviceWorkers.FailureStops | internal/api/bootstrap.go:312-326 | after a failure no further goroutine is launched and none that has not begun makes a call |
| WorkerRuns.TrustedIff | internal/api/bootstrap.go:389-432 | for any names and listing, whatever the server refuses: a success means that every name has a device iff there is at most one name or every name had a device before |
| WorkerRuns.FreshTrustedIff | internal/api/bootstrap.go:389-432 | the same when no EUI is drawn that a device had or that was drawn before: iff there is at most one name, or every name had a device, or there are two names and the listing shows one |
| WorkerRuns.FreshRefusalHidden | internal/api/bootstrap.go:389-407 | outside those cases, for any name without a device, an interleaving of fresh draws that reports success with that device missing |
| WorkerRuns.RefusalHidden | internal/api/bootstrap.go:389-407 | for any two workers and any name of the first without a device, an interleaving that reports full success with that device missing; beside a listed device the first worker draws the EUI of that device |
| WorkerRuns.KeysTrustedIff | internal/api/bootstrap.go:408-423 | a success means that every device has the key drawn for it and no other key changed iff there is at most one name |
| WorkerRuns.KeyHidden | internal/api/bootstrap.go:411-423 | an interleaving that reports full success though a device has no key |
| WorkerRuns.GoodRun | internal/api/bootstrap.go:317-434 | for any names and listing, an interleaving of fresh draws that succeeds with nothing refused and creates every name not listed |
| WorkerRuns.LeftAloneIff | internal/api/bootstrap.go:293-303 | an application is left alone in every interleaving iff the listing shows every name |
| WorkerRuns.StaysUniqueIff | internal/api/bootstrap.go:293-303 | names stay unique in every interleaving iff no asked name exists beyond what the listing shows |
| Bootstrap.FindOrCreate | internal/api/bootstrap.go:207-242 | a listed name is reused and nothing changes; another is created once or reported as failed |
| Bootstrap.EnsureNames | internal/api/bootstrap.go:192-242 | one listing, then each name in turn up to the first that cannot be created |
| Bootstrap.EnsureDevices | internal/api/bootstrap.go:293-441 | the device phase of one application under a given interleaving |
| Bootstrap.EnsureApplications | internal/api/bootstrap.go:249-442 | the loop over the applications up to the first that fails |
| Bootstrap.HandleBootstrap | internal/api/bootstrap.go:56-442 | the reply and the new records are those of `Handled`, of which the following rows speak |
| Provisioning.AcceptedMeans | internal/api/bootstrap.go:56-72 | whatever fails and whatever the listings show: a request is refused, and then changes nothing, iff a name or prefix is empty or a count below one; records are only added, an accepted request reports appCount * devCount devices and dpCount profiles, and everything asked for exists if no device was refused or there is one to an application |
| Provisioning.FullIsComplete | internal/api/bootstrap.go:192-442 | with full listings a trusted success leaves everything to be found by its name |
| Provisioning.FullKeepsUnique | internal/api/bootstrap.go:192-442 | with full listings names stay unique, also when the request fails |
| Provisioning.AcceptedOnce | internal/api/bootstrap.go:261-442 | from unique names, with full listings and a trusted success: tenant, profiles, applications and every (application i, device j) name exist exactly once |
| RecordNames.AddedRecordsAreNamed | internal/api/bootstrap.go:207-328 | whatever fails and whatever the listings show: every record added is a tenant of the organization's name, a profile or application of such a tenant named organization-prefix-number, or a device of such an application named application-prefix-number, the number a decimal numeral from 1 to the count |
| RecordNames.ReplyNamesRecords | internal/api/bootstrap.go:443-453 | the reply lists the tenant and, in order, the ids of profiles and applications numbered 1, 2, ...; without a refusal each of these applications has devices of all numbers |
| Reruns.LeftAlone | internal/api/bootstrap.go:77-387 | when the first pages show every name and the listings are answered, no interleaving creates a tenant, profile, application or device |
| Reruns.LeftAloneIff | internal/api/bootstrap.go:77-387 | with every call answered, no interleaving creates anything iff the first pages show every name |
| Reruns.RerunUniqueIff | internal/api/bootstrap.go:77-387 | rerunning a request on a complete store of unique names keeps names unique in every interleaving iff the first pages show every name |
| Reruns.TouchedTwice | internal/api/bootstrap.go:77-387 | on a complete store, whatever fails, a run that creates anything creates a name a second time |
| Reruns.FittingIsShown | internal/api/bootstrap.go:80-82 | a complete store whose listings fit a hundred is shown in full |
| Reruns.SmallIsShown | internal/api/bootstrap.go:80-82 | so is one of unique names and at most a hundred tenants whose tenant and applications hold only what is asked for, at most a hundred of each |
| Reruns.Idempotent | internal/api/bootstrap.go:56-442 | after an accepted, trusted run with full listings whose result fits the listings, a rerun whose listings are answered creates nothing, whatever the interleavings of both runs |
| Reruns.TooManyToShow | internal/api/bootstrap.go:295-298 | more than a hundred profiles, applications or devices are never shown in full |
| Reruns.RequestHidesRefusal | internal/api/bootstrap.go:389-450 | for any valid request of two devices or more to an application, on a server where no application has the first device: a run that is accepted with the full count although no application has it afterwards either |
| FreshTenants.ExactlyWhatWasAsked | internal/api/bootstrap.go:56-442 | for a tenant nobody had, whatever fails and whatever the listings show: after an accepted, trusted run on unique names everything asked for is there, names are unique, and the tenant and its applications hold nothing else |
| FreshTenants.FreshIsIdempotent | internal/api/bootstrap.go:56-442 | then, with at most a hundred of each kind asked for and fewer than a hundred tenants before, a rerun whose listings are answered creates nothing |
| FreshTenants.FreshIdempotentIff | internal/api/bootstrap.go:80-406 | with every call answered: every rerun of every accepted, trusted run for such a tenant creates nothing iff at most a hundred of each kind are asked for and there were fewer than a hundred tenants |
| FreshTenants.RerunDuplicates | internal/api/bootstrap.go:80-406 | otherwise there are an accepted, complete first run with unique names and a rerun that creates names twice |

## Left out

- gRPC, MQTT, HTTP, SQLite, SMTP, Prometheus and topic templates: input and output. The server is `Stores.ChirpStack`,
  whose calls may fail; the uplink metric is a ghost count.
- AES, MIC and payload encryption: the cipher is an arbitrary block function (injective where a theorem needs it), the
  join MIC an arbitrary predicate, and whether a data downlink's MIC is valid an input of each event. Errors of MIC
  and encryption calls are inputs too.
- The payload script engine: a script yields bytes or leaves the payload as it was. What it is given is not modelled.
- Wall clock, jitter, latency, packet loss and the order of map iteration: the first three do not affect the state
  modelled, packet loss affects only what gateways forward, and iteration order is left open by the contracts.
- Memory races of single fields: SetManualAnomaly, joinAccept and the provisioning error variables are written without
  a lock; each write is one atomic step here, and building a frame reads keys, address and counter in one step.
- The drift is a real number; the conversion of a drift of 32768 or more to an int16 follows wrap-around.
- Random choice of gateways (internal/simulator/simulator.go:238-250), per-device intervals, device profile and interval
  selection during provisioning, saved organization configs: they would only add easy members.
- A failed provisioning call is not explained: the contracts say what a failure leaves intact, not which call failed.
- Provisioning applications: one after the other as in the code; only the device goroutines interleave.
- Concurrent downlink handlers of one gateway: the counter is written under a read lock; handlers are serialized here.
- The passive poller goroutine and its ticker, snapshots themselves, broadcast messages and their wording.
- Log line formatting, flushing, and a client whose connection cannot stream.
- Discovery of the start configuration, validation and defaults of start requests, GetStatuses. Durations and process
  signals, which end the context of one simulator, are the event `Expire`; the server always starts with duration 0
  (internal/api/simulation.go:487), so there only a signal causes it. The uplink limit is not set on that path either.
- JavaScript numbers beyond 2^53, and toUpperCase on anything but the digits a to f.
- Humidity, battery and custom templates and decoders, charts, and the rest of the user interface.
- SeedFromStrings with a nil map, which does nothing.
- internal/simulator/session_keys.go duplicates simulator/session_keys.go.
