# Client network system of grumpy_visitors, in Dafny

This project models the client side of the game's multiplayer networking:
`ClientNetworkSystem`, the ECS system that runs once per game tick in
`bins/client/src/ecs/systems/client_network.rs`. Each tick it does the following, in order:

1. It acts on the UI's pending network command. Only Kick does anything.
2. It creates the connection record of a new session, which sends JoinRoom for a client
   that does not host the server.
3. It sends StartHostedGame once a host has started the game.
4. It reports the exit of a locally started server.
5. It handles a lost connection record and a pending local disconnect.
6. It drains the inbound transport events through three filters:
   - a disconnected record only sees a lost transport or a Handshake;
   - a message from another session is dropped;
   - lobby messages are dropped during a game.

   It then dispatches each admitted message into the room, game and frame-buffer
   resources.
7. It sends a heartbeat when one is due.
8. It decides whether the game has to wait for lagging players or for the network.

Where the work happens:

- `UpdateWorld` batches are sorted by frame. The cursor over the server's stream is
  moved forward, and both server frame buffers are grown up to that frame. The batch is
  then reconciled into the buffers by `apply_world_updates`.
  - The controlled player's own walk and cast actions are taken out of each update
    (`collect_controlled_player_updates`). They are written
    `INTERPOLATION_FRAME_DELAY` frames earlier than the rest of the update.
  - Spawn actions are written undelayed.
  - Each buffer's "oldest updated frame" watermark is set to the first frame the batch
    touches.
- `DiscardWalkActions` scans the client's own action buffer from the newest frame back.
  It removes the first matching walk action for each discarded id and moves the
  watermark to the frame of the last removal (`discard_walk_actions`).

Layout of the model:

| file | module | what it holds |
|---|---|---|
| `net_types.dfy` | `NetTypes` | identifiers, constants, messages, resource records, fatal conditions |
| `framed_updates.dfy` | `Framed` | the frame buffer `FramedUpdates<T>` as the system uses it: consecutive slots, watermark, `reserve_updates` |
| `lifecycle.dfy` | `Lifecycle` | session-id counter, connection-status transitions, the three inbound filters |
| `pacing.dfy` | `Pacing` | frames ahead, the `waiting_network` flag and its hysteresis, `waiting_for_players` |
| `reconcile.dfy` | `Reconcile` | sorting a batch, `collect_controlled_player_updates`, `apply_world_updates` |
| `discard.dfy` | `Discard` | `discard_walk_actions` |
| `client_steps.dfy` | `ClientSteps` | one pure step per phase of a tick over the plain-valued resources, and what each step keeps |
| `client_network.dfy` | `ClientNetwork` | the resources (`ClientResources`), the phase methods and `ClientNetworkSystem` with `Run` |

How the parts connect:

- The stateful code is modelled as methods on classes. A frame buffer is an object whose
  slot sequence and watermark the system replaces in place. The system keeps its
  session counter and heartbeat frame in fields.
- Each method is proved against a pure step function. Its `ensures` says that the new
  state is the step's result, or that the method panics exactly when the step does.
- The promises of the system are proved about the step functions:
  - `Progress`: the outgoing log only grows, JoinRoom and StartHostedGame are each sent
    once, and the pause id never decreases;
  - the filters, the session-id arithmetic, the pause/unpause ordering, the hysteresis;
  - the contents of the buffers after a batch or a discard.
- A Rust panic (`expect`, `unwrap`, `assert!`, an index out of bounds) is modelled as
  `Outcome.Fail` with the reason in `Fatal`.

Two behaviours of the code that the model keeps as written:

- `discard_walk_actions` overwrites the watermark with the frame of the oldest removal,
  even when that frame is later than the current watermark.
- The spawn actions of a batch, like the controlled players' updates, are zipped by
  position onto consecutive slots from the batch's first frame on. An update whose frame
  is not one past the previous update's frame therefore does not land at its own frame.

## Model

| member | source | states |
|---|---|---|
| `Lifecycle.WrappingInc` | bins/client/src/ecs/systems/client_network.rs:52 | the successor of a 64-bit identifier, wrapping to 0 |
| `Lifecycle.CounterAfterIsModular` | bins/client/src/ecs/systems/client_network.rs:50-54 | after n allocations the counter is start + n modulo 2^64 |
| `Lifecycle.IssuedIdsDistinct` | bins/client/src/ecs/systems/client_network.rs:50-54 | any two allocations fewer than 2^64 apart hand out different session ids |
| `ClientNetwork.ClientNetworkSystem.constructor` | bins/client/src/ecs/systems/client_network.rs:43-47 | the default system: counter 0, heartbeat frame 0 |
| `ClientNetwork.ClientNetworkSystem.NextSessionId` | bins/client/src/ecs/systems/client_network.rs:50-54 | returns the old counter, advances it by a wrapping increment and touches nothing else |
| `Lifecycle.ExitStatusReasonInjective` | bins/client/src/ecs/systems/client_network.rs:161-167 | two different exit codes are never reported as the same reason: the reason keeps the whole code |
| `Lifecycle.AfterPeerDisconnect` | bins/client/src/ecs/systems/client_network.rs:375-395 | a server Disconnect is ignored once the session is over or while the client is Disconnecting; otherwise it records the reason; afterwards the client is neither connected nor connecting |
| `Lifecycle.PeerDisconnectFirstReasonWins` | bins/client/src/ecs/systems/client_network.rs:375-395 | a second Disconnect never overrides the first one's reason |
| `Lifecycle.AfterTransportDisconnected` | bins/client/src/ecs/systems/client_network.rs:399-412 | a lost transport fails the connection, except when the session is already over or the attempt started less than a second ago; it either changes nothing or yields ConnectionFailed(None) |
| `Lifecycle.TransportDisconnectedIsFinal` | bins/client/src/ecs/systems/client_network.rs:399-412 | once a lost transport took effect, later reports change nothing |
| `Lifecycle.AdmittedWhenDisconnected` | bins/client/src/ecs/systems/client_network.rs:200-239 | on a disconnected record an event gets through exactly when it is a lost transport, or a Handshake of the current session outside a game |
| `Lifecycle.AdmittedMessage` | bins/client/src/ecs/systems/client_network.rs:200-239 | a message gets through exactly when it has the record's session id, is a Handshake if the record is disconnected, and is no lobby message during a game |
| `Pacing.FramesAhead` | bins/client/src/ecs/systems/client_network.rs:458-462 | frames ahead never exceed the game frame; they are 0 exactly at frame 0 or once the acknowledged frame is a full delay ahead; before the acknowledged frame reaches the delay the whole game frame counts as ahead; otherwise they are the gap to the delayed acknowledged frame |
| `Pacing.FramesAheadAntitone` | bins/client/src/ecs/systems/client_network.rs:458-462 | a later acknowledged frame never increases frames ahead |
| `Pacing.NextWaitingNetwork` | bins/client/src/ecs/systems/client_network.rs:441-468 | before the delay the client always waits; exactly at the delay it waits iff more than the threshold ahead; after it, 0 ahead clears the flag, more than the threshold sets it, anything in between keeps it |
| `Pacing.WaitingNetworkHysteresis` | bins/client/src/ecs/systems/client_network.rs:464-468 | after start-up the flag rises only when more than the threshold ahead and falls only at 0 ahead |
| `Pacing.WaitingNetworkMonotoneInAck` | bins/client/src/ecs/systems/client_network.rs:441-468 | more acknowledged server frames never make the client wait when fewer would not |
| `Pacing.WaitingForPlayersMonotone` | bins/client/src/ecs/systems/client_network.rs:431-439 | a later game frame or an older server frame never ends a wait for the other players |
| `ClientSteps.WaitingForPlayersStepSpec` | bins/client/src/ecs/systems/client_network.rs:431-439 | with no lagging players nothing changes; otherwise only the waiting-for-players flag moves, and it is set exactly when the newest server frame is at most the delay ahead of the game frame |
| `Reconcile.InsertByFrame` | bins/client/src/ecs/systems/client_network.rs:332 | inserting into a frame-sorted batch keeps it sorted and adds exactly that update |
| `Reconcile.SortByFrame` | bins/client/src/ecs/systems/client_network.rs:332 | the sorted batch is ordered by frame and a permutation of the received one |
| `Reconcile.SortedLastIsLargest` | bins/client/src/ecs/systems/client_network.rs:332-341 | the last update of the sorted batch has the largest frame of the batch |
| `ClientSteps.AckCoversBatch` | bins/client/src/ecs/systems/client_network.rs:324-341 | every batch is acknowledged once, unreliably, on the record's session; a repeated or stale id changes nothing else; only the log and the cursor change; a newer id becomes the cursor's id, and its frame becomes the larger of the old frame and the batch's largest frame: never lower, covering every frame of the batch, and either the old frame or one of the batch's frames |
| `Reconcile.PositionControlled` | bins/client/src/ecs/systems/client_network.rs:594-597 | the position found is the first action of a controlled player; None iff there is none |
| `Reconcile.TakeFirstControlled` | bins/client/src/ecs/systems/client_network.rs:594-603 | at most one action is taken |
| `Reconcile.TakeIsPositionThenRemove` | bins/client/src/ecs/systems/client_network.rs:594-603 | taking is "find the first controlled action, then remove it at that position", or nothing when there is none |
| `Reconcile.TakeFirstControlledSpec` | bins/client/src/ecs/systems/client_network.rs:594-603 | taken plus left is the original multiset; nothing is taken iff no action is controlled, and then the list is unchanged; what is taken is controlled |
| `Reconcile.ExtractControlled` | bins/client/src/ecs/systems/client_network.rs:591-626 | one update's extraction keeps its frame and spawn actions and yields at most one walk and one cast action |
| `Reconcile.ExtractControlledMovesAtMostOne` | bins/client/src/ecs/systems/client_network.rs:594-614 | the walk and cast actions are split without loss between the received update and the stripped one; what moves belongs to a controlled player, and nothing moves iff no action is controlled |
| `Reconcile.ExtractControlledDropsLook` | bins/client/src/ecs/systems/client_network.rs:616-623 | at most one look action is dropped, and only a controlled one; none is dropped iff none is controlled |
| `Reconcile.ExtractControlledKeepsOrder` | bins/client/src/ecs/systems/client_network.rs:594-603 | the remaining walk actions keep their order: the first controlled one is cut out |
| `Reconcile.SkipCount` | bins/client/src/ecs/systems/client_network.rs:587-590 | the skipped prefix is the leading updates before the delay frame; the next update is past it |
| `Reconcile.SkipCountSorted` | bins/client/src/ecs/systems/client_network.rs:587-590 | in a sorted batch an update is processed iff its frame is at least the delay |
| `Reconcile.SkipWhileBeforeDelay` | bins/client/src/ecs/systems/client_network.rs:587-590 | the loop stops at the first update at or after the delay frame |
| `Reconcile.Collected` | bins/client/src/ecs/systems/client_network.rs:585-628 | one received update per update that is not skipped |
| `Reconcile.Stripped` | bins/client/src/ecs/systems/client_network.rs:585-628 | the batch keeps its length |
| `Reconcile.StrippedAndCollectedAt` | bins/client/src/ecs/systems/client_network.rs:585-628 | a skipped update is left as it was; every other update is stripped and contributes its extraction, in order |
| `Reconcile.StrippedKeepsFrames` | bins/client/src/ecs/systems/client_network.rs:585-628 | stripping keeps each update's frame and spawn actions |
| `Reconcile.CollectedAtMostOneEach` | bins/client/src/ecs/systems/client_network.rs:591-626 | each received update carries at most one walk and one cast action |
| `Reconcile.CollectControlledPlayerUpdates` | bins/client/src/ecs/systems/client_network.rs:581-628 | the loop returns exactly the collected updates and leaves exactly the stripped batch |
| `Framed.FirstVisited` | bins/client/src/ecs/systems/client_network.rs:556-557 | iteration from a start frame visits exactly the slots whose frame is at least the start |
| `Framed.Reserved` | bins/client/src/ecs/systems/client_network.rs:343-347 | reserving keeps every slot, appends only empty ones and leaves the back at the larger of the old back and the frame |
| `Framed.FramedUpdates.ReserveUpdates` | bins/client/src/ecs/systems/client_network.rs:346-347 | the buffer grows to `Reserved` and the watermark stays |
| `Reconcile.SpawnWritten` | bins/client/src/ecs/systems/client_network.rs:555-561 | slots before the first frame are unchanged; the k-th slot from the first frame gets the k-th update's spawn actions and nothing else; slots past the batch are unchanged; a buffer that starts after the first frame takes the zip from its front slot |
| `Reconcile.WriteSpawnActions` | bins/client/src/ecs/systems/client_network.rs:556-561 | the zip writes exactly `SpawnWritten` |
| `Reconcile.GeneralWritten` | bins/client/src/ecs/systems/client_network.rs:563-578 | nothing before the delayed start or past the batch changes; each slot from the undelayed start gets its server update appended; delayed slots up to where the batch runs out get the controlled updates in order |
| `Reconcile.MergeFrameUpdates` | bins/client/src/ecs/systems/client_network.rs:564-578 | the merge loop writes exactly `GeneralWritten`, stopping when the batch runs out |
| `Reconcile.ApplyWorldUpdates` | bins/client/src/ecs/systems/client_network.rs:516-579 | panics iff the buffer is empty or the delayed first frame is older than the buffer's front; otherwise an empty batch changes nothing; a non-empty batch sets both watermarks to the first frames it touches and writes `SpawnWritten` and `GeneralWritten` |
| `Reconcile.ControlledUpdatesAllLand` | bins/client/src/ecs/systems/client_network.rs:563-578 | the k-th collected controlled update lands k slots after the slot of the delayed first frame, whatever its own update's frame, as long as that slot exists |
| `Discard.IndexOf` | bins/client/src/ecs/systems/client_network.rs:638-640 | the position of the first equal id, None iff there is none |
| `Discard.RetainSpec` | bins/client/src/ecs/systems/client_network.rs:637-648 | one slot's retain: it keeps a sub-multiset of the walk actions and loses one per pending id struck; it keeps every action whose id is not pending; it leaves no kept action with a still-pending id; the watermark is this frame iff something was removed; with no removal the walk actions are unchanged |
| `Discard.RetainIds` | bins/client/src/ecs/systems/client_network.rs:637-648 | for each id, one slot's retain removes exactly as many actions with that id as it strikes listings of it |
| `Discard.RetainStrikesHeld` | bins/client/src/ecs/systems/client_network.rs:637-648 | an id listed at most once is struck by the retain of a slot that holds an action with it |
| `Discard.RetainWalkActions` | bins/client/src/ecs/systems/client_network.rs:637-648 | the retain loop computes `Retain` |
| `Discard.ScanFrom` | bins/client/src/ecs/systems/client_network.rs:635-653 | the newest-to-oldest scan keeps every slot and its frame |
| `Discard.ScanFromIds` | bins/client/src/ecs/systems/client_network.rs:635-653 | over the whole scan, for each id, the actions removed equal the listings struck |
| `Discard.DiscardedSpec` | bins/client/src/ecs/systems/client_network.rs:630-655 | after a discard the slots keep their frames, cast and look actions and lose only walk actions; actions with other ids stay; no remaining action carries an id still pending; for each id, the actions removed plus the listings left pending equal the listings, so each listing removes at most one action; with no removal the watermark stays, otherwise it is the frame of the oldest slot that lost an action |
| `Discard.NewestOccurrenceIsDiscarded` | bins/client/src/ecs/systems/client_network.rs:635-653 | for a single id, every slot older than a slot holding that id is left untouched: only the newest occurrence is removed |
| `Discard.NewestListedOccurrenceIsDiscarded` | bins/client/src/ecs/systems/client_network.rs:635-653 | an id listed at most once among many is struck in the newest slot holding it; every older slot keeps all its actions with that id |
| `Discard.DiscardedNewestFirst` | bins/client/src/ecs/systems/client_network.rs:630-655 | `discard_walk_actions` takes an id listed once from the newest slot holding it and from no older one |
| `Discard.DiscardWalkActions` | bins/client/src/ecs/systems/client_network.rs:630-655 | the buffer and its watermark become exactly `Discarded` |
| `ClientSteps.ProgressTransitive` | bins/client/src/ecs/systems/client_network.rs:77-481 | what a tick keeps composes across its phases |
| `ClientSteps.JoinAndStartSentOnce` | bins/client/src/ecs/systems/client_network.rs:121-134 | from a consistent start, each of JoinRoom and StartHostedGame is logged exactly as often as its flag says: at most once |
| `ClientSteps.UiCommandStepSpec` | bins/client/src/ecs/systems/client_network.rs:493-514 | the command is consumed; a Kick panics iff there is no connection or no such player; only a Kick sends, reliably, the kicked player's connection id |
| `ClientNetwork.ProcessUiNetworkCommand` | bins/client/src/ecs/systems/client_network.rs:493-514 | follows `UiCommandStep` |
| `ClientSteps.BootstrapSpec` | bins/client/src/ecs/systems/client_network.rs:107-140 | an inactive room drops the record; an active room without a record gets one iff joining; a new record carries the counter's id and spends it; a host never sends JoinRoom here |
| `ClientNetwork.ClientNetworkSystem.Bootstrap` | bins/client/src/ecs/systems/client_network.rs:107-140 | follows `BootstrapStep`, spending the session counter |
| `ClientSteps.StartIfHostSpec` | bins/client/src/ecs/systems/client_network.rs:142-156 | panics iff a start is due and there is no record; StartHostedGame is sent exactly when its flag rises; nothing else changes |
| `ClientNetwork.SendStartIfHost` | bins/client/src/ecs/systems/client_network.rs:142-156 | follows `StartIfHostStep` |
| `ClientSteps.ServerExitSpec` | bins/client/src/ecs/systems/client_network.rs:158-170 | panics iff the exited process has no exit code; after an exit the process is stopped and the session is over; only the status and process flag change |
| `ClientNetwork.ApplyServerExit` | bins/client/src/ecs/systems/client_network.rs:158-170 | follows `ServerExitStep` |
| `ClientSteps.LocalDisconnectSpec` | bins/client/src/ecs/systems/client_network.rs:185-198 | a pending disconnect sends Disconnect once, clears the request and marks the record for good; a non-host's session is then over; no pending request changes nothing |
| `ClientNetwork.LocalDisconnect` | bins/client/src/ecs/systems/client_network.rs:185-198 | follows `LocalDisconnectStep` |
| `ClientSteps.SessionChecksFacts` | bins/client/src/ecs/systems/client_network.rs:142-198 | the checks keep progress and the record's session id; they never create or drop a record; without one, a running game is marked disconnected |
| `ClientNetwork.CheckSession` | bins/client/src/ecs/systems/client_network.rs:142-198 | follows `SessionChecksStep` |
| `ClientSteps.PrepareFacts` | bins/client/src/ecs/systems/client_network.rs:97-198 | before the events the command is consumed; at most one session id is spent, and a new record holds it; the events are reached iff the room is active with a record; an inactive room with no command just drops the record |
| `ClientNetwork.ClientNetworkSystem.Prepare` | bins/client/src/ecs/systems/client_network.rs:97-198 | follows `PrepareSpec` |
| `ClientSteps.AfterPause` | bins/client/src/ecs/systems/client_network.rs:360-367 | only a newer pause id is taken, with its lagging players; any other pause leaves the game state exactly as it was; the pause id never decreases and the waiting flag is left to the end of the tick |
| `ClientSteps.AfterUnpause` | bins/client/src/ecs/systems/client_network.rs:368-374 | an unpause with the current or a newer id stops waiting and clears the lagging list; an older one changes nothing |
| `ClientSteps.StalePauseIgnored` | bins/client/src/ecs/systems/client_network.rs:360-374 | a pause arriving after an unpause of the same or a later id is ignored |
| `ClientSteps.MatchingUnpauseResumes` | bins/client/src/ecs/systems/client_network.rs:360-374 | the unpause matching a pause always resumes the game |
| `ClientSteps.HandshakeProgress` | bins/client/src/ecs/systems/client_network.rs:252-281 | a Handshake sends JoinRoom exactly when its flag rises and leaves the session alone |
| `ClientNetwork.OnHandshake` | bins/client/src/ecs/systems/client_network.rs:252-281 | follows `HandshakeStep` |
| `ClientSteps.LastPlayerWith` | bins/client/src/ecs/systems/client_network.rs:300-314 | the index of the last player with the connection id; None iff there is none |
| `ClientSteps.LastPlayerWithSnoc` | bins/client/src/ecs/systems/client_network.rs:300-314 | one more player becomes the last match exactly when it has the connection id; otherwise the last match stays |
| `ClientSteps.AssignEntityIds` | bins/client/src/ecs/systems/client_network.rs:300-305 | each player gets the entity id at its position and keeps the rest |
| `ClientSteps.StartGameAdoptsOwnEntity` | bins/client/src/ecs/systems/client_network.rs:286-323 | a started game is playing with the cursor reset, and the client's entity id is the one its own roster entry received |
| `ClientNetwork.AssignRoster` | bins/client/src/ecs/systems/client_network.rs:300-314 | the roster loop runs out of ids exactly when there are fewer ids than players; otherwise every player gets the id at its position, and the client's id is found exactly when some player has its connection id, as the last such player's id |
| `ClientNetwork.OnStartGame` | bins/client/src/ecs/systems/client_network.rs:286-323 | the roster loop follows `StartGameStep`, panics included |
| `ClientSteps.AckWorldProgress` | bins/client/src/ecs/systems/client_network.rs:324-341 | the acknowledgement keeps progress and the session |
| `TickSteps.AcceptBatchSpec` | bins/client/src/ecs/systems/client_network.rs:516-579 | accepting a batch panics exactly when its delayed first frame has left the general buffer; otherwise it never touches the action buffer, never drops a slot, keeps the watermarks for an empty batch, and every slot it changes lies at or after the watermark it leaves |
| `ClientNetwork.ReserveAndApply` | bins/client/src/ecs/systems/client_network.rs:343-354 | both buffers are reserved and then the sorted batch is applied, exactly as `AcceptBatch` prescribes, panic included |
| `ClientNetwork.AcceptWorldUpdate` | bins/client/src/ecs/systems/client_network.rs:331-355 | a newer batch moves the cursor to its id and newest frame, never back; the buffers become `AcceptBatch` of the batch sorted by frame, reserved up to the larger of the new cursor frame and the game frame, with the client's own player as the controlled one |
| `ClientNetwork.OnUpdateWorld` | bins/client/src/ecs/systems/client_network.rs:324-356 | follows `AckWorldStep`; a batch that is not newer leaves the buffers alone and cannot panic; a newer one goes through `AcceptBatch`; the only panic is a too-old update |
| `ClientSteps.MessageStepSpec` | bins/client/src/ecs/systems/client_network.rs:241-396 | every message keeps progress and the session; only StartGame can panic |
| `TickSteps.MessageWorldStep` | bins/client/src/ecs/systems/client_network.rs:241-397 | a message changes the plain resources as `MessageStep` says; only UpdateWorld touches the server buffers and only DiscardWalkActions the action buffer; the buffers stay consecutive; only StartGame and UpdateWorld can panic |
| `ClientNetwork.OnRoomMessage` | bins/client/src/ecs/systems/client_network.rs:252-395 | the messages that touch neither the buffers nor the cursor (heartbeats, pings, Handshake, room players, pause, unpause, Disconnect) follow `MessageStep` and never panic |
| `ClientNetwork.OnMessage` | bins/client/src/ecs/systems/client_network.rs:241-397 | follows `MessageWorldStep`, panics included |
| `ClientSteps.EventStepSpec` | bins/client/src/ecs/systems/client_network.rs:200-414 | every event keeps progress and the session; only StartGame can panic |
| `ClientSteps.DisconnectedRecordOnlySeesTransport` | bins/client/src/ecs/systems/client_network.rs:200-239 | in a game, a disconnected record is changed by nothing but a lost transport |
| `TickSteps.EventWorldStep` | bins/client/src/ecs/systems/client_network.rs:200-414 | an event changes the plain resources as `EventStep` says; a dropped event or one that is not a message leaves the buffers exactly as they were |
| `ClientNetwork.ProcessEvent` | bins/client/src/ecs/systems/client_network.rs:200-414 | follows `EventWorldStep`, panics included |
| `TickSteps.EventsStep` | bins/client/src/ecs/systems/client_network.rs:200-415 | draining the queue in arrival order keeps the session and the buffers consecutive |
| `TickSteps.EventsStepAppend` | bins/client/src/ecs/systems/client_network.rs:200-415 | draining a queue is draining its front and then, unless that panicked, the rest: nothing behind a panicking event is seen |
| `TickSteps.EventsStepProgress` | bins/client/src/ecs/systems/client_network.rs:200-415 | a drained queue keeps every `Progress` fact |
| `ClientNetwork.ClientNetworkSystem.DrainEvents` | bins/client/src/ecs/systems/client_network.rs:200-415 | follows `EventsStep` over the queue taken at the start, panics included; when it does not panic the queue is empty, the record and the command are untouched and progress is kept |
| `ClientNetwork.UpdateWaitingForPlayers` | bins/client/src/ecs/systems/client_network.rs:431-439 | follows `WaitingForPlayersStep` with the buffer's back frame as the server frame |
| `ClientNetwork.ClientNetworkSystem.Heartbeat` | bins/client/src/ecs/systems/client_network.rs:417-427 | a heartbeat goes out, reliably, iff more than 10 engine frames passed and the record is not disconnected; then the heartbeat frame moves to the engine frame |
| `ClientNetwork.ClientNetworkSystem.UpdateWaitingNetwork` | bins/client/src/ecs/systems/client_network.rs:441-468 | follows `WaitingNetworkStep`, in other words `NextWaitingNetwork` while playing |
| `ClientSteps.EndOfTickFrame` | bins/client/src/ecs/systems/client_network.rs:417-469 | after the events only the heartbeat is sent and only the two waiting flags change |
| `ClientSteps.EndOfTickFacts` | bins/client/src/ecs/systems/client_network.rs:417-469 | the end of the tick keeps progress and the session |
| `ClientNetwork.ClientNetworkSystem.EndOfTick` | bins/client/src/ecs/systems/client_network.rs:417-469 | follows `EndOfTickStep` and moves the heartbeat frame as `Heartbeat` does |
| `TickSteps.ConnectedTickFacts` | bins/client/src/ecs/systems/client_network.rs:200-469 | the rest of a connected tick keeps progress, the record, the session counter and the command, empties the queue and moves the heartbeat frame only to the engine frame |
| `ClientNetwork.ClientNetworkSystem.ConnectedTick` | bins/client/src/ecs/systems/client_network.rs:200-469 | follows `ConnectedTickStep`: the events, then the heartbeat and the two waiting flags; the heartbeat frame stays or becomes the engine frame |
| `TickSteps.TickStepFacts` | bins/client/src/ecs/systems/client_network.rs:77-481 | a tick that does not panic consumes the command and keeps progress: the log grows, JoinRoom and StartHostedGame go out once, and pause ids only rise; it spends at most one session id, which a new record carries; an active room with a record drains the queue; an active room without one marks a running game disconnected; the heartbeat frame never runs ahead of the engine; an inactive room with no command only drops the record |
| `ClientNetwork.ClientNetworkSystem.Run` | bins/client/src/ecs/systems/client_network.rs:77-481 | follows `TickStep` over the resources, the three buffers, the session counter and the heartbeat frame, panics included, with the facts of `TickStepFacts` stated outright |

## Left out

- I/O is left out. The transport, the system clock (`SystemTime::now`), the monotonic
  clock (`Instant::now`) and the game-time service become fields of `Tick`; the log
  messages are not modelled. The wall-clock reading `unixNow` is any natural number, so
  the panic of `duration_since(UNIX_EPOCH).expect(..)` on a clock set before 1970
  (`bins/client/src/ecs/systems/client_network.rs`, lines 129-130 and 271-272) is not modelled.
- `ping_pong_data` is left out; it only feeds a debug log line.
- `ServerCommand` is not part of this model. Only whether it runs and its exit code are
  modelled: `exit_status()` becomes the tick's `serverExit`, and `stop()` clears the
  started flag.
- gv_core's `FramedUpdates` is not part of this model. The buffer is modelled only at the
  interface the system uses: consecutive slots, the watermark, `reserve_updates` and
  `updates_iter_mut`. Reserving on an empty buffer is taken to create one slot at the
  requested frame.
- `apply_server_update` is modelled as appending the server update to the slot's list.
- `MultiplayerGameState::update_players` is not part of this model. It is taken to give
  the roster itself.
- `PAUSE_FRAME_THRESHOLD` is not part of this model. It is the constructor parameter
  `pauseFrameThreshold`.
- `INTERPOLATION_FRAME_DELAY` is taken as 10, the value the skip comment relies on.
- Frame numbers are unbounded naturals. The u64 width of frames is not modelled; the
  64-bit wrap-around of identifiers is.
- `Reconcile.SortByFrame`: the body is an insertion sort that, like `sort_by`, keeps
  updates of the same frame in arrival order. The contract states sorted and a
  permutation only, not this stability.
- `Reconcile.CollectControlledPlayerUpdates`: it returns the stripped batch as a new
  value instead of editing the vector in place.
- `ClientNetwork.ClientNetworkSystem.Run`: the state a panicking tick leaves behind is
  not described, only the reason. The same holds for every method that follows a step
  through `Follows`.
- `ClientNetwork.ClientNetworkSystem.Run` requires the engine frame to be no earlier
  than the last heartbeat frame, because the source's u64 subtraction would underflow
  otherwise.
- `ClientNetwork.OnStartGame` writes the roster back once, after the loop. The source
  writes each entry in place; the outcome is the same.
- `NetTypes.ConnectionStatus`: gv_core's connection-status enum is not part of this model.
  Its five variants and the predicates `IsConnected`, `IsConnecting`, `IsNotConnected`
  and `ConnectionId` are assumed from the way the system uses them.
