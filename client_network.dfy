/** The client's network system (ClientNetworkSystem), one `Run` per game tick: it turns
    the UI's Kick command into a message, keeps the single connection record of the
    current session, reports the exit of a locally started server, closes the connection
    on request, drains the inbound events through three filters into the room, game and
    frame-buffer resources, sends heartbeats, and decides whether the game has to wait
    for other players or for the network. Each phase is a method proved against the
    matching step of `ClientSteps`. */
module ClientNetwork {
  import opened NetTypes
  import opened Framed
  import opened Reconcile
  import opened Discard
  import opened Lifecycle
  import opened Pacing
  import opened ClientSteps
  import opened TickSteps

  /** The resources the system reads and writes: the plain-valued ones (see
      `ResourceState`) and the three frame buffers it shares with the rest of the client. */
  class ClientResources {
    var room: MultiplayerRoomState
    var game: MultiplayerGameState
    var newEngineState: GameEngineState
    var lastAck: LastAcknowledgedUpdate
    var connection: Option<NetConnectionModel>
    var serverCommandStarted: bool
    var uiCommand: Option<UiNetworkCommand>
    var events: seq<NetEvent>
    var sent: seq<SentMessage>
    const framedUpdates: FramedUpdates<ReceivedServerWorldUpdate>
    const playerActions: FramedUpdates<PlayerActionUpdates>
    const spawnActions: FramedUpdates<SpawnActions>

    ghost function State(): ResourceState
      reads this
    {
      ResourceState(room, game, newEngineState, lastAck, connection, serverCommandStarted, uiCommand, events, sent)
    }

    /** The contents and watermarks of the three frame buffers. */
    ghost function Bufs(): Buffers
      reads framedUpdates, playerActions, spawnActions
    {
      Buffers(framedUpdates.updates, framedUpdates.oldestUpdatedFrame,
              playerActions.updates, playerActions.oldestUpdatedFrame,
              spawnActions.updates, spawnActions.oldestUpdatedFrame)
    }

    ghost predicate Valid()
      reads this, framedUpdates, playerActions, spawnActions
    {
      framedUpdates.Valid() && playerActions.Valid() && spawnActions.Valid()
    }

    constructor (room: MultiplayerRoomState, game: MultiplayerGameState, engineState: GameEngineState,
                 framedUpdates: FramedUpdates<ReceivedServerWorldUpdate>,
                 playerActions: FramedUpdates<PlayerActionUpdates>,
                 spawnActions: FramedUpdates<SpawnActions>)
      requires framedUpdates.Valid() && playerActions.Valid() && spawnActions.Valid()
      ensures Valid()
      ensures State() == ResourceState(room, game, engineState, LastAcknowledgedUpdate(0, 0), None, false, None, [], [])
      ensures this.framedUpdates == framedUpdates && this.playerActions == playerActions && this.spawnActions == spawnActions
    {
      this.room := room;
      this.game := game;
      newEngineState := engineState;
      lastAck := LastAcknowledgedUpdate(0, 0);
      connection := None;
      serverCommandStarted := false;
      uiCommand := None;
      events := [];
      sent := [];
      this.framedUpdates := framedUpdates;
      this.playerActions := playerActions;
      this.spawnActions := spawnActions;
    }

    /** `send_message_reliable` / `send_message_unreliable` through connection `via`. */
    method Send(delivery: Delivery, via: NetConnectionModel, payload: ClientMessagePayload)
      modifies this
      ensures State() == Sent(old(State()), delivery, via, payload)
    {
      sent := sent + [SentMessage(delivery, via.sessionId, payload)];
    }
  }

  /** `process_ui_network_command` on the command taken from the UI resource. */
  method ProcessUiNetworkCommand(res: ClientResources) returns (outcome: Outcome)
    modifies res
    ensures Follows(outcome, res.State(), UiCommandStep(old(res.State())))
  {
    var command := res.uiCommand;
    res.uiCommand := None;
    outcome := Pass;
    match command {
      case Some(KickPlayer(n)) =>
        if res.connection.None? {
          return Fail(NoServerConnection);
        }
        if n >= |res.game.players| {
          return Fail(PlayerIndexOutOfBounds(n));
        }
        res.Send(Reliable, res.connection.value, Kick(res.game.players[n].connectionId));
      case _ =>
    }
  }

  /** The hosted start (see `StartIfHostStep`). */
  method SendStartIfHost(res: ClientResources) returns (outcome: Outcome)
    modifies res
    ensures Follows(outcome, res.State(), StartIfHostStep(old(res.State())))
  {
    outcome := Pass;
    if res.room.isHost && res.room.hasStarted && !res.room.hasSentStartMessage {
      res.room := res.room.(hasSentStartMessage := true);
      if res.connection.None? {
        return Fail(NoServerConnection);
      }
      res.Send(Reliable, res.connection.value, StartHostedGame);
    }
  }

  /** The exit of the locally started server (see `ServerExitStep`). */
  method ApplyServerExit(res: ClientResources, serverExit: Option<Option<int>>) returns (outcome: Outcome)
    modifies res
    ensures Follows(outcome, res.State(), ServerExitStep(old(res.State()), serverExit))
  {
    outcome := Pass;
    if res.serverCommandStarted && serverExit.Some? {
      if serverExit.value.None? {
        return Fail(MissingExitCode);
      }
      var code := serverExit.value.value;
      if code == 0 {
        res.room := res.room.(connectionStatus := Disconnected(Closed));
      } else {
        res.room := res.room.(connectionStatus := Disconnected(ServerCrashed(code)));
      }
      res.serverCommandStarted := false;
    }
  }

  /** A pending local disconnect (see `LocalDisconnectStep`). */
  method LocalDisconnect(res: ClientResources)
    requires res.connection.Some?
    modifies res
    ensures res.State() == LocalDisconnectStep(old(res.State()))
  {
    if res.room.pendingDisconnecting {
      res.room := res.room.(pendingDisconnecting := false);
      res.Send(Reliable, res.connection.value, ClientDisconnect);
      res.connection := Some(res.connection.value.(disconnected := true));
      if !res.room.isHost {
        res.room := res.room.(connectionStatus := Disconnected(Closed));
      }
    }
  }

  /** The session checks of an active room (see `SessionChecksStep`). */
  method CheckSession(res: ClientResources, tick: Tick) returns (outcome: Outcome)
    modifies res
    ensures Follows(outcome, res.State(), SessionChecksStep(old(res.State()), tick))
  {
    outcome := SendStartIfHost(res);
    if outcome.Fail? {
      return;
    }
    outcome := ApplyServerExit(res, tick.serverExit);
    if outcome.Fail? {
      return;
    }
    if res.connection.None? {
      if res.game.isPlaying && tick.engineState == Playing {
        res.game := res.game.(isDisconnected := true);
      }
      return;
    }
    LocalDisconnect(res);
  }

  /** While other players lag, wait for them as long as the client is within the delay of
      the newest frame the server has sent (see `WaitingForPlayersStep`). */
  method UpdateWaitingForPlayers(res: ClientResources, gameFrame: nat)
    modifies res
    ensures res.State() == WaitingForPlayersStep(old(res.State()), gameFrame, BackFrame(res.framedUpdates.updates))
  {
    if res.game.laggingPlayers != [] {
      var serverFrame := if res.framedUpdates.updates == [] then 0
                         else res.framedUpdates.updates[|res.framedUpdates.updates| - 1].frameNumber;
      res.game := res.game.(waitingForPlayers := gameFrame + INTERPOLATION_FRAME_DELAY >= serverFrame);
    }
  }

  /** `Handshake` (see `HandshakeStep`). */
  method OnHandshake(res: ClientResources, netId: NetId, isHost: bool, unixNow: nat)
    requires res.connection.Some?
    modifies res
    ensures res.State() == HandshakeStep(old(res.State()), netId, isHost, unixNow)
  {
    if !res.room.hasSentJoinMessage {
      res.room := res.room.(hasSentJoinMessage := true);
      res.Send(Reliable, res.connection.value, JoinRoom(unixNow, res.room.nickname));
    }
    res.room := res.room.(connectionStatus := Connected(netId), isHost := isHost);
  }

  /** The pass over the roster in `StartGame`: each player receives the entity id at its
      position, stopping at the first position without one, and the entity id of the last
      player holding `cid` is remembered. */
  method AssignRoster(players: seq<PlayerRecord>, ids: seq<NetId>, cid: NetId)
    returns (tooShort: bool, roster: seq<PlayerRecord>, selfNetId: Option<NetId>)
    ensures tooShort <==> |ids| < |players|
    ensures !tooShort ==> roster == AssignEntityIds(players, ids)
    ensures !tooShort ==> (selfNetId.Some? <==> LastPlayerWith(players, cid).Some?)
    ensures !tooShort && selfNetId.Some? ==> selfNetId.value == ids[LastPlayerWith(players, cid).value]
  {
    roster := players;
    selfNetId := None;
    var i := 0;
    while i < |players|
      invariant 0 <= i <= |players| && i <= |ids| && |roster| == |players|
      invariant forall j :: 0 <= j < i ==> roster[j] == players[j].(entityNetId := ids[j])
      invariant forall j :: i <= j < |players| ==> roster[j] == players[j]
      invariant selfNetId.Some? <==> LastPlayerWith(players[..i], cid).Some?
      invariant selfNetId.Some? ==> selfNetId.value == ids[LastPlayerWith(players[..i], cid).value]
    {
      if i >= |ids| {
        return true, roster, selfNetId;
      }
      roster := roster[i := roster[i].(entityNetId := ids[i])];
      LastPlayerWithSnoc(players, i, cid);
      if cid == roster[i].connectionId {
        selfNetId := Some(roster[i].entityNetId);
      }
      i := i + 1;
    }
    assert players[..i] == players;
    assert roster == AssignEntityIds(players, ids);
    tooShort := false;
  }

  /** `StartGame`: the cursor is reset, then one pass over the roster hands out the entity
      ids by position and finds this client's own entity id (see `StartGameStep`). */
  method OnStartGame(res: ClientResources, ids: seq<NetId>) returns (outcome: Outcome)
    modifies res
    ensures Follows(outcome, res.State(), StartGameStep(old(res.State()), ids))
  {
    res.lastAck := LastAcknowledgedUpdate(0, 0);
    var cid := res.room.connectionStatus.ConnectionId();
    if cid.None? {
      return Fail(NotConnectedOnStartGame);
    }
    var tooShort, roster, selfNetId := AssignRoster(res.game.players, ids, cid.value);
    if tooShort {
      return Fail(EntityIdsTooShort(|res.game.players|, |ids|));
    }
    if selfNetId.None? {
      return Fail(SelfNotFound(cid.value));
    }
    res.room := res.room.(playerNetId := selfNetId.value);
    res.game := res.game.(players := roster, isPlaying := true);
    res.newEngineState := Playing;
    outcome := Pass;
  }

  /** Both server buffers are grown up to `reserve`, then the sorted batch is applied
      with `controlled` as the player whose own updates go to the delayed frames (see
      `AcceptBatch`). */
  method ReserveAndApply(res: ClientResources, reserve: nat, controlled: seq<NetId>, sorted: seq<ServerWorldUpdate>)
    returns (outcome: Outcome)
    requires res.Valid()
    modifies res.framedUpdates, res.spawnActions
    ensures res.Valid()
    ensures BatchFollows(outcome, res.Bufs(), AcceptBatch(old(res.Bufs()), reserve, controlled, sorted))
  {
    res.framedUpdates.ReserveUpdates(reserve, EMPTY_SERVER_SLOT);
    res.spawnActions.ReserveUpdates(reserve, EMPTY_SPAWN_SLOT);
    outcome := ApplyWorldUpdates(controlled, res.framedUpdates, res.spawnActions, sorted);
  }

  /** A batch newer than the last acknowledged one: it is sorted by frame, moves the
      cursor (as `AckWorldStep` says), grows both server buffers up to the cursor's frame
      or the client's game frame, and is applied with this client's player as the
      controlled one. */
  method AcceptWorldUpdate(res: ClientResources, id: NetId, updates: seq<ServerWorldUpdate>, gameFrame: nat)
    returns (outcome: Outcome)
    requires res.Valid()
    modifies res, res.framedUpdates, res.spawnActions
    ensures res.Valid()
    ensures res.State() == old(res.State()).(lastAck := LastAcknowledgedUpdate(id, Max(old(res.lastAck.frameNumber), NewestFrame(SortByFrame(updates)))))
    ensures BatchFollows(outcome, res.Bufs(), AcceptBatch(old(res.Bufs()), Max(res.lastAck.frameNumber, gameFrame),
                                                          [old(res.room.playerNetId)], SortByFrame(updates)))
  {
    var sorted := SortByFrame(updates);
    res.lastAck := LastAcknowledgedUpdate(id, Max(res.lastAck.frameNumber, NewestFrame(sorted)));
    outcome := ReserveAndApply(res, Max(res.lastAck.frameNumber, gameFrame), [res.room.playerNetId], sorted);
  }

  /** `UpdateWorld`: the batch is acknowledged; only a batch with an id newer than the last
      acknowledged one is accepted, any other leaves the buffers alone. */
  method OnUpdateWorld(res: ClientResources, id: NetId, updates: seq<ServerWorldUpdate>, gameFrame: nat)
    returns (outcome: Outcome)
    requires res.Valid() && res.connection.Some?
    modifies res, res.framedUpdates, res.spawnActions
    ensures res.Valid()
    ensures res.State() == AckWorldStep(old(res.State()), id, updates)
    ensures old(res.lastAck.id) >= id ==> outcome == Pass && res.Bufs() == old(res.Bufs())
    ensures old(res.lastAck.id) < id ==>
              BatchFollows(outcome, res.Bufs(), AcceptBatch(old(res.Bufs()), Max(res.lastAck.frameNumber, gameFrame),
                                                            [old(res.room.playerNetId)], SortByFrame(updates)))
    ensures outcome.Fail? ==> outcome.error.TooOldServerUpdate?
  {
    res.Send(Unreliable, res.connection.value, AcknowledgeWorldUpdate(id));
    if res.lastAck.id < id {
      outcome := AcceptWorldUpdate(res, id, updates, gameFrame);
    } else {
      outcome := Pass;
    }
  }

  /** An admitted server message that touches neither the frame buffers nor the cursor:
      it changes the room or game resources as `MessageStep` says, and cannot fail. */
  method OnRoomMessage(res: ClientResources, payload: ServerMessagePayload, tick: Tick)
    requires res.connection.Some?
    requires !payload.StartGame? && !payload.UpdateWorld? && !payload.DiscardWalkActions?
    modifies res
    ensures MessageStep(old(res.State()), payload, tick) == Continued(res.State())
  {
    match payload {
      case Heartbeat =>
      case Ping(_) =>
      case Pong(_) =>
      case Handshake(netId, isHost) =>
        OnHandshake(res, netId, isHost, tick.unixNow);
      case UpdateRoomPlayers(players) =>
        res.game := res.game.(players := players);
      case PauseWaitingForPlayers(pauseId, lagging) =>
        res.game := AfterPause(res.game, pauseId, lagging);
      case UnpauseWaitingForPlayers(unpauseId) =>
        res.game := AfterUnpause(res.game, unpauseId);
      case Disconnect(reason) =>
        res.room := res.room.(connectionStatus := AfterPeerDisconnect(res.room.connectionStatus, reason));
    }
  }

  /** An admitted server message (see `MessageWorldStep`); the frame buffers change only
      for UpdateWorld (see `OnUpdateWorld`) and DiscardWalkActions (see
      `Discard.DiscardWalkActions`). */
  method OnMessage(res: ClientResources, payload: ServerMessagePayload, tick: Tick) returns (outcome: Outcome)
    requires res.Valid() && res.connection.Some?
    modifies res, res.framedUpdates, res.playerActions, res.spawnActions
    ensures res.Valid()
    ensures WorldFollows(outcome, res.State(), res.Bufs(), MessageWorldStep(old(res.State()), old(res.Bufs()), payload, tick))
  {
    outcome := Pass;
    match payload {
      case StartGame(ids) =>
        outcome := OnStartGame(res, ids);
      case UpdateWorld(id, updates) =>
        outcome := OnUpdateWorld(res, id, updates, tick.gameFrame);
      case DiscardWalkActions(discarded) =>
        Discard.DiscardWalkActions(res.playerActions, discarded);
      case _ =>
        OnRoomMessage(res, payload, tick);
    }
  }

  /** One inbound event: the three filters, then the dispatch on its kind (see
      `EventWorldStep`); only an admitted message reaches the frame buffers. */
  method ProcessEvent(res: ClientResources, event: NetEvent, tick: Tick) returns (outcome: Outcome)
    requires res.Valid() && res.connection.Some?
    modifies res, res.framedUpdates, res.playerActions, res.spawnActions
    ensures res.Valid()
    ensures WorldFollows(outcome, res.State(), res.Bufs(), EventWorldStep(old(res.State()), old(res.Bufs()), event, tick))
  {
    var connection := res.connection.value;
    outcome := Pass;
    if !PassesDisconnectedFilter(event, connection.disconnected) ||
       !PassesSessionFilter(event, connection.sessionId) ||
       !PassesPlayingFilter(event, res.game.isPlaying) {
      return;
    }
    match event {
      case OtherNetEvent =>
      case TransportDisconnected =>
        res.room := res.room.(connectionStatus := AfterTransportDisconnected(res.room.connectionStatus, tick.nowNanos));
      case Message(m) =>
        outcome := OnMessage(res, m.payload, tick);
    }
  }

  class ClientNetworkSystem {
    var sessionIdAutoinc: NetId
    var lastHeartbeatFrame: nat
    /** PAUSE_FRAME_THRESHOLD: how many frames ahead of the delayed server stream the
        client may run before it waits for the network. */
    const pauseFrameThreshold: nat

    constructor (pauseFrameThreshold: nat)
      ensures sessionIdAutoinc == 0 && lastHeartbeatFrame == 0
      ensures this.pauseFrameThreshold == pauseFrameThreshold
    {
      sessionIdAutoinc := 0;
      lastHeartbeatFrame := 0;
      this.pauseFrameThreshold := pauseFrameThreshold;
    }

    /** `next_session_id`: hands out the counter and advances it, wrapping around. */
    method NextSessionId() returns (id: NetId)
      modifies this
      ensures id == old(sessionIdAutoinc) && sessionIdAutoinc == WrappingInc(old(sessionIdAutoinc))
      ensures lastHeartbeatFrame == old(lastHeartbeatFrame)
    {
      id := sessionIdAutoinc;
      sessionIdAutoinc := if sessionIdAutoinc == NET_ID_MODULUS - 1 then 0 else sessionIdAutoinc + 1;
    }

    /** The set-up at the start of a tick (see `BootstrapStep`). */
    method Bootstrap(res: ClientResources, unixNow: nat) returns (active: bool)
      modifies this, res
      ensures lastHeartbeatFrame == old(lastHeartbeatFrame)
      ensures Booted(active, res.State(), sessionIdAutoinc) == BootstrapStep(old(res.State()), old(sessionIdAutoinc), unixNow)
    {
      var isJoining := res.room.connectionStatus.IsConnected() ||
                       (res.room.connectionStatus.IsConnecting() && !res.room.isHost);
      if !res.room.isActive {
        res.connection := None;
        return false;
      }
      if res.connection.None? && isJoining {
        var sessionId := NextSessionId();
        var record := NetConnectionModel(0, sessionId, res.room.serverAddr, false);
        if !res.room.isHost && !res.room.hasSentJoinMessage {
          res.room := res.room.(hasSentJoinMessage := true);
          res.Send(Reliable, record, JoinRoom(unixNow, res.room.nickname));
        }
        res.connection := Some(record);
      }
      active := true;
    }

    /** Everything a tick does before the inbound events (see `PrepareSpec`). */
    method Prepare(res: ClientResources, tick: Tick) returns (outcome: Outcome, connected: bool)
      modifies this, res
      ensures lastHeartbeatFrame == old(lastHeartbeatFrame)
      ensures match PrepareSpec(old(res.State()), old(sessionIdAutoinc), tick)
        case PreparePanicked(e) => outcome == Fail(e) && !connected
        case Prepared(c, t, n) => outcome == Pass && connected == c && res.State() == t && sessionIdAutoinc == n
    {
      connected := false;
      outcome := ProcessUiNetworkCommand(res);
      if outcome.Fail? {
        return;
      }
      var active := Bootstrap(res, tick.unixNow);
      if !active {
        return;
      }
      outcome := CheckSession(res, tick);
      connected := outcome.Pass? && res.connection.Some?;
    }

    /** The inbound events, taken from the queue and handled in arrival order (see
        `EventsStep`); the first panic ends the tick. */
    method DrainEvents(res: ClientResources, tick: Tick) returns (outcome: Outcome)
      requires res.Valid() && res.connection.Some?
      modifies res, res.framedUpdates, res.playerActions, res.spawnActions
      ensures res.Valid()
      ensures WorldFollows(outcome, res.State(), res.Bufs(),
                           EventsStep(old(res.State()).(events := []), old(res.Bufs()), old(res.events), tick))
      ensures outcome.Pass? ==>
                && res.events == [] && res.connection == old(res.connection) && res.uiCommand == old(res.uiCommand)
                && Progress(old(res.State()), res.State())
    {
      ghost var start := res.State();
      var events := res.events;
      res.events := [];
      ghost var target := EventsStep(res.State(), res.Bufs(), events, tick);
      assert target == EventsStep(old(res.State()).(events := []), old(res.Bufs()), old(res.events), tick);
      ProgressOfStep(start, res.State(), []);
      EventsStepProgress(res.State(), res.Bufs(), events, tick);
      var k := 0;
      outcome := Pass;
      while k < |events|
        invariant 0 <= k <= |events|
        invariant res.Valid() && res.connection == old(res.connection)
        invariant EventsStep(res.State(), res.Bufs(), events[k..], tick) == target
        invariant outcome == Pass
      {
        ghost var before, bufs := res.State(), res.Bufs();
        assert events[k..][0] == events[k] && events[k..][1..] == events[k + 1..];
        EventStepSpec(before, events[k], tick);
        outcome := ProcessEvent(res, events[k], tick);
        if outcome.Fail? {
          assert EventWorldStep(before, bufs, events[k], tick) == WorldPanicked(outcome.error);
          return;
        }
        assert EventWorldStep(before, bufs, events[k], tick) == WorldContinued(res.State(), res.Bufs());
        k := k + 1;
      }
      assert events[k..] == [];
      ProgressTransitive(start, start.(events := []), res.State());
    }

    /** `send_heartbeat` (see `HeartbeatDue` and `HeartbeatStep`). */
    method Heartbeat(res: ClientResources, engineFrame: nat)
      requires res.connection.Some?
      modifies this, res
      ensures sessionIdAutoinc == old(sessionIdAutoinc)
      ensures var due := HeartbeatDue(old(lastHeartbeatFrame), engineFrame, old(res.connection).value.disconnected);
        && res.State() == HeartbeatStep(old(res.State()), due)
        && lastHeartbeatFrame == if due then engineFrame else old(lastHeartbeatFrame)
    {
      if engineFrame - lastHeartbeatFrame > HEARTBEAT_FRAME_INTERVAL && !res.connection.value.disconnected {
        lastHeartbeatFrame := engineFrame;
        res.Send(Reliable, res.connection.value, ClientHeartbeat);
      }
    }

    /** The `waiting_network` flag, computed the way the system does it (see
        `WaitingNetworkStep` and `NextWaitingNetwork`). */
    method UpdateWaitingNetwork(res: ClientResources, tick: Tick)
      modifies res
      ensures res.State() == WaitingNetworkStep(old(res.State()), tick, pauseFrameThreshold)
    {
      if tick.engineState == Playing && res.game.isPlaying {
        if tick.gameFrameAbsolute < INTERPOLATION_FRAME_DELAY {
          res.game := res.game.(waitingNetwork := true);
          return;
        } else if tick.gameFrameAbsolute == INTERPOLATION_FRAME_DELAY {
          res.game := res.game.(waitingNetwork := false);
        }
        var framesAhead := SaturatingSub(tick.gameFrame, SaturatingSub(res.lastAck.frameNumber, INTERPOLATION_FRAME_DELAY));
        if res.game.waitingNetwork {
          res.game := res.game.(waitingNetwork := framesAhead != 0);
        } else if framesAhead > pauseFrameThreshold {
          res.game := res.game.(waitingNetwork := true);
        }
      }
    }

    /** What a tick does after the events (see `EndOfTickStep`). */
    method EndOfTick(res: ClientResources, tick: Tick)
      requires res.connection.Some?
      modifies this, res
      ensures sessionIdAutoinc == old(sessionIdAutoinc)
      ensures var due := HeartbeatDue(old(lastHeartbeatFrame), tick.engineFrame, old(res.connection).value.disconnected);
        && res.State() == EndOfTickStep(old(res.State()), due, tick, BackFrame(res.framedUpdates.updates), pauseFrameThreshold)
        && lastHeartbeatFrame == if due then tick.engineFrame else old(lastHeartbeatFrame)
    {
      Heartbeat(res, tick.engineFrame);
      UpdateWaitingForPlayers(res, tick.gameFrame);
      UpdateWaitingNetwork(res, tick);
    }

    /** The rest of a tick once the room is active and connected (see
        `ConnectedTickStep`). */
    method ConnectedTick(res: ClientResources, tick: Tick) returns (outcome: Outcome)
      requires res.Valid() && res.connection.Some?
      modifies this, res, res.framedUpdates, res.playerActions, res.spawnActions
      ensures res.Valid()
      ensures lastHeartbeatFrame == old(lastHeartbeatFrame) || lastHeartbeatFrame == tick.engineFrame
      ensures TickFollows(outcome, res.State(), res.Bufs(), sessionIdAutoinc, lastHeartbeatFrame,
                          ConnectedTickStep(old(res.State()), old(res.Bufs()), old(sessionIdAutoinc), old(lastHeartbeatFrame),
                                            pauseFrameThreshold, tick))
    {
      outcome := DrainEvents(res, tick);
      if outcome.Fail? {
        return;
      }
      EndOfTick(res, tick);
    }

    /** One tick of the system (`run`), as `TickStep` prescribes. A tick that panics is
        reported as `Fail`; the state it leaves is not described. */
    method Run(res: ClientResources, tick: Tick) returns (outcome: Outcome)
      requires res.Valid() && lastHeartbeatFrame <= tick.engineFrame
      modifies this, res, res.framedUpdates, res.playerActions, res.spawnActions
      ensures res.Valid() && lastHeartbeatFrame <= tick.engineFrame
      ensures TickFollows(outcome, res.State(), res.Bufs(), sessionIdAutoinc, lastHeartbeatFrame,
                          TickStep(old(res.State()), old(res.Bufs()), old(sessionIdAutoinc), old(lastHeartbeatFrame),
                                   pauseFrameThreshold, tick))
      ensures outcome.Pass? ==>
                && res.uiCommand == None && Progress(old(res.State()), res.State())
                && (sessionIdAutoinc == old(sessionIdAutoinc) || sessionIdAutoinc == WrappingInc(old(sessionIdAutoinc)))
                && (res.connection.Some? && old(res.connection).None? ==>
                      res.connection.value.sessionId == old(sessionIdAutoinc) && sessionIdAutoinc == WrappingInc(old(sessionIdAutoinc)))
                && (old(res.room.isActive) && res.connection.Some? ==> res.events == [])
                && (old(res.room.isActive) && res.connection.None? && old(res.game.isPlaying) && tick.engineState == Playing ==>
                      res.game.isDisconnected)
      ensures old(res.uiCommand).None? && !old(res.room.isActive) ==>
                outcome == Pass && res.State() == old(res.State()).(connection := None)
    {
      TickStepFacts(res.State(), res.Bufs(), sessionIdAutoinc, lastHeartbeatFrame, pauseFrameThreshold, tick);
      var connected;
      outcome, connected := Prepare(res, tick);
      if !connected {
        return;
      }
      outcome := ConnectedTick(res, tick);
    }
  }
}
