/** The client network system's effect on its plain-valued resources, one pure step per
    phase of a tick, and the facts every step keeps. The frame buffers are not part of
    these values: what the system does to them is stated by the methods that touch them. */
module ClientSteps {
  import opened NetTypes
  import opened Reconcile
  import opened Lifecycle
  import opened Pacing

  /** What one tick reads from the game-time service, the engine, the clocks and the
      locally started server process. `serverExit` is None while that process runs,
      Some(code) once it exited, with code None when it was killed by a signal. */
  datatype Tick = Tick(
    engineState: GameEngineState,
    engineFrame: nat,
    gameFrame: nat,
    gameFrameAbsolute: nat,
    nowNanos: nat,
    unixNow: nat,
    serverExit: Option<Option<int>>)

  /** The plain-valued resources of the system. `connection` is the connection-model
      storage (at most one record, the server connection), `serverCommandStarted` whether
      the locally started server runs, `events` the inbound queue and `sent` everything
      handed to the transport, in order. */
  datatype ResourceState = ResourceState(
    room: MultiplayerRoomState,
    game: MultiplayerGameState,
    newEngineState: GameEngineState,
    lastAck: LastAcknowledgedUpdate,
    connection: Option<NetConnectionModel>,
    serverCommandStarted: bool,
    uiCommand: Option<UiNetworkCommand>,
    events: seq<NetEvent>,
    sent: seq<SentMessage>)

  /** A step either panics or continues with a new state. */
  datatype Stepped = Panicked(error: Fatal) | Continued(state: ResourceState)

  /** A method's outcome and new state are the ones `expected` prescribes. */
  ghost predicate Follows(outcome: Outcome, now: ResourceState, expected: Stepped) {
    match expected
    case Panicked(e) => outcome == Fail(e)
    case Continued(t) => outcome == Pass && now == t
  }

  /** `send_message_reliable` / `send_message_unreliable` through connection `via`. */
  function Sent(s: ResourceState, delivery: Delivery, via: NetConnectionModel, payload: ClientMessagePayload): ResourceState {
    s.(sent := s.sent + [SentMessage(delivery, via.sessionId, payload)])
  }

  // ---------------------------------------------------------------------------
  // What every step that does not panic keeps

  /** The outgoing log only grows; a JoinRoom (StartHostedGame) is logged exactly when
      the "has sent join (start) message" flag goes up, and those flags never go down;
      the pause id never decreases. */
  ghost predicate Progress(before: ResourceState, after: ResourceState) {
    && before.sent <= after.sent
    && (before.room.hasSentJoinMessage ==> after.room.hasSentJoinMessage)
    && (before.room.hasSentStartMessage ==> after.room.hasSentStartMessage)
    && CountKind(after.sent, JoinRoomKind) ==
         CountKind(before.sent, JoinRoomKind) + (if after.room.hasSentJoinMessage && !before.room.hasSentJoinMessage then 1 else 0)
    && CountKind(after.sent, StartHostedGameKind) ==
         CountKind(before.sent, StartHostedGameKind) + (if after.room.hasSentStartMessage && !before.room.hasSentStartMessage then 1 else 0)
    && before.game.waitingForPlayersPauseId <= after.game.waitingForPlayersPauseId
  }

  lemma ProgressTransitive(a: ResourceState, b: ResourceState, c: ResourceState)
    requires Progress(a, b) && Progress(b, c)
    ensures Progress(a, c)
  {
  }

  /** A step that logs at most one message keeps `Progress` when that message is a
      JoinRoom (StartHostedGame) exactly when the matching flag goes up. */
  lemma {:induction false} ProgressOfStep(before: ResourceState, after: ResourceState, extra: seq<SentMessage>)
    requires |extra| <= 1 && after.sent == before.sent + extra
    requires before.room.hasSentJoinMessage ==> after.room.hasSentJoinMessage
    requires before.room.hasSentStartMessage ==> after.room.hasSentStartMessage
    requires (after.room.hasSentJoinMessage && !before.room.hasSentJoinMessage) <==>
             (extra != [] && KindOf(extra[0].payload) == JoinRoomKind)
    requires (after.room.hasSentStartMessage && !before.room.hasSentStartMessage) <==>
             (extra != [] && KindOf(extra[0].payload) == StartHostedGameKind)
    requires before.game.waitingForPlayersPauseId <= after.game.waitingForPlayersPauseId
    ensures Progress(before, after)
  {
    CountKindAppend(before.sent, extra, JoinRoomKind);
    CountKindAppend(before.sent, extra, StartHostedGameKind);
    if extra != [] {
      assert extra[..0] == [];
    }
  }

  /** Started with each flag matching its count of logged messages, steps that keep
      `Progress` log at most one JoinRoom and at most one StartHostedGame. */
  lemma JoinAndStartSentOnce(before: ResourceState, after: ResourceState)
    requires CountKind(before.sent, JoinRoomKind) == (if before.room.hasSentJoinMessage then 1 else 0)
    requires CountKind(before.sent, StartHostedGameKind) == (if before.room.hasSentStartMessage then 1 else 0)
    requires Progress(before, after)
    ensures CountKind(after.sent, JoinRoomKind) == (if after.room.hasSentJoinMessage then 1 else 0)
    ensures CountKind(after.sent, StartHostedGameKind) == (if after.room.hasSentStartMessage then 1 else 0)
  {
  }

  /** The record, the event queue and the UI command are left alone. */
  ghost predicate SameSession(before: ResourceState, after: ResourceState) {
    after.connection == before.connection && after.events == before.events && after.uiCommand == before.uiCommand
  }

  // ---------------------------------------------------------------------------
  // The phases before the events

  /** `process_ui_network_command` on the taken command: only Kick does anything; it
      needs the server connection first and then the kicked player's roster entry. */
  function UiCommandStep(s: ResourceState): Stepped {
    var t := s.(uiCommand := None);
    match s.uiCommand
    case Some(KickPlayer(n)) =>
      if s.connection.None? then Panicked(NoServerConnection)
      else if n >= |s.game.players| then Panicked(PlayerIndexOutOfBounds(n))
      else Continued(Sent(t, Reliable, s.connection.value, Kick(s.game.players[n].connectionId)))
    case _ => Continued(t)
  }

  /** The command is consumed; only a Kick can panic (no connection, or no such player)
      and only a Kick sends anything: the kicked player's connection id, reliably. */
  lemma UiCommandStepSpec(s: ResourceState)
    ensures var r := UiCommandStep(s);
      && (r.Panicked? <==> s.uiCommand.Some? && s.uiCommand.value.KickPlayer? &&
                           (s.connection.None? || s.uiCommand.value.playerNumber >= |s.game.players|))
      && (r.Continued? ==>
            && r.state.uiCommand == None && Progress(s, r.state)
            && r.state == s.(uiCommand := None, sent := r.state.sent)
            && (r.state.sent == s.sent ||
                  (s.uiCommand.Some? && s.uiCommand.value.KickPlayer? &&
                   r.state.sent == s.sent + [SentMessage(Reliable, s.connection.value.sessionId,
                                                         Kick(s.game.players[s.uiCommand.value.playerNumber].connectionId))])))
  {
    var r := UiCommandStep(s);
    if r.Continued? {
      if r.state.sent == s.sent {
        ProgressOfStep(s, r.state, []);
      } else {
        ProgressOfStep(s, r.state, [r.state.sent[|r.state.sent| - 1]]);
      }
    }
  }

  /** Result of the set-up phase: whether the room is active, the new state and the
      session counter. */
  datatype Booted = Booted(active: bool, state: ResourceState, counter: NetId)

  /** An inactive room drops the connection record. Otherwise, when there is no record
      and the client is joining, a record is created for a fresh session, and a client
      that does not host the server sends JoinRoom on it once. */
  function BootstrapStep(s: ResourceState, counter: NetId, unixNow: nat): Booted {
    if !s.room.isActive then Booted(false, s.(connection := None), counter)
    else if s.connection.None? && IsJoining(s.room.connectionStatus, s.room.isHost) then
      var record := NetConnectionModel(0, counter, s.room.serverAddr, false);
      if !s.room.isHost && !s.room.hasSentJoinMessage then
        var t := Sent(s.(room := s.room.(hasSentJoinMessage := true)), Reliable, record, JoinRoom(unixNow, s.room.nickname));
        Booted(true, t.(connection := Some(record)), WrappingInc(counter))
      else Booted(true, s.(connection := Some(record)), WrappingInc(counter))
    else Booted(true, s, counter)
  }

  /** The set-up keeps `Progress`, spends a session id exactly when it creates a record
      (which then carries that id and is not disconnected), leaves an existing record
      alone, and never sends JoinRoom for a client that hosts the server. */
  lemma BootstrapSpec(s: ResourceState, counter: NetId, unixNow: nat)
    ensures var b := BootstrapStep(s, counter, unixNow);
      && b.active == s.room.isActive
      && (!b.active ==> b.state == s.(connection := None) && b.counter == counter)
      && Progress(s, b.state)
      && b.state.game == s.game && b.state.events == s.events && b.state.uiCommand == s.uiCommand
      && (b.active && s.connection.Some? ==> b.state == s && b.counter == counter)
      && (b.active && s.connection.None? ==>
            (b.state.connection.Some? <==> IsJoining(s.room.connectionStatus, s.room.isHost)))
      && (b.state.connection.Some? && s.connection.None? ==>
            && b.state.connection.value.sessionId == counter && !b.state.connection.value.disconnected
            && b.counter == WrappingInc(counter))
      && (b.state.connection.None? || s.connection.Some? ==> b.counter == counter)
      && (CountKind(b.state.sent, JoinRoomKind) > CountKind(s.sent, JoinRoomKind) ==> !s.room.isHost)
  {
    var b := BootstrapStep(s, counter, unixNow);
    if b.state.sent == s.sent {
      ProgressOfStep(s, b.state, []);
    } else {
      ProgressOfStep(s, b.state, [b.state.sent[|b.state.sent| - 1]]);
    }
  }

  /** Once a host has started the game, StartHostedGame is sent once; the flag goes up
      before the connection is looked up. */
  function StartIfHostStep(s: ResourceState): Stepped {
    if s.room.isHost && s.room.hasStarted && !s.room.hasSentStartMessage then
      var t := s.(room := s.room.(hasSentStartMessage := true));
      if s.connection.None? then Panicked(NoServerConnection)
      else Continued(Sent(t, Reliable, s.connection.value, StartHostedGame))
    else Continued(s)
  }

  /** The hosted start panics only when due without a record; it keeps `Progress` (so
      StartHostedGame goes out exactly when its flag goes up) and touches nothing but the
      flag and the log. */
  lemma StartIfHostSpec(s: ResourceState)
    ensures var r := StartIfHostStep(s);
      && (r.Panicked? <==> s.room.isHost && s.room.hasStarted && !s.room.hasSentStartMessage && s.connection.None?)
      && (r.Continued? ==>
            && Progress(s, r.state)
            && r.state == s.(room := r.state.room, sent := r.state.sent)
            && r.state.room == s.room.(hasSentStartMessage := r.state.room.hasSentStartMessage))
  {
    var r := StartIfHostStep(s);
    if r.Continued? {
      if r.state.sent == s.sent {
        ProgressOfStep(s, r.state, []);
      } else {
        ProgressOfStep(s, r.state, [r.state.sent[|r.state.sent| - 1]]);
      }
    }
  }

  /** The exit of a locally started server ends the session: a zero exit code closes it,
      any other code reports a crash, and a missing code (killed by a signal) panics; the
      process handle is then stopped. */
  function ServerExitStep(s: ResourceState, serverExit: Option<Option<int>>): Stepped {
    if s.serverCommandStarted && serverExit.Some? then
      match serverExit.value
      case None => Panicked(MissingExitCode)
      case Some(code) =>
        Continued(s.(room := s.room.(connectionStatus := Disconnected(ExitStatusReason(code))),
                     serverCommandStarted := false))
    else Continued(s)
  }

  /** After the server process exited the session is over and the process is no longer
      tracked; nothing else moves. */
  lemma ServerExitSpec(s: ResourceState, serverExit: Option<Option<int>>)
    ensures var r := ServerExitStep(s, serverExit);
      && (r.Panicked? <==> s.serverCommandStarted && serverExit == Some(None))
      && (r.Continued? ==>
            && Progress(s, r.state)
            && r.state == s.(room := r.state.room, serverCommandStarted := r.state.serverCommandStarted)
            && r.state.room == s.room.(connectionStatus := r.state.room.connectionStatus))
      && (s.serverCommandStarted && serverExit.Some? && r.Continued? ==>
            !r.state.serverCommandStarted && r.state.room.connectionStatus.IsNotConnected())
  {
    ProgressOfStep(s, s, []);
    var r := ServerExitStep(s, serverExit);
    if r.Continued? {
      ProgressOfStep(s, r.state, []);
    }
  }

  /** No record: a client in a running game has lost its server. */
  function LostConnectionStep(s: ResourceState, engineState: GameEngineState): ResourceState {
    if s.game.isPlaying && engineState == Playing then s.(game := s.game.(isDisconnected := true)) else s
  }

  /** A pending local disconnect: Disconnect goes out on the record, which is then marked
      disconnected; a client that does not host the server also closes its session (the
      host's status is left to its server's shutdown). */
  function LocalDisconnectStep(s: ResourceState): ResourceState
    requires s.connection.Some?
  {
    if s.room.pendingDisconnecting then
      var c := s.connection.value;
      var t := Sent(s.(room := s.room.(pendingDisconnecting := false)), Reliable, c, ClientDisconnect);
      var u := t.(connection := Some(c.(disconnected := true)));
      if s.room.isHost then u else u.(room := u.room.(connectionStatus := Disconnected(Closed)))
    else s
  }

  /** The local disconnect keeps the session id, marks the record for good and, for a
      client that does not host the server, ends the session. */
  lemma LocalDisconnectSpec(s: ResourceState)
    requires s.connection.Some?
    ensures var r := LocalDisconnectStep(s);
      && Progress(s, r)
      && r.game == s.game && r.events == s.events && r.uiCommand == s.uiCommand
      && r.connection.Some? && r.connection.value.sessionId == s.connection.value.sessionId
      && (s.connection.value.disconnected ==> r.connection.value.disconnected)
      && (s.room.pendingDisconnecting ==>
            && !r.room.pendingDisconnecting && r.connection.value.disconnected
            && r.sent == s.sent + [SentMessage(Reliable, s.connection.value.sessionId, ClientDisconnect)]
            && (!s.room.isHost ==> r.room.connectionStatus.IsNotConnected()))
      && (!s.room.pendingDisconnecting ==> r == s)
  {
    var r := LocalDisconnectStep(s);
    if s.room.pendingDisconnecting {
      ProgressOfStep(s, r, [r.sent[|r.sent| - 1]]);
    } else {
      ProgressOfStep(s, r, []);
    }
  }

  /** The checks on an active session after the set-up: the hosted start, the local
      server's exit, then either the lost record or a pending local disconnect. */
  function SessionChecksStep(s: ResourceState, tick: Tick): Stepped {
    match StartIfHostStep(s)
    case Panicked(e) => Panicked(e)
    case Continued(s1) =>
      match ServerExitStep(s1, tick.serverExit)
      case Panicked(e) => Panicked(e)
      case Continued(s2) =>
        if s2.connection.None? then Continued(LostConnectionStep(s2, tick.engineState))
        else Continued(LocalDisconnectStep(s2))
  }

  /** The checks keep `Progress` and the session id of the record; they never create or
      drop a record; without one, a running game is marked disconnected. */
  lemma SessionChecksFacts(s: ResourceState, tick: Tick)
    ensures var r := SessionChecksStep(s, tick);
      r.Continued? ==>
        && Progress(s, r.state) && r.state.uiCommand == s.uiCommand && r.state.events == s.events
        && (r.state.connection.Some? <==> s.connection.Some?)
        && (s.connection.Some? ==> r.state.connection.value.sessionId == s.connection.value.sessionId)
        && (s.connection.None? && s.game.isPlaying && tick.engineState == Playing ==> r.state.game.isDisconnected)
  {
    StartIfHostSpec(s);
    match StartIfHostStep(s)
    case Panicked(_) =>
    case Continued(s1) =>
      ServerExitSpec(s1, tick.serverExit);
      match ServerExitStep(s1, tick.serverExit)
      case Panicked(_) =>
      case Continued(s2) =>
        ProgressTransitive(s, s1, s2);
        if s2.connection.None? {
          ProgressOfStep(s2, LostConnectionStep(s2, tick.engineState), []);
          ProgressTransitive(s, s2, LostConnectionStep(s2, tick.engineState));
        } else {
          LocalDisconnectSpec(s2);
          ProgressTransitive(s, s2, LocalDisconnectStep(s2));
        }
  }

  /** Result of everything a tick does before the inbound events. */
  datatype Prepared =
    | PreparePanicked(error: Fatal)
    | Prepared(connected: bool, state: ResourceState, counter: NetId)

  /** The UI command, the set-up and, on an active room, the session checks, in that
      order; `connected` says whether the tick goes on to the events. */
  function PrepareSpec(s: ResourceState, counter: NetId, tick: Tick): Prepared {
    match UiCommandStep(s)
    case Panicked(e) => PreparePanicked(e)
    case Continued(s1) =>
      var b := BootstrapStep(s1, counter, tick.unixNow);
      if !b.active then Prepared(false, b.state, b.counter)
      else match SessionChecksStep(b.state, tick)
      case Panicked(e) => PreparePanicked(e)
      case Continued(t) => Prepared(t.connection.Some?, t, b.counter)
  }

  /** What the tick has done when it reaches the events (or stops before them). */
  lemma PrepareFacts(s: ResourceState, counter: NetId, tick: Tick)
    ensures var p := PrepareSpec(s, counter, tick);
      p.Prepared? ==>
        && Progress(s, p.state) && p.state.uiCommand == None && p.state.events == s.events
        && (p.counter == counter || p.counter == WrappingInc(counter))
        && (p.state.connection.Some? && s.connection.None? ==>
              p.state.connection.value.sessionId == counter && p.counter == WrappingInc(counter))
        && (p.connected <==> s.room.isActive && p.state.connection.Some?)
        && (!p.connected && s.room.isActive ==>
              p.state.connection.None? && (s.game.isPlaying && tick.engineState == Playing ==> p.state.game.isDisconnected))
    ensures s.uiCommand.None? && !s.room.isActive ==> PrepareSpec(s, counter, tick) == Prepared(false, s.(connection := None), counter)
  {
    UiCommandStepSpec(s);
    match UiCommandStep(s)
    case Panicked(_) =>
    case Continued(s1) =>
      BootstrapSpec(s1, counter, tick.unixNow);
      var b := BootstrapStep(s1, counter, tick.unixNow);
      ProgressTransitive(s, s1, b.state);
      if b.active {
        SessionChecksFacts(b.state, tick);
        match SessionChecksStep(b.state, tick)
        case Panicked(_) =>
        case Continued(t) =>
          ProgressTransitive(s, b.state, t);
      }
  }

  // ---------------------------------------------------------------------------
  // Events

  /** `PauseWaitingForPlayers`: only a pause newer than the last pause or unpause is
      taken; it records the lagging players (whether to actually wait is decided at the
      end of the tick). */
  function AfterPause(game: MultiplayerGameState, pauseId: NetId, lagging: seq<NetId>): (r: MultiplayerGameState)
    ensures game.waitingForPlayersPauseId < pauseId ==>
              r.waitingForPlayersPauseId == pauseId && r.laggingPlayers == lagging
    ensures pauseId <= game.waitingForPlayersPauseId ==> r == game
    ensures r.waitingForPlayersPauseId >= game.waitingForPlayersPauseId
    ensures r.waitingForPlayers == game.waitingForPlayers && r.players == game.players && r.isPlaying == game.isPlaying
  {
    if game.waitingForPlayersPauseId < pauseId then
      game.(waitingForPlayersPauseId := pauseId, laggingPlayers := lagging)
    else game
  }

  /** `UnpauseWaitingForPlayers`: an unpause with the current or a newer id stops waiting
      for players and forgets the lagging list. */
  function AfterUnpause(game: MultiplayerGameState, unpauseId: NetId): (r: MultiplayerGameState)
    ensures game.waitingForPlayersPauseId <= unpauseId ==>
              !r.waitingForPlayers && r.laggingPlayers == [] && r.waitingForPlayersPauseId == unpauseId
    ensures game.waitingForPlayersPauseId > unpauseId ==> r == game
    ensures r.waitingForPlayersPauseId >= game.waitingForPlayersPauseId
  {
    if game.waitingForPlayersPauseId <= unpauseId then
      game.(waitingForPlayers := false, waitingForPlayersPauseId := unpauseId, laggingPlayers := [])
    else game
  }

  /** A pause that arrives after the unpause of the same or a later id (messages that
      crossed on the wire) is ignored. */
  lemma StalePauseIgnored(game: MultiplayerGameState, unpauseId: NetId, pauseId: NetId, lagging: seq<NetId>)
    requires pauseId <= unpauseId && game.waitingForPlayersPauseId <= unpauseId
    ensures AfterPause(AfterUnpause(game, unpauseId), pauseId, lagging) == AfterUnpause(game, unpauseId)
  {
  }

  /** The unpause matching a pause always takes effect, whatever came before. */
  lemma MatchingUnpauseResumes(game: MultiplayerGameState, pauseId: NetId, lagging: seq<NetId>)
    requires game.waitingForPlayersPauseId <= pauseId
    ensures var r := AfterUnpause(AfterPause(game, pauseId, lagging), pauseId);
            !r.waitingForPlayers && r.laggingPlayers == [] && r.waitingForPlayersPauseId == pauseId
  {
  }

  /** `Handshake`: the server assigned this client its connection id and told it whether
      it hosts. A client that has not sent JoinRoom yet (a host, whose server opened the
      connection) sends it now. */
  function HandshakeStep(s: ResourceState, netId: NetId, isHost: bool, unixNow: nat): ResourceState
    requires s.connection.Some?
  {
    var t := if !s.room.hasSentJoinMessage then
               Sent(s.(room := s.room.(hasSentJoinMessage := true)), Reliable, s.connection.value, JoinRoom(unixNow, s.room.nickname))
             else s;
    t.(room := t.room.(connectionStatus := Connected(netId), isHost := isHost))
  }

  /** Index of the last player holding connection id `cid`: the one whose entity id the
      client adopts, since every match overwrites the previous one. */
  function LastPlayerWith(players: seq<PlayerRecord>, cid: NetId): (r: Option<nat>)
    ensures r.Some? ==> r.value < |players| && players[r.value].connectionId == cid
    ensures r.Some? ==> forall j :: r.value < j < |players| ==> players[j].connectionId != cid
    ensures r.None? <==> forall j :: 0 <= j < |players| ==> players[j].connectionId != cid
  {
    if players == [] then None
    else if players[|players| - 1].connectionId == cid then Some(|players| - 1)
    else LastPlayerWith(players[..|players| - 1], cid)
  }

  /** One more player scanned: the last holder of `cid` is that player if it holds `cid`,
      and otherwise the last holder among the players before it. */
  lemma LastPlayerWithSnoc(players: seq<PlayerRecord>, i: nat, cid: NetId)
    requires i < |players|
    ensures LastPlayerWith(players[..i + 1], cid) ==
              if players[i].connectionId == cid then Some(i) else LastPlayerWith(players[..i], cid)
  {
    assert players[..i + 1][..i] == players[..i];
  }

  /** The roster with entity ids handed out by position. */
  function AssignEntityIds(players: seq<PlayerRecord>, ids: seq<NetId>): (r: seq<PlayerRecord>)
    requires |players| <= |ids|
    ensures |r| == |players|
    ensures forall i :: 0 <= i < |r| ==>
              r[i].entityNetId == ids[i] && r[i].connectionId == players[i].connectionId && r[i].nickname == players[i].nickname
  {
    seq(|players|, i requires 0 <= i < |players| => players[i].(entityNetId := ids[i]))
  }

  /** `StartGame`: the client must be connected, every player receives the entity id at
      its position (there must be enough of them), and the client adopts the entity id of
      the (last) player holding its connection id, which must exist; the acknowledged
      cursor starts over and the game is playing. */
  function StartGameStep(s: ResourceState, ids: seq<NetId>): Stepped {
    var cid := s.room.connectionStatus.ConnectionId();
    var players := s.game.players;
    if cid.None? then Panicked(NotConnectedOnStartGame)
    else if |ids| < |players| then Panicked(EntityIdsTooShort(|players|, |ids|))
    else match LastPlayerWith(players, cid.value)
      case None => Panicked(SelfNotFound(cid.value))
      case Some(k) =>
        Continued(s.(
          lastAck := LastAcknowledgedUpdate(0, 0),
          room := s.room.(playerNetId := ids[k]),
          game := s.game.(players := AssignEntityIds(players, ids), isPlaying := true),
          newEngineState := Playing))
  }

  /** A started game: the client's entity id is the one its own roster entry received,
      the cursor is back at the start and the roster keeps its players. */
  lemma StartGameAdoptsOwnEntity(s: ResourceState, ids: seq<NetId>)
    ensures var r := StartGameStep(s, ids);
      r.Continued? ==>
        && r.state.game.isPlaying && r.state.newEngineState == Playing
        && r.state.lastAck == LastAcknowledgedUpdate(0, 0)
        && |r.state.game.players| == |s.game.players|
        && (exists k :: 0 <= k < |r.state.game.players| &&
              r.state.game.players[k].connectionId == s.room.connectionStatus.connectionId &&
              r.state.game.players[k].entityNetId == r.state.room.playerNetId)
  {
    var r := StartGameStep(s, ids);
    if r.Continued? {
      var k := LastPlayerWith(s.game.players, s.room.connectionStatus.connectionId).value;
      assert r.state.game.players[k].connectionId == s.room.connectionStatus.connectionId;
    }
  }

  /** Frame of the newest update of a batch sorted by frame, 0 for an empty batch. */
  function NewestFrame(sorted: seq<ServerWorldUpdate>): nat {
    if sorted == [] then 0 else sorted[|sorted| - 1].frameNumber
  }

  /** `UpdateWorld`, as far as the plain resources go: every batch is acknowledged
      (unreliably); a batch newer than the last acknowledged one moves the cursor to its
      id and to its newest frame, never backwards. */
  function AckWorldStep(s: ResourceState, id: NetId, updates: seq<ServerWorldUpdate>): ResourceState
    requires s.connection.Some?
  {
    var t := Sent(s, Unreliable, s.connection.value, AcknowledgeWorldUpdate(id));
    if s.lastAck.id < id then
      t.(lastAck := LastAcknowledgedUpdate(id, Max(s.lastAck.frameNumber, NewestFrame(SortByFrame(updates)))))
    else t
  }

  /** Every batch is acknowledged, unreliably, on the record's session; a repeated or
      stale id changes nothing else; a newer one moves the cursor to its id and to the
      larger of the old frame and the batch's largest frame, so the cursor only moves
      forward and covers every frame of the batch. */
  lemma AckCoversBatch(s: ResourceState, id: NetId, updates: seq<ServerWorldUpdate>)
    requires s.connection.Some?
    ensures var r := AckWorldStep(s, id, updates);
      && r.sent == s.sent + [SentMessage(Unreliable, s.connection.value.sessionId, AcknowledgeWorldUpdate(id))]
      && r == s.(sent := r.sent, lastAck := r.lastAck)
      && (id <= s.lastAck.id ==> r == s.(sent := r.sent))
      && r.lastAck.id == (if s.lastAck.id < id then id else s.lastAck.id)
      && r.lastAck.frameNumber >= s.lastAck.frameNumber
      && (s.lastAck.id < id ==> forall u :: u in updates ==> u.frameNumber <= r.lastAck.frameNumber)
      && (s.lastAck.id < id ==>
            r.lastAck.frameNumber == s.lastAck.frameNumber || exists u :: u in updates && u.frameNumber == r.lastAck.frameNumber)
  {
    var sorted := SortByFrame(updates);
    forall u | u in updates
      ensures u.frameNumber <= NewestFrame(sorted)
    {
      SortedLastIsLargest(updates, u);
    }
    if sorted != [] {
      assert sorted[|sorted| - 1] in multiset(sorted);
      assert sorted[|sorted| - 1] in updates;
    }
  }

  /** An admitted server message on the plain resources, dispatched on its kind. The
      frame buffers' part of UpdateWorld and DiscardWalkActions is not described here. */
  function MessageStep(s: ResourceState, payload: ServerMessagePayload, tick: Tick): Stepped
    requires s.connection.Some?
  {
    match payload
    case Heartbeat => Continued(s)
    case Ping(_) => Continued(s)
    case Pong(_) => Continued(s)
    case Handshake(netId, isHost) => Continued(HandshakeStep(s, netId, isHost, tick.unixNow))
    case UpdateRoomPlayers(players) => Continued(s.(game := s.game.(players := players)))
    case StartGame(ids) => StartGameStep(s, ids)
    case UpdateWorld(id, updates) => Continued(AckWorldStep(s, id, updates))
    case DiscardWalkActions(_) => Continued(s)
    case PauseWaitingForPlayers(pauseId, lagging) => Continued(s.(game := AfterPause(s.game, pauseId, lagging)))
    case UnpauseWaitingForPlayers(unpauseId) => Continued(s.(game := AfterUnpause(s.game, unpauseId)))
    case Disconnect(reason) =>
      Continued(s.(room := s.room.(connectionStatus := AfterPeerDisconnect(s.room.connectionStatus, reason))))
  }

  /** One inbound event on the plain resources: the three filters, then the dispatch on
      its kind. A dropped event changes nothing. */
  function EventStep(s: ResourceState, event: NetEvent, tick: Tick): Stepped
    requires s.connection.Some?
  {
    if !Admitted(event, s.connection.value, s.game.isPlaying) then Continued(s)
    else match event
      case OtherNetEvent => Continued(s)
      case TransportDisconnected =>
        Continued(s.(room := s.room.(connectionStatus := AfterTransportDisconnected(s.room.connectionStatus, tick.nowNanos))))
      case Message(m) => MessageStep(s, m.payload, tick)
  }

  /** A handshake sends JoinRoom exactly when it raises that flag. */
  lemma HandshakeProgress(s: ResourceState, netId: NetId, isHost: bool, unixNow: nat)
    requires s.connection.Some?
    ensures Progress(s, HandshakeStep(s, netId, isHost, unixNow)) && SameSession(s, HandshakeStep(s, netId, isHost, unixNow))
  {
    var r := HandshakeStep(s, netId, isHost, unixNow);
    if s.room.hasSentJoinMessage {
      ProgressOfStep(s, r, []);
    } else {
      ProgressOfStep(s, r, [r.sent[|r.sent| - 1]]);
    }
  }

  lemma AckWorldProgress(s: ResourceState, id: NetId, updates: seq<ServerWorldUpdate>)
    requires s.connection.Some?
    ensures Progress(s, AckWorldStep(s, id, updates)) && SameSession(s, AckWorldStep(s, id, updates))
  {
    var r := AckWorldStep(s, id, updates);
    ProgressOfStep(s, r, [r.sent[|r.sent| - 1]]);
  }

  /** Every message keeps `Progress` and leaves the record, the queue and the UI command
      alone; only StartGame can panic. */
  lemma MessageStepSpec(s: ResourceState, payload: ServerMessagePayload, tick: Tick)
    requires s.connection.Some?
    ensures var r := MessageStep(s, payload, tick);
      && (r.Panicked? ==> payload.StartGame?)
      && (r.Continued? ==> Progress(s, r.state) && SameSession(s, r.state))
  {
    match payload {
      case Handshake(netId, isHost) =>
        HandshakeProgress(s, netId, isHost, tick.unixNow);
      case UpdateWorld(id, updates) =>
        AckWorldProgress(s, id, updates);
      case _ =>
        var r := MessageStep(s, payload, tick);
        if r.Continued? {
          ProgressOfStep(s, r.state, []);
        }
    }
  }

  /** Every event keeps `Progress` and leaves the record, the queue and the UI command
      alone; only StartGame can panic. */
  lemma EventStepSpec(s: ResourceState, event: NetEvent, tick: Tick)
    requires s.connection.Some?
    ensures var r := EventStep(s, event, tick);
      && (r.Panicked? ==> event.Message? && event.message.payload.StartGame?)
      && (r.Continued? ==> Progress(s, r.state) && SameSession(s, r.state))
  {
    if Admitted(event, s.connection.value, s.game.isPlaying) && event.Message? {
      MessageStepSpec(s, event.message.payload, tick);
    } else {
      var r := EventStep(s, event, tick);
      ProgressOfStep(s, r.state, []);
    }
  }

  /** A record marked disconnected in a running game only ever learns that the transport
      is gone: every other event is dropped. */
  lemma DisconnectedRecordOnlySeesTransport(s: ResourceState, event: NetEvent, tick: Tick)
    requires s.connection.Some? && s.connection.value.disconnected && s.game.isPlaying
    ensures EventStep(s, event, tick) == Continued(s) ||
            (event.TransportDisconnected? &&
             EventStep(s, event, tick) == Continued(s.(room := s.room.(connectionStatus :=
               AfterTransportDisconnected(s.room.connectionStatus, tick.nowNanos)))))
  {
    AdmittedWhenDisconnected(event, s.connection.value, s.game.isPlaying);
  }

  // ---------------------------------------------------------------------------
  // The phases after the events

  /** The other-player-lag flag is re-evaluated only while some players lag. */
  function WaitingForPlayersStep(s: ResourceState, gameFrame: nat, serverFrame: nat): ResourceState {
    if s.game.laggingPlayers != [] then s.(game := s.game.(waitingForPlayers := WaitingForPlayers(gameFrame, serverFrame)))
    else s
  }

  /** With no lagging players the other-player-lag flag is left alone; otherwise only that
      flag moves, and it is set exactly while the server is at most the delay ahead. */
  lemma WaitingForPlayersStepSpec(s: ResourceState, gameFrame: nat, serverFrame: nat)
    ensures var r := WaitingForPlayersStep(s, gameFrame, serverFrame);
            && (s.game.laggingPlayers == [] ==> r == s)
            && r == s.(game := s.game.(waitingForPlayers := r.game.waitingForPlayers))
            && (s.game.laggingPlayers != [] ==> (r.game.waitingForPlayers <==> serverFrame <= gameFrame + INTERPOLATION_FRAME_DELAY))
  {
  }

  /** The `waiting_network` flag is updated only while the engine and the multiplayer game
      are both playing. */
  function WaitingNetworkStep(s: ResourceState, tick: Tick, threshold: nat): ResourceState {
    if tick.engineState == Playing && s.game.isPlaying then
      s.(game := s.game.(waitingNetwork := NextWaitingNetwork(s.game.waitingNetwork, tick.gameFrameAbsolute,
                                                              FramesAhead(tick.gameFrame, s.lastAck.frameNumber), threshold)))
    else s
  }

  /** A heartbeat is due once more than HEARTBEAT_FRAME_INTERVAL engine frames have
      passed since the last one, unless the record is marked disconnected. */
  predicate HeartbeatDue(lastHeartbeatFrame: nat, engineFrame: nat, disconnected: bool) {
    engineFrame - lastHeartbeatFrame > HEARTBEAT_FRAME_INTERVAL && !disconnected
  }

  /** The heartbeat goes out reliably on the record. */
  function HeartbeatStep(s: ResourceState, due: bool): ResourceState
    requires s.connection.Some?
  {
    if due then Sent(s, Reliable, s.connection.value, ClientHeartbeat) else s
  }

  /** What a tick does after the events: the heartbeat, then the two waiting flags. */
  function EndOfTickStep(s: ResourceState, due: bool, tick: Tick, serverFrame: nat, threshold: nat): ResourceState
    requires s.connection.Some?
  {
    WaitingNetworkStep(WaitingForPlayersStep(HeartbeatStep(s, due), tick.gameFrame, serverFrame), tick, threshold)
  }

  /** After the events the only message is the heartbeat, and apart from the log only the
      two waiting flags move. */
  lemma EndOfTickFrame(s: ResourceState, due: bool, tick: Tick, serverFrame: nat, threshold: nat)
    requires s.connection.Some?
    ensures EndOfTickStep(s, due, tick, serverFrame, threshold).sent ==
              if due then s.sent + [SentMessage(Reliable, s.connection.value.sessionId, ClientHeartbeat)] else s.sent
    ensures var r := EndOfTickStep(s, due, tick, serverFrame, threshold);
      r == s.(sent := r.sent, game := s.game.(waitingForPlayers := r.game.waitingForPlayers, waitingNetwork := r.game.waitingNetwork))
  {
    var h := HeartbeatStep(s, due);
    assert h == s.(sent := h.sent);
    var w := WaitingForPlayersStep(h, tick.gameFrame, serverFrame);
    assert w == h.(game := h.game.(waitingForPlayers := w.game.waitingForPlayers));
  }

  /** Hence the end of the tick keeps `Progress` and the session. */
  lemma EndOfTickFacts(s: ResourceState, due: bool, tick: Tick, serverFrame: nat, threshold: nat)
    requires s.connection.Some?
    ensures Progress(s, EndOfTickStep(s, due, tick, serverFrame, threshold))
    ensures SameSession(s, EndOfTickStep(s, due, tick, serverFrame, threshold))
  {
    EndOfTickFrame(s, due, tick, serverFrame, threshold);
    var r := EndOfTickStep(s, due, tick, serverFrame, threshold);
    if due {
      ProgressOfStep(s, r, [r.sent[|r.sent| - 1]]);
    } else {
      ProgressOfStep(s, r, []);
    }
  }
}
