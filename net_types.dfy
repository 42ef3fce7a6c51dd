/** Identifiers, constants and the values exchanged between the client's network system,
    the server and the rest of the game: wire messages, room and game resources,
    and the per-frame payloads kept in the frame buffers. */
module NetTypes {

  /** NetIdentifier is an unsigned 64-bit integer. */
  const NET_ID_MODULUS: nat := 0x1_0000_0000_0000_0000
  type NetId = x: nat | x < NET_ID_MODULUS

  /** Number of frames the client intentionally lags the server's authoritative stream.
      Its definition lives in gv_core; the value 10 is the one the client relies on
      when it skips "the first 10 frames" of a batch. */
  const INTERPOLATION_FRAME_DELAY: nat := 10

  /** A heartbeat is due once more than this many engine frames passed since the last one. */
  const HEARTBEAT_FRAME_INTERVAL: nat := 10

  /** A transport disconnect within one second of starting to connect is ignored. */
  const RECONNECT_GRACE_NANOS: nat := 1_000_000_000

  datatype Option<+T> = None | Some(value: T)

  /** Rust's `u64::saturating_sub`. */
  function SaturatingSub(a: nat, b: nat): nat {
    if a >= b then a - b else 0
  }

  function Max(a: nat, b: nat): nat {
    if a >= b then a else b
  }

  /** `Vec::remove(i)`: the sequence without its i-th element. */
  function RemoveAt<T>(s: seq<T>, i: nat): seq<T>
    requires i < |s|
  {
    s[..i] + s[i + 1..]
  }

  lemma RemoveAtMultiset<T>(s: seq<T>, i: nat)
    requires i < |s|
    ensures multiset(RemoveAt(s, i)) + multiset{s[i]} == multiset(s)
  {
    assert s == s[..i] + [s[i]] + s[i + 1..];
  }

  // ---------------------------------------------------------------------------
  // Connection lifecycle

  datatype DisconnectReason =
    | Closed
    | ServerCrashed(code: int)
    /** Every other reason the server may send; carried through unchanged. */
    | OtherReason(kind: nat)

  /** The room's connection status. `Connecting` remembers when the attempt started
      (a monotonic clock reading in nanoseconds). */
  datatype ConnectionStatus =
    | Connecting(startedAt: nat)
    | Connected(connectionId: NetId)
    | Disconnecting
    | Disconnected(reason: DisconnectReason)
    | ConnectionFailed(error: Option<nat>)
  {
    predicate IsConnected() { Connected? }
    predicate IsConnecting() { Connecting? }
    /** The session is over: closed by someone, or failed. */
    predicate IsNotConnected() { Disconnected? || ConnectionFailed? }
    function ConnectionId(): Option<NetId> {
      if Connected? then Some(connectionId) else None
    }
  }

  /** The single connection record (NetConnectionModel) of a client. */
  datatype NetConnectionModel = NetConnectionModel(id: nat, sessionId: NetId, addr: nat, disconnected: bool)

  datatype PlayerRecord = PlayerRecord(connectionId: NetId, entityNetId: NetId, nickname: string)

  /** MultiplayerRoomState: the lobby-side resource. */
  datatype MultiplayerRoomState = MultiplayerRoomState(
    isActive: bool,
    isHost: bool,
    nickname: string,
    serverAddr: nat,
    playerNetId: NetId,
    pendingDisconnecting: bool,
    hasSentJoinMessage: bool,
    hasSentStartMessage: bool,
    hasStarted: bool,
    connectionStatus: ConnectionStatus)

  /** MultiplayerGameState: the in-game resource. */
  datatype MultiplayerGameState = MultiplayerGameState(
    isPlaying: bool,
    players: seq<PlayerRecord>,
    waitingForPlayers: bool,
    waitingForPlayersPauseId: NetId,
    laggingPlayers: seq<NetId>,
    waitingNetwork: bool,
    isDisconnected: bool)

  /** The cursor over the server's authoritative stream. */
  datatype LastAcknowledgedUpdate = LastAcknowledgedUpdate(id: NetId, frameNumber: nat)

  datatype GameEngineState = Playing | OtherEngineState(kind: nat)

  // ---------------------------------------------------------------------------
  // Per-frame payloads

  /** One acting entity's walk, cast or look action inside a server world update. */
  datatype PlayerActionUpdate = PlayerActionUpdate(entityNetId: NetId, action: nat)

  /** One frame's worth of a server `UpdateWorld` batch. */
  datatype ServerWorldUpdate = ServerWorldUpdate(
    frameNumber: nat,
    spawnActions: seq<nat>,
    playerWalkActionsUpdates: seq<PlayerActionUpdate>,
    playerCastActionsUpdates: seq<PlayerActionUpdate>,
    playerLookActionsUpdates: seq<PlayerActionUpdate>)

  /** The controlled players' walk and cast actions, taken out of a server update. */
  datatype ReceivedPlayerUpdate = ReceivedPlayerUpdate(
    playerWalkActionsUpdates: seq<PlayerActionUpdate>,
    playerCastActionsUpdates: seq<PlayerActionUpdate>)

  const EMPTY_PLAYER_UPDATE := ReceivedPlayerUpdate([], [])

  /** A slot of the general frame buffer: the controlled players' delayed updates and
      the server updates merged into this frame. */
  datatype ReceivedServerWorldUpdate = ReceivedServerWorldUpdate(
    controlledPlayerUpdates: ReceivedPlayerUpdate,
    serverUpdates: seq<ServerWorldUpdate>)

  const EMPTY_SERVER_SLOT := ReceivedServerWorldUpdate(EMPTY_PLAYER_UPDATE, [])

  /** A walk action this client predicted, tagged with the client-assigned action id. */
  datatype ClientWalkActionUpdate = ClientWalkActionUpdate(clientActionId: NetId, entityNetId: NetId, action: nat)

  /** A slot of the client's own action buffer. */
  datatype PlayerActionUpdates = PlayerActionUpdates(
    walkActionUpdates: seq<ClientWalkActionUpdate>,
    castActionUpdates: seq<nat>,
    lookActionUpdates: seq<nat>)

  /** A slot of the spawn-action buffer. */
  datatype SpawnActions = SpawnActions(spawnActions: seq<nat>)

  const EMPTY_SPAWN_SLOT := SpawnActions([])

  // ---------------------------------------------------------------------------
  // Messages

  datatype ServerMessagePayload =
    | Heartbeat
    | Ping(ping: nat)
    | Pong(pong: nat)
    | Handshake(netId: NetId, isHost: bool)
    | UpdateRoomPlayers(players: seq<PlayerRecord>)
    | StartGame(entityNetIds: seq<NetId>)
    | UpdateWorld(id: NetId, updates: seq<ServerWorldUpdate>)
    | DiscardWalkActions(discardedActions: seq<NetId>)
    | PauseWaitingForPlayers(pauseId: NetId, laggingPlayers: seq<NetId>)
    | UnpauseWaitingForPlayers(unpauseId: NetId)
    | Disconnect(reason: DisconnectReason)

  datatype ServerMessage = ServerMessage(sessionId: NetId, payload: ServerMessagePayload)

  /** What the transport delivers: a message, a lost connection, or anything else
      (which the client ignores). */
  datatype NetEvent = Message(message: ServerMessage) | TransportDisconnected | OtherNetEvent

  datatype ClientMessagePayload =
    | JoinRoom(sentAt: nat, nickname: string)
    | StartHostedGame
    | ClientHeartbeat
    | AcknowledgeWorldUpdate(ackId: NetId)
    | Kick(kickedConnectionId: NetId)
    | ClientDisconnect

  datatype Delivery = Reliable | Unreliable

  /** An entry of the outgoing log: how it was sent, the session it was sent on, what it said. */
  datatype SentMessage = SentMessage(delivery: Delivery, sessionId: NetId, payload: ClientMessagePayload)

  datatype UiNetworkCommand = Host | Connect | KickPlayer(playerNumber: nat) | Start | Leave | Reset

  // ---------------------------------------------------------------------------
  // Fatal conditions: each one is a panic in the client

  datatype Fatal =
    | NoServerConnection
    | PlayerIndexOutOfBounds(playerNumber: nat)
    | MissingExitCode
    | NotConnectedOnStartGame
    | EntityIdsTooShort(players: nat, entityIds: nat)
    | SelfNotFound(connectionId: NetId)
    | EmptyFramedUpdates
    | TooOldServerUpdate(firstIncoming: nat, firstAvailable: nat)

  datatype Outcome = Pass | Fail(error: Fatal)

  // ---------------------------------------------------------------------------
  // Counting entries of the outgoing log

  datatype PayloadKind = JoinRoomKind | StartHostedGameKind | HeartbeatKind | AckKind | KickKind | DisconnectKind

  function KindOf(p: ClientMessagePayload): PayloadKind {
    match p
    case JoinRoom(_, _) => JoinRoomKind
    case StartHostedGame => StartHostedGameKind
    case ClientHeartbeat => HeartbeatKind
    case AcknowledgeWorldUpdate(_) => AckKind
    case Kick(_) => KickKind
    case ClientDisconnect => DisconnectKind
  }

  /** Number of entries of kind `k` in the log. */
  function CountKind(log: seq<SentMessage>, k: PayloadKind): nat {
    if log == [] then 0
    else CountKind(log[..|log| - 1], k) + (if KindOf(log[|log| - 1].payload) == k then 1 else 0)
  }

  /** Counting distributes over appending to the log. */
  lemma {:induction false} CountKindAppend(a: seq<SentMessage>, b: seq<SentMessage>, k: PayloadKind)
    ensures CountKind(a + b, k) == CountKind(a, k) + CountKind(b, k)
    decreases |b|
  {
    if b != [] {
      var n := |b| - 1;
      assert (a + b)[..|a + b| - 1] == a + b[..n];
      CountKindAppend(a, b[..n], k);
    } else {
      assert a + b == a;
    }
  }
}
