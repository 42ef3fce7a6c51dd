/** The connection lifecycle as pure transitions over `ConnectionStatus`, the three
    filters an inbound event passes before dispatch, and the session-id counter. */
module Lifecycle {
  import opened NetTypes

  // ---------------------------------------------------------------------------
  // Session ids

  /** `NetIdentifier::wrapping_add(1)`. */
  function WrappingInc(x: NetId): (r: NetId)
    ensures r == (x + 1) % NET_ID_MODULUS
  {
    if x + 1 == NET_ID_MODULUS then 0 else x + 1
  }

  /** The counter after `n` allocations starting from `start`. */
  function CounterAfter(start: NetId, n: nat): NetId
    decreases n
  {
    if n == 0 then start else WrappingInc(CounterAfter(start, n - 1))
  }

  /** The counter is `start + n` modulo the identifier width. */
  lemma {:induction false} CounterAfterIsModular(start: NetId, n: nat)
    ensures CounterAfter(start, n) == (start + n) % NET_ID_MODULUS
  {
    if n > 0 {
      CounterAfterIsModular(start, n - 1);
      var m := start + n - 1;
      assert CounterAfter(start, n - 1) == m % NET_ID_MODULUS;
      ModSucc(m);
    }
  }

  /** Adding one commutes with reducing modulo the identifier width. */
  lemma ModSucc(m: nat)
    ensures (m % NET_ID_MODULUS + 1) % NET_ID_MODULUS == (m + 1) % NET_ID_MODULUS
  {
    var q := m / NET_ID_MODULUS;
    assert m == q * NET_ID_MODULUS + m % NET_ID_MODULUS;
    assert m + 1 == q * NET_ID_MODULUS + (m % NET_ID_MODULUS + 1);
    ModMultipleShift(q, m % NET_ID_MODULUS + 1);
  }

  /** Whole multiples of the identifier width vanish modulo it. */
  lemma {:induction false} ModMultipleShift(q: nat, r: nat)
    ensures (q * NET_ID_MODULUS + r) % NET_ID_MODULUS == r % NET_ID_MODULUS
  {
    if q > 0 {
      assert q * NET_ID_MODULUS + r == (q - 1) * NET_ID_MODULUS + (r + NET_ID_MODULUS);
      ModMultipleShift(q - 1, r + NET_ID_MODULUS);
    }
  }

  /** Moving less than a full wrap changes the remainder. */
  lemma ShiftChangesRemainder(a: nat, d: nat)
    requires 0 < d < NET_ID_MODULUS
    ensures (a + d) % NET_ID_MODULUS != a % NET_ID_MODULUS
  {
    var q, r := a / NET_ID_MODULUS, a % NET_ID_MODULUS;
    assert a == q * NET_ID_MODULUS + r;
    if r + d < NET_ID_MODULUS {
      ModMultipleShift(q, r + d);
      assert (a + d) % NET_ID_MODULUS == r + d;
    } else {
      assert a + d == (q + 1) * NET_ID_MODULUS + (r + d - NET_ID_MODULUS);
      ModMultipleShift(q + 1, r + d - NET_ID_MODULUS);
      assert (a + d) % NET_ID_MODULUS == r + d - NET_ID_MODULUS;
    }
  }

  /** Allocations less than a full wrap apart return different session ids. */
  lemma IssuedIdsDistinct(start: NetId, i: nat, j: nat)
    requires i < j < i + NET_ID_MODULUS
    ensures CounterAfter(start, i) != CounterAfter(start, j)
  {
    CounterAfterIsModular(start, i);
    CounterAfterIsModular(start, j);
    ShiftChangesRemainder(start + i, j - i);
  }

  // ---------------------------------------------------------------------------
  // Status transitions

  /** `is_joining`: a connection record is wanted when connected, or when connecting as a
      client that does not host the server (the `&&` binds tighter than the `||`). */
  predicate IsJoining(status: ConnectionStatus, isHost: bool) {
    status.IsConnected() || (status.IsConnecting() && !isHost)
  }

  /** The disconnect reason recorded when the locally started server exits with `code`.
      The `ensures` only hands the case split to the solver; the property is
      `ExitStatusReasonInjective`. */
  function ExitStatusReason(code: int): (r: DisconnectReason)
    ensures r == Closed <==> code == 0
    ensures r != Closed ==> r == ServerCrashed(code)
  {
    if code == 0 then Closed else ServerCrashed(code)
  }

  /** Two different exit codes are never reported as the same reason: the recorded reason
      keeps the whole code. */
  lemma ExitStatusReasonInjective(code1: int, code2: int)
    requires code1 != code2
    ensures ExitStatusReason(code1) != ExitStatusReason(code2)
  {
  }

  /** A `Disconnect` message from the server. Ignored once the session is over; a client
      that is itself shutting down (`Disconnecting`) keeps that status. */
  function AfterPeerDisconnect(status: ConnectionStatus, reason: DisconnectReason): (r: ConnectionStatus)
    ensures status.IsNotConnected() || status.Disconnecting? ==> r == status
    ensures !status.IsNotConnected() && !status.Disconnecting? ==> r == Disconnected(reason)
    ensures !r.IsConnected() && !r.IsConnecting()
  {
    if status.IsNotConnected() then status
    else if status.Disconnecting? then status
    else Disconnected(reason)
  }

  /** Only the first `Disconnect` of a session counts: a second one changes nothing. */
  lemma PeerDisconnectFirstReasonWins(status: ConnectionStatus, first: DisconnectReason, second: DisconnectReason)
    ensures AfterPeerDisconnect(AfterPeerDisconnect(status, first), second) == AfterPeerDisconnect(status, first)
  {
  }

  /** Nanoseconds since the connection attempt started (`Instant` subtraction saturates). */
  function ElapsedNanos(status: ConnectionStatus, nowNanos: nat): nat
    requires status.Connecting?
  {
    SaturatingSub(nowNanos, status.startedAt)
  }

  /** The transport reported the connection lost. Ignored once the session is over, and
      ignored while connecting for less than a second (it belongs to an earlier
      connection); otherwise the attempt has failed. */
  function AfterTransportDisconnected(status: ConnectionStatus, nowNanos: nat): (r: ConnectionStatus)
    ensures r == status || r == ConnectionFailed(None)
    ensures status.IsNotConnected() ==> r == status
    ensures status.Connecting? ==> (r == status <==> ElapsedNanos(status, nowNanos) < RECONNECT_GRACE_NANOS)
    ensures status.Connected? || status.Disconnecting? ==> r == ConnectionFailed(None)
  {
    var ignored := if status.Connecting? then ElapsedNanos(status, nowNanos) < RECONNECT_GRACE_NANOS else status.IsNotConnected();
    if ignored then status else ConnectionFailed(None)
  }

  /** A lost transport that took effect is final: any later report changes nothing. */
  lemma TransportDisconnectedIsFinal(status: ConnectionStatus, now: nat, later: nat)
    ensures AfterTransportDisconnected(status, now) != status ==>
      AfterTransportDisconnected(AfterTransportDisconnected(status, now), later) == AfterTransportDisconnected(status, now)
  {
  }

  // ---------------------------------------------------------------------------
  // Inbound filters

  /** While the connection record is marked disconnected, only a lost transport and a
      `Handshake` get through. */
  predicate PassesDisconnectedFilter(event: NetEvent, disconnected: bool) {
    !disconnected || event.TransportDisconnected? || (event.Message? && event.message.payload.Handshake?)
  }

  /** A message from another session is dropped. */
  predicate PassesSessionFilter(event: NetEvent, sessionId: NetId) {
    !event.Message? || event.message.sessionId == sessionId
  }

  /** Once playing, the lobby messages are dropped. */
  predicate PassesPlayingFilter(event: NetEvent, isPlaying: bool) {
    !isPlaying || !event.Message? ||
    !(event.message.payload.Handshake? || event.message.payload.UpdateRoomPlayers? || event.message.payload.StartGame?)
  }

  /** The three filters, in the order the event loop applies them. */
  predicate Admitted(event: NetEvent, connection: NetConnectionModel, isPlaying: bool) {
    PassesDisconnectedFilter(event, connection.disconnected) &&
    PassesSessionFilter(event, connection.sessionId) &&
    PassesPlayingFilter(event, isPlaying)
  }

  /** What gets through on a disconnected record: a lost transport, or a `Handshake` of
      the current session while not playing; so a disconnected record in a running game
      only ever sees the transport loss. */
  lemma AdmittedWhenDisconnected(event: NetEvent, connection: NetConnectionModel, isPlaying: bool)
    requires connection.disconnected
    ensures Admitted(event, connection, isPlaying) <==>
      event.TransportDisconnected? ||
      (event.Message? && event.message.payload.Handshake? && event.message.sessionId == connection.sessionId && !isPlaying)
  {
  }

  /** Everything a message needs to be dispatched: the right session, not a lobby message
      during a game, and (on a disconnected record) only a `Handshake`. */
  lemma AdmittedMessage(m: ServerMessage, connection: NetConnectionModel, isPlaying: bool)
    ensures Admitted(Message(m), connection, isPlaying) <==>
      && m.sessionId == connection.sessionId
      && (connection.disconnected ==> m.payload.Handshake?)
      && (isPlaying ==> !(m.payload.Handshake? || m.payload.UpdateRoomPlayers? || m.payload.StartGame?))
  {
  }
}
