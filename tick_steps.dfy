/** The steps of `ClientSteps` extended to the three frame buffers the system shares with
    the rest of the client, then folded over the inbound queue and over a whole tick. */
module TickSteps {
  import opened NetTypes
  import opened Framed
  import opened Reconcile
  import opened Discard
  import opened Lifecycle
  import opened ClientSteps

  /** The general server-update buffer, the client's own player-action buffer and the
      spawn buffer, each with its "oldest updated frame" watermark. */
  datatype Buffers = Buffers(
    framed: seq<Framed<ReceivedServerWorldUpdate>>, framedOldest: nat,
    actions: seq<Framed<PlayerActionUpdates>>, actionsOldest: nat,
    spawn: seq<Framed<SpawnActions>>, spawnOldest: nat)

  ghost predicate BuffersValid(b: Buffers) {
    Consecutive(b.framed) && Consecutive(b.actions) && Consecutive(b.spawn)
  }

  // ---------------------------------------------------------------------------
  // A batch of server updates reaching the buffers

  datatype Batched = BatchPanicked(error: Fatal) | BatchApplied(buffers: Buffers)

  /** A method's outcome and buffers are the ones `expected` prescribes. */
  ghost predicate BatchFollows(outcome: Outcome, now: Buffers, expected: Batched) {
    match expected
    case BatchPanicked(e) => outcome == Fail(e)
    case BatchApplied(c) => outcome == Pass && now == c
  }

  /** A batch sorted by frame reaching the buffers: both server buffers are grown up to
      `reserve`; then, unless the batch is empty, its delayed first frame must still be in
      the general buffer, the controlled player's updates are written from that frame on,
      the server and spawn updates from the first update's own frame on, and the two
      watermarks are set to those frames. */
  function AcceptBatch(b: Buffers, reserve: nat, controlled: seq<NetId>, sorted: seq<ServerWorldUpdate>): (r: Batched)
    requires BuffersValid(b)
    ensures r.BatchApplied? ==> BuffersValid(r.buffers)
  {
    var framed := Reserved(b.framed, reserve, EMPTY_SERVER_SLOT);
    var spawn := Reserved(b.spawn, reserve, EMPTY_SPAWN_SLOT);
    if sorted == [] then BatchApplied(b.(framed := framed, spawn := spawn))
    else
      var first := sorted[0].frameNumber;
      if DelayedFrame(first) < framed[0].frameNumber then
        BatchPanicked(TooOldServerUpdate(DelayedFrame(first), framed[0].frameNumber))
      else
        var stripped := Stripped(controlled, sorted);
        var framed' := GeneralWritten(framed, DelayedFrame(first), first, Collected(controlled, sorted), stripped);
        var spawn' := SpawnWritten(spawn, first, stripped);
        SameFramesConsecutive(framed, framed');
        SameFramesConsecutive(spawn, spawn');
        BatchApplied(b.(framed := framed', framedOldest := DelayedFrame(first), spawn := spawn', spawnOldest := first))
  }

  /** What accepting a batch does to the buffers: it panics exactly when the batch's
      delayed first frame has already left the general buffer; otherwise it never touches
      the player-action buffer, never drops a slot, and every slot it changes lies at or
      after the watermark it leaves, so the frames from the watermark on are the ones to
      re-simulate. */
  lemma AcceptBatchSpec(b: Buffers, reserve: nat, controlled: seq<NetId>, sorted: seq<ServerWorldUpdate>)
    requires BuffersValid(b)
    ensures var r := AcceptBatch(b, reserve, controlled, sorted);
      var framed := Reserved(b.framed, reserve, EMPTY_SERVER_SLOT);
      && (r.BatchPanicked? <==> sorted != [] && DelayedFrame(sorted[0].frameNumber) < framed[0].frameNumber)
      && (r.BatchApplied? ==>
            && r.buffers.actions == b.actions && r.buffers.actionsOldest == b.actionsOldest
            && |b.framed| <= |r.buffers.framed| && |b.spawn| <= |r.buffers.spawn|
            && (sorted == [] ==> r.buffers.framedOldest == b.framedOldest && r.buffers.spawnOldest == b.spawnOldest)
            && (forall p :: 0 <= p < |framed| && r.buffers.framed[p] != framed[p] ==>
                  r.buffers.framedOldest <= framed[p].frameNumber)
            && (forall p :: 0 <= p < |r.buffers.spawn| && r.buffers.spawn[p] != Reserved(b.spawn, reserve, EMPTY_SPAWN_SLOT)[p] ==>
                  r.buffers.spawnOldest <= r.buffers.spawn[p].frameNumber))
  {
  }

  // ---------------------------------------------------------------------------
  // One message, one event, the whole queue

  datatype WorldStepped = WorldPanicked(error: Fatal) | WorldContinued(state: ResourceState, buffers: Buffers)

  /** A method's outcome, new state and buffers are the ones `expected` prescribes. */
  ghost predicate WorldFollows(outcome: Outcome, now: ResourceState, bufs: Buffers, expected: WorldStepped) {
    match expected
    case WorldPanicked(e) => outcome == Fail(e)
    case WorldContinued(t, c) => outcome == Pass && now == t && bufs == c
  }

  /** An admitted server message on the resources and the buffers: `MessageStep` on the
      former; a newer UpdateWorld batch is sorted and accepted with this client's player
      as the controlled one, grown up to the newer of the cursor's frame and the game
      frame; DiscardWalkActions goes through `Discarded`; nothing else reaches the
      buffers. */
  ghost function MessageWorldStep(s: ResourceState, b: Buffers, payload: ServerMessagePayload, tick: Tick): (r: WorldStepped)
    requires s.connection.Some? && BuffersValid(b)
    ensures r.WorldContinued? ==> MessageStep(s, payload, tick) == Continued(r.state) && BuffersValid(r.buffers)
    ensures r.WorldContinued? && !payload.UpdateWorld? ==> r.buffers.framed == b.framed && r.buffers.spawn == b.spawn
    ensures r.WorldContinued? && !payload.DiscardWalkActions? ==> r.buffers.actions == b.actions
    ensures r.WorldPanicked? ==> payload.StartGame? || payload.UpdateWorld?
  {
    match MessageStep(s, payload, tick)
    case Panicked(e) => WorldPanicked(e)
    case Continued(t) =>
      if payload.UpdateWorld? && s.lastAck.id < payload.id then
        match AcceptBatch(b, Max(t.lastAck.frameNumber, tick.gameFrame), [s.room.playerNetId], SortByFrame(payload.updates))
        case BatchPanicked(e) => WorldPanicked(e)
        case BatchApplied(c) => WorldContinued(t, c)
      else if payload.DiscardWalkActions? then
        var d := Discarded(b.actions, payload.discardedActions, b.actionsOldest);
        SameFramesConsecutive(b.actions, d.slots);
        WorldContinued(t, b.(actions := d.slots, actionsOldest := d.oldest))
      else WorldContinued(t, b)
  }

  /** One inbound event on the resources and the buffers; only an admitted message can
      reach the buffers. */
  ghost function EventWorldStep(s: ResourceState, b: Buffers, event: NetEvent, tick: Tick): (r: WorldStepped)
    requires s.connection.Some? && BuffersValid(b)
    ensures r.WorldContinued? ==> EventStep(s, event, tick) == Continued(r.state) && BuffersValid(r.buffers)
    ensures !(event.Message? && Admitted(event, s.connection.value, s.game.isPlaying)) ==>
              r.WorldContinued? && r.buffers == b
  {
    if Admitted(event, s.connection.value, s.game.isPlaying) && event.Message? then
      MessageWorldStep(s, b, event.message.payload, tick)
    else
      EventStepSpec(s, event, tick);
      WorldContinued(EventStep(s, event, tick).state, b)
  }

  /** The inbound queue drained in arrival order; the first panic ends the drain. */
  ghost function EventsStep(s: ResourceState, b: Buffers, events: seq<NetEvent>, tick: Tick): (r: WorldStepped)
    requires s.connection.Some? && BuffersValid(b)
    ensures r.WorldContinued? ==> SameSession(s, r.state) && BuffersValid(r.buffers)
    decreases |events|
  {
    if events == [] then WorldContinued(s, b)
    else
      match EventWorldStep(s, b, events[0], tick)
      case WorldPanicked(e) => WorldPanicked(e)
      case WorldContinued(t, c) =>
        EventStepSpec(s, events[0], tick);
        EventsStep(t, c, events[1..], tick)
  }

  /** Draining a queue is draining its front part and then, unless that panicked, the
      rest: events behind a panicking one are never seen. */
  lemma {:induction false} EventsStepAppend(s: ResourceState, b: Buffers, front: seq<NetEvent>, back: seq<NetEvent>, tick: Tick)
    requires s.connection.Some? && BuffersValid(b)
    ensures EventsStep(s, b, front + back, tick) ==
              match EventsStep(s, b, front, tick)
              case WorldPanicked(e) => WorldPanicked(e)
              case WorldContinued(t, c) => EventsStep(t, c, back, tick)
    decreases |front|
  {
    if front == [] {
      assert front + back == back;
    } else {
      assert (front + back)[0] == front[0] && (front + back)[1..] == front[1..] + back;
      match EventWorldStep(s, b, front[0], tick)
      case WorldPanicked(_) =>
      case WorldContinued(t, c) =>
        EventStepSpec(s, front[0], tick);
        EventsStepAppend(t, c, front[1..], back, tick);
    }
  }

  /** A drained queue keeps what every step keeps (see `Progress`). */
  lemma {:induction false} EventsStepProgress(s: ResourceState, b: Buffers, events: seq<NetEvent>, tick: Tick)
    requires s.connection.Some? && BuffersValid(b)
    ensures var r := EventsStep(s, b, events, tick);
      r.WorldContinued? ==> Progress(s, r.state)
    decreases |events|
  {
    if events == [] {
      ProgressOfStep(s, s, []);
    } else {
      EventStepSpec(s, events[0], tick);
      match EventWorldStep(s, b, events[0], tick)
      case WorldPanicked(_) =>
      case WorldContinued(t, c) =>
        EventsStepProgress(t, c, events[1..], tick);
        var r := EventsStep(t, c, events[1..], tick);
        if r.WorldContinued? {
          ProgressTransitive(s, t, r.state);
        }
    }
  }

  // ---------------------------------------------------------------------------
  // The whole tick

  datatype TickOutcome =
    | TickPanicked(error: Fatal)
    | TickDone(state: ResourceState, buffers: Buffers, counter: NetId, lastHeartbeat: nat)

  /** A method's outcome, state, buffers, session counter and heartbeat frame are the
      ones `expected` prescribes. */
  ghost predicate TickFollows(outcome: Outcome, now: ResourceState, bufs: Buffers, counter: NetId, lastHeartbeat: nat,
                              expected: TickOutcome) {
    match expected
    case TickPanicked(e) => outcome == Fail(e)
    case TickDone(t, c, n, h) => outcome == Pass && now == t && bufs == c && counter == n && lastHeartbeat == h
  }

  /** The rest of a tick on a connected active room: the queue is taken and drained, then
      the heartbeat and the two waiting flags follow (the other-player-lag flag against the
      newest frame of the general buffer). */
  ghost function ConnectedTickStep(t: ResourceState, b: Buffers, counter: NetId, lastHeartbeat: nat, threshold: nat, tick: Tick): TickOutcome
    requires t.connection.Some? && BuffersValid(b)
  {
    match EventsStep(t.(events := []), b, t.events, tick)
    case WorldPanicked(e) => TickPanicked(e)
    case WorldContinued(u, c) =>
      var due := HeartbeatDue(lastHeartbeat, tick.engineFrame, u.connection.value.disconnected);
      TickDone(EndOfTickStep(u, due, tick, BackFrame(c.framed), threshold), c, counter,
               if due then tick.engineFrame else lastHeartbeat)
  }

  /** The rest of a connected tick keeps every `Progress` fact, the record, the counter
      and the UI command, empties the queue, and moves the heartbeat frame only to the
      engine frame. */
  lemma ConnectedTickFacts(t: ResourceState, b: Buffers, counter: NetId, lastHeartbeat: nat, threshold: nat, tick: Tick)
    requires t.connection.Some? && BuffersValid(b)
    ensures var r := ConnectedTickStep(t, b, counter, lastHeartbeat, threshold, tick);
      r.TickDone? ==>
        && Progress(t, r.state) && BuffersValid(r.buffers) && r.counter == counter
        && r.state.connection == t.connection && r.state.uiCommand == t.uiCommand && r.state.events == []
        && (r.lastHeartbeat == lastHeartbeat || r.lastHeartbeat == tick.engineFrame)
  {
    var t' := t.(events := []);
    ProgressOfStep(t, t', []);
    EventsStepProgress(t', b, t.events, tick);
    match EventsStep(t', b, t.events, tick)
    case WorldPanicked(_) =>
    case WorldContinued(u, c) =>
      var due := HeartbeatDue(lastHeartbeat, tick.engineFrame, u.connection.value.disconnected);
      EndOfTickFacts(u, due, tick, BackFrame(c.framed), threshold);
      ProgressTransitive(t, t', u);
      ProgressTransitive(t, u, EndOfTickStep(u, due, tick, BackFrame(c.framed), threshold));
  }

  /** One tick (`run`): the phases before the events, then, on a connected active room,
      `ConnectedTickStep`. */
  ghost function TickStep(s: ResourceState, b: Buffers, counter: NetId, lastHeartbeat: nat, threshold: nat, tick: Tick): TickOutcome
    requires BuffersValid(b)
  {
    match PrepareSpec(s, counter, tick)
    case PreparePanicked(e) => TickPanicked(e)
    case Prepared(connected, t, n) =>
      if !connected then TickDone(t, b, n, lastHeartbeat)
      else ConnectedTickStep(t, b, n, lastHeartbeat, threshold, tick)
  }

  /** What a tick that does not panic guarantees: the UI command is consumed, every
      `Progress` fact holds across the tick, the session counter moves by at most one and
      only to open a new session, a connected active room ends with an empty queue, a room
      that lost its record while playing is marked disconnected, and the heartbeat frame
      never runs ahead of the engine. An inactive room with no command only drops the
      record. */
  lemma TickStepFacts(s: ResourceState, b: Buffers, counter: NetId, lastHeartbeat: nat, threshold: nat, tick: Tick)
    requires BuffersValid(b)
    ensures var r := TickStep(s, b, counter, lastHeartbeat, threshold, tick);
      r.TickDone? ==>
        && r.state.uiCommand == None && Progress(s, r.state) && BuffersValid(r.buffers)
        && (r.counter == counter || r.counter == WrappingInc(counter))
        && (r.state.connection.Some? && s.connection.None? ==>
              r.state.connection.value.sessionId == counter && r.counter == WrappingInc(counter))
        && (s.room.isActive && r.state.connection.Some? ==> r.state.events == [])
        && (s.room.isActive && r.state.connection.None? && s.game.isPlaying && tick.engineState == Playing ==>
              r.state.game.isDisconnected)
        && (lastHeartbeat <= tick.engineFrame ==> r.lastHeartbeat <= tick.engineFrame)
    ensures s.uiCommand.None? && !s.room.isActive ==>
              TickStep(s, b, counter, lastHeartbeat, threshold, tick) == TickDone(s.(connection := None), b, counter, lastHeartbeat)
  {
    PrepareFacts(s, counter, tick);
    match PrepareSpec(s, counter, tick)
    case PreparePanicked(_) =>
    case Prepared(connected, t, n) =>
      if connected {
        ConnectedTickFacts(t, b, n, lastHeartbeat, threshold, tick);
        var r := ConnectedTickStep(t, b, n, lastHeartbeat, threshold, tick);
        if r.TickDone? {
          ProgressTransitive(s, t, r.state);
        }
      }
  }
}
