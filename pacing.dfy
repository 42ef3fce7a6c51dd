/** Pacing: how far the client runs ahead of the server's acknowledged stream, and the
    `waiting_network` flag with its startup rule and hysteresis. */
module Pacing {
  import opened NetTypes

  /** `frames_ahead`: the client's game frame minus the delayed last acknowledged server
      frame, both subtractions saturating. */
  function FramesAhead(gameFrame: nat, lastAckFrame: nat): (r: nat)
    ensures r <= gameFrame
    ensures r == 0 <==> gameFrame == 0 || gameFrame + INTERPOLATION_FRAME_DELAY <= lastAckFrame
    ensures 0 < r ==> r == gameFrame + INTERPOLATION_FRAME_DELAY - lastAckFrame || lastAckFrame < INTERPOLATION_FRAME_DELAY
    ensures lastAckFrame < INTERPOLATION_FRAME_DELAY ==> r == gameFrame
  {
    SaturatingSub(gameFrame, SaturatingSub(lastAckFrame, INTERPOLATION_FRAME_DELAY))
  }

  /** A later acknowledged frame never puts the client further ahead. */
  lemma FramesAheadAntitone(gameFrame: nat, ack1: nat, ack2: nat)
    requires ack1 <= ack2
    ensures FramesAhead(gameFrame, ack2) <= FramesAhead(gameFrame, ack1)
  {
  }

  /** The new `waiting_network` flag. Before the absolute frame reaches the delay the
      client always waits; exactly at the delay the flag is reset and re-evaluated; after
      that a waiting client resumes only once it is no frames ahead, and a running client
      starts waiting only once it is more than `threshold` frames ahead. */
  function NextWaitingNetwork(waiting: bool, absoluteFrame: nat, framesAhead: nat, threshold: nat): (r: bool)
    ensures absoluteFrame < INTERPOLATION_FRAME_DELAY ==> r
    ensures absoluteFrame == INTERPOLATION_FRAME_DELAY ==> (r <==> framesAhead > threshold)
    ensures absoluteFrame > INTERPOLATION_FRAME_DELAY ==>
              && (framesAhead == 0 ==> !r)
              && (framesAhead > threshold ==> r)
              && (0 < framesAhead <= threshold ==> r == waiting)
  {
    if absoluteFrame < INTERPOLATION_FRAME_DELAY then true
    else
      var current := if absoluteFrame == INTERPOLATION_FRAME_DELAY then false else waiting;
      if current then framesAhead != 0
      else framesAhead > threshold
  }

  /** The hysteresis after start-up: the flag is raised only when more than `threshold`
      frames ahead and lowered only when no frame ahead. */
  lemma WaitingNetworkHysteresis(waiting: bool, absoluteFrame: nat, framesAhead: nat, threshold: nat)
    requires absoluteFrame > INTERPOLATION_FRAME_DELAY
    ensures !waiting && NextWaitingNetwork(waiting, absoluteFrame, framesAhead, threshold) ==> framesAhead > threshold
    ensures waiting && !NextWaitingNetwork(waiting, absoluteFrame, framesAhead, threshold) ==> framesAhead == 0
  {
  }

  /** More acknowledged server frames never make the client start (or keep) waiting when
      fewer would not. */
  lemma WaitingNetworkMonotoneInAck(waiting: bool, absoluteFrame: nat, gameFrame: nat, ack1: nat, ack2: nat, threshold: nat)
    requires ack1 <= ack2
    ensures NextWaitingNetwork(waiting, absoluteFrame, FramesAhead(gameFrame, ack2), threshold) ==>
            NextWaitingNetwork(waiting, absoluteFrame, FramesAhead(gameFrame, ack1), threshold)
  {
    FramesAheadAntitone(gameFrame, ack1, ack2);
  }

  /** The other-player-lag flag: keep pausing while the client is within the delay of the
      newest frame the server has sent. The `ensures` only hands the comparison to the
      solver; the properties are `WaitingForPlayersMonotone` and
      `ClientSteps.WaitingForPlayersStepSpec`. */
  function WaitingForPlayers(gameFrame: nat, serverFrame: nat): (r: bool)
    ensures r <==> serverFrame <= gameFrame + INTERPOLATION_FRAME_DELAY
  {
    gameFrame + INTERPOLATION_FRAME_DELAY >= serverFrame
  }

  /** Playing on never ends a wait for the other players, and a newer server frame never
      starts one. */
  lemma WaitingForPlayersMonotone(gameFrame1: nat, gameFrame2: nat, serverFrame1: nat, serverFrame2: nat)
    requires gameFrame1 <= gameFrame2 && serverFrame2 <= serverFrame1
    ensures WaitingForPlayers(gameFrame1, serverFrame1) ==> WaitingForPlayers(gameFrame2, serverFrame2)
  {
  }
}
