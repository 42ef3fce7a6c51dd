/** `discard_walk_actions`: the server rejected some of the walk actions this client
    predicted; they are removed from the client's own action buffer, newest frame first,
    and the buffer's "oldest updated frame" watermark is moved to the earliest frame that
    lost one. */
module Discard {
  import opened NetTypes
  import opened Framed

  /** `position(..)` over the pending ids: the first index holding `x`. */
  function IndexOf(s: seq<NetId>, x: NetId): (r: Option<nat>)
    ensures r.Some? ==> r.value < |s| && s[r.value] == x && forall j :: 0 <= j < r.value ==> s[j] != x
    ensures r.None? <==> x !in s
  {
    if s == [] then None
    else if s[0] == x then Some(0)
    else match IndexOf(s[1..], x)
      case None => None
      case Some(j) => Some(j + 1)
  }

  /** How many of the walk actions carry the client action id `x`. */
  function IdCount(walks: seq<ClientWalkActionUpdate>, x: NetId): (n: nat)
    ensures n <= |walks|
  {
    if walks == [] then 0 else (if walks[0].clientActionId == x then 1 else 0) + IdCount(walks[1..], x)
  }

  lemma {:induction false} IdCountAppend(a: seq<ClientWalkActionUpdate>, b: seq<ClientWalkActionUpdate>, x: NetId)
    ensures IdCount(a + b, x) == IdCount(a, x) + IdCount(b, x)
  {
    if a == [] {
      assert a + b == b;
    } else {
      assert (a + b)[1..] == a[1..] + b;
      IdCountAppend(a[1..], b, x);
    }
  }

  /** No action carries `x` exactly when the count of `x` is zero. */
  lemma {:induction false} IdCountZero(walks: seq<ClientWalkActionUpdate>, x: NetId)
    ensures IdCount(walks, x) == 0 <==> forall w :: w in walks ==> w.clientActionId != x
  {
    if walks != [] {
      assert walks == [walks[0]] + walks[1..];
      IdCountZero(walks[1..], x);
    }
  }

  // ---------------------------------------------------------------------------
  // The `retain` closure over one slot's walk actions

  /** What the `retain` pass carries along: the actions kept so far, the ids still to be
      discarded, and the watermark the closure overwrites. */
  datatype RetainState = RetainState(kept: seq<ClientWalkActionUpdate>, pending: seq<NetId>, oldest: nat)

  /** The retain pass from action `j` on: an action whose id is still pending is dropped,
      one occurrence of its id is struck from the pending list and the watermark becomes
      the slot's frame; any other action is kept. */
  function RetainFrom(walks: seq<ClientWalkActionUpdate>, j: nat, acc: RetainState, frame: nat): RetainState
    requires j <= |walks|
    decreases |walks| - j
  {
    if j == |walks| then acc
    else match IndexOf(acc.pending, walks[j].clientActionId)
      case Some(x) => RetainFrom(walks, j + 1, RetainState(acc.kept, RemoveAt(acc.pending, x), frame), frame)
      case None => RetainFrom(walks, j + 1, acc.(kept := acc.kept + [walks[j]]), frame)
  }

  /** The whole retain pass over a slot at `frame`. */
  function Retain(walks: seq<ClientWalkActionUpdate>, pending: seq<NetId>, oldest: nat, frame: nat): RetainState {
    RetainFrom(walks, 0, RetainState([], pending, oldest), frame)
  }

  /** A retain pass only strikes ids from the pending list. */
  lemma {:induction false} RetainFromPending(walks: seq<ClientWalkActionUpdate>, j: nat, acc: RetainState, frame: nat)
    requires j <= |walks|
    ensures multiset(RetainFrom(walks, j, acc, frame).pending) <= multiset(acc.pending)
    ensures |RetainFrom(walks, j, acc, frame).pending| <= |acc.pending|
    decreases |walks| - j
  {
    if j < |walks| {
      match IndexOf(acc.pending, walks[j].clientActionId)
      case Some(x) =>
        RemoveAtMultiset(acc.pending, x);
        RetainFromPending(walks, j + 1, RetainState(acc.kept, RemoveAt(acc.pending, x), frame), frame);
      case None =>
        RetainFromPending(walks, j + 1, acc.(kept := acc.kept + [walks[j]]), frame);
    }
  }

  /** How much a retain pass removes, for any starting accumulator: it keeps a
      sub-multiset of the actions, and each dropped action consumes exactly one pending id. */
  lemma {:induction false} RetainFromCounts(walks: seq<ClientWalkActionUpdate>, j: nat, acc: RetainState, frame: nat)
    requires j <= |walks|
    ensures var r := RetainFrom(walks, j, acc, frame);
      && multiset(r.kept) <= multiset(acc.kept) + multiset(walks[j..])
      && |acc.kept| + (|walks| - j) - |r.kept| == |acc.pending| - |r.pending|
    decreases |walks| - j
  {
    if j < |walks| {
      var w := walks[j];
      assert walks[j..] == [w] + walks[j + 1..];
      match IndexOf(acc.pending, w.clientActionId)
      case Some(x) =>
        RetainFromCounts(walks, j + 1, RetainState(acc.kept, RemoveAt(acc.pending, x), frame), frame);
      case None =>
        RetainFromCounts(walks, j + 1, acc.(kept := acc.kept + [w]), frame);
    }
  }

  /** A retain pass that consumes no pending id keeps every action and leaves the
      watermark alone; one that consumes some moves the watermark to the slot's frame. */
  lemma {:induction false} RetainFromWatermark(walks: seq<ClientWalkActionUpdate>, j: nat, acc: RetainState, frame: nat)
    requires j <= |walks|
    ensures var r := RetainFrom(walks, j, acc, frame);
      && (|r.pending| == |acc.pending| ==> r.kept == acc.kept + walks[j..])
      && r.oldest == (if |r.pending| < |acc.pending| then frame else acc.oldest)
    decreases |walks| - j
  {
    if j < |walks| {
      var w := walks[j];
      assert walks[j..] == [w] + walks[j + 1..];
      match IndexOf(acc.pending, w.clientActionId)
      case Some(x) =>
        var next := RetainState(acc.kept, RemoveAt(acc.pending, x), frame);
        RetainFromPending(walks, j + 1, next, frame);
        RetainFromWatermark(walks, j + 1, next, frame);
      case None =>
        RetainFromWatermark(walks, j + 1, acc.(kept := acc.kept + [w]), frame);
    }
  }

  /** Actions whose id is not pending survive a retain pass. */
  lemma {:induction false} RetainFromKeepsOthers(walks: seq<ClientWalkActionUpdate>, j: nat, acc: RetainState, frame: nat)
    requires j <= |walks|
    ensures var r := RetainFrom(walks, j, acc, frame);
      forall w: ClientWalkActionUpdate :: w.clientActionId !in acc.pending ==>
        multiset(r.kept)[w] == multiset(acc.kept)[w] + multiset(walks[j..])[w]
    decreases |walks| - j
  {
    if j < |walks| {
      var w := walks[j];
      assert walks[j..] == [w] + walks[j + 1..];
      match IndexOf(acc.pending, w.clientActionId)
      case Some(x) =>
        var next := RetainState(acc.kept, RemoveAt(acc.pending, x), frame);
        RemoveAtMultiset(acc.pending, x);
        RetainFromKeepsOthers(walks, j + 1, next, frame);
      case None =>
        RetainFromKeepsOthers(walks, j + 1, acc.(kept := acc.kept + [w]), frame);
    }
  }

  /** No action that survives a retain pass has its id still pending afterwards. */
  lemma {:induction false} RetainFromLeavesNoMatch(walks: seq<ClientWalkActionUpdate>, j: nat, acc: RetainState, frame: nat)
    requires j <= |walks|
    ensures var r := RetainFrom(walks, j, acc, frame);
      forall w: ClientWalkActionUpdate :: w in r.kept ==> w in acc.kept || w.clientActionId !in r.pending
    decreases |walks| - j
  {
    if j < |walks| {
      var w := walks[j];
      match IndexOf(acc.pending, w.clientActionId)
      case Some(x) =>
        RetainFromLeavesNoMatch(walks, j + 1, RetainState(acc.kept, RemoveAt(acc.pending, x), frame), frame);
      case None =>
        var next := acc.(kept := acc.kept + [w]);
        RetainFromLeavesNoMatch(walks, j + 1, next, frame);
        RetainFromPending(walks, j + 1, next, frame);
        assert multiset(acc.pending)[w.clientActionId] == 0;
    }
  }

  /** Id by id, a retain pass removes exactly the pending ids it strikes: the actions
      with id `x` it had plus the `x`s left pending equal the actions with id `x` it keeps
      plus the `x`s it was given. */
  lemma {:induction false} RetainFromIds(walks: seq<ClientWalkActionUpdate>, j: nat, acc: RetainState, frame: nat, x: NetId)
    requires j <= |walks|
    ensures var r := RetainFrom(walks, j, acc, frame);
      IdCount(acc.kept, x) + IdCount(walks[j..], x) + multiset(r.pending)[x] == IdCount(r.kept, x) + multiset(acc.pending)[x]
    decreases |walks| - j
  {
    if j == |walks| {
      assert walks[j..] == [];
    } else {
      var w := walks[j];
      assert walks[j..][1..] == walks[j + 1..];
      match IndexOf(acc.pending, w.clientActionId)
      case Some(i) =>
        RemoveAtMultiset(acc.pending, i);
        RetainFromIds(walks, j + 1, RetainState(acc.kept, RemoveAt(acc.pending, i), frame), frame, x);
      case None =>
        IdCountAppend(acc.kept, [w], x);
        assert [w][1..] == [];
        RetainFromIds(walks, j + 1, acc.(kept := acc.kept + [w]), frame, x);
    }
  }

  /** How much a retain pass over a slot removes. */
  lemma RetainCounts(walks: seq<ClientWalkActionUpdate>, pending: seq<NetId>, oldest: nat, frame: nat)
    ensures var r := Retain(walks, pending, oldest, frame);
      && multiset(r.kept) <= multiset(walks)
      && |walks| - |r.kept| == |pending| - |r.pending|
      && multiset(r.pending) <= multiset(pending)
      && |r.pending| <= |pending|
  {
    RetainFromCounts(walks, 0, RetainState([], pending, oldest), frame);
    RetainFromPending(walks, 0, RetainState([], pending, oldest), frame);
    assert walks[0..] == walks;
  }

  /** Where a retain pass over a slot leaves the watermark. */
  lemma RetainWatermark(walks: seq<ClientWalkActionUpdate>, pending: seq<NetId>, oldest: nat, frame: nat)
    ensures var r := Retain(walks, pending, oldest, frame);
      && (|r.pending| == |pending| ==> r.kept == walks)
      && r.oldest == (if |r.pending| < |pending| then frame else oldest)
  {
    RetainFromWatermark(walks, 0, RetainState([], pending, oldest), frame);
    assert walks[0..] == walks;
  }

  /** A retain pass over a slot keeps every action whose id was not pending. */
  lemma RetainKeepsOthers(walks: seq<ClientWalkActionUpdate>, pending: seq<NetId>, oldest: nat, frame: nat)
    ensures forall w: ClientWalkActionUpdate :: w.clientActionId !in pending ==>
              multiset(Retain(walks, pending, oldest, frame).kept)[w] == multiset(walks)[w]
  {
    RetainFromKeepsOthers(walks, 0, RetainState([], pending, oldest), frame);
    assert walks[0..] == walks;
  }

  /** No action kept by a retain pass over a slot has its id still pending. */
  lemma RetainLeavesNoMatch(walks: seq<ClientWalkActionUpdate>, pending: seq<NetId>, oldest: nat, frame: nat)
    ensures var r := Retain(walks, pending, oldest, frame);
      forall w: ClientWalkActionUpdate :: w in r.kept ==> w.clientActionId !in r.pending
  {
    RetainFromLeavesNoMatch(walks, 0, RetainState([], pending, oldest), frame);
  }

  /** A retain pass over a slot only strikes ids from the pending list. */
  lemma RetainPending(walks: seq<ClientWalkActionUpdate>, pending: seq<NetId>, oldest: nat, frame: nat)
    ensures multiset(Retain(walks, pending, oldest, frame).pending) <= multiset(pending)
    ensures |Retain(walks, pending, oldest, frame).pending| <= |pending|
  {
    RetainFromPending(walks, 0, RetainState([], pending, oldest), frame);
  }

  /** Id by id, a retain pass over a slot removes exactly the pending ids it strikes. */
  lemma RetainIds(walks: seq<ClientWalkActionUpdate>, pending: seq<NetId>, oldest: nat, frame: nat, x: NetId)
    ensures var r := Retain(walks, pending, oldest, frame);
      IdCount(walks, x) + multiset(r.pending)[x] == IdCount(r.kept, x) + multiset(pending)[x]
  {
    RetainFromIds(walks, 0, RetainState([], pending, oldest), frame, x);
    assert walks[0..] == walks;
  }

  /** An id listed at most once is struck by a retain pass over a slot holding an action
      with that id. */
  lemma RetainStrikesHeld(walks: seq<ClientWalkActionUpdate>, pending: seq<NetId>, oldest: nat, frame: nat, w: ClientWalkActionUpdate)
    requires w in walks && multiset(pending)[w.clientActionId] <= 1
    ensures w.clientActionId !in Retain(walks, pending, oldest, frame).pending
  {
    var r := Retain(walks, pending, oldest, frame);
    RetainIds(walks, pending, oldest, frame, w.clientActionId);
    RetainLeavesNoMatch(walks, pending, oldest, frame);
    IdCountZero(walks, w.clientActionId);
    IdCountZero(r.kept, w.clientActionId);
  }

  /** The retain pass over a whole slot: it keeps a sub-multiset of the actions, each
      dropped action consumes one pending id, actions whose id is not pending survive,
      no survivor's id is left pending, and the watermark moves to the slot's frame
      exactly when something was dropped. */
  lemma RetainSpec(walks: seq<ClientWalkActionUpdate>, pending: seq<NetId>, oldest: nat, frame: nat)
    ensures var r := Retain(walks, pending, oldest, frame);
      && multiset(r.kept) <= multiset(walks)
      && |walks| - |r.kept| == |pending| - |r.pending|
      && multiset(r.pending) <= multiset(pending)
      && (forall w: ClientWalkActionUpdate :: w.clientActionId !in pending ==> multiset(r.kept)[w] == multiset(walks)[w])
      && (forall w: ClientWalkActionUpdate :: w in r.kept ==> w.clientActionId !in r.pending)
      && r.oldest == (if |r.pending| < |pending| then frame else oldest)
      && (|r.pending| == |pending| ==> r.kept == walks)
  {
    RetainCounts(walks, pending, oldest, frame);
    RetainWatermark(walks, pending, oldest, frame);
    RetainKeepsOthers(walks, pending, oldest, frame);
    RetainLeavesNoMatch(walks, pending, oldest, frame);
  }

  // ---------------------------------------------------------------------------
  // The scan over the buffer, newest slot first

  datatype ScanState = ScanState(slots: seq<Framed<PlayerActionUpdates>>, oldest: nat, pending: seq<NetId>)

  /** The scan with slots `i..` already visited (in place): slot `i - 1` goes through the
      retain pass, and the scan stops once no id is pending any more. */
  function ScanFrom(slots: seq<Framed<PlayerActionUpdates>>, i: nat, pending: seq<NetId>, oldest: nat): (r: ScanState)
    requires i <= |slots|
    ensures SameFrames(slots, r.slots)
    decreases i
  {
    if i == 0 then ScanState(slots, oldest, pending)
    else
      var slot := slots[i - 1];
      var r := Retain(slot.data.walkActionUpdates, pending, oldest, slot.frameNumber);
      var slots' := slots[i - 1 := Framed(slot.frameNumber, slot.data.(walkActionUpdates := r.kept))];
      if r.pending == [] then ScanState(slots', r.oldest, [])
      else ScanFrom(slots', i - 1, r.pending, r.oldest)
  }

  /** The buffer contents, the watermark and the ids left unmatched after
      `discard_walk_actions`. */
  function Discarded(slots: seq<Framed<PlayerActionUpdates>>, discarded: seq<NetId>, oldest: nat): ScanState {
    ScanFrom(slots, |slots|, discarded, oldest)
  }

  /** Slot `p` lost at least one walk action. */
  ghost predicate Shrunk(before: seq<Framed<PlayerActionUpdates>>, after: seq<Framed<PlayerActionUpdates>>, p: int)
    requires 0 <= p < |before| && |after| == |before|
  {
    |after[p].data.walkActionUpdates| < |before[p].data.walkActionUpdates|
  }

  /** How many walk actions in the whole buffer carry the client action id `x`. */
  function BufferIdCount(slots: seq<Framed<PlayerActionUpdates>>, x: NetId): nat {
    if slots == [] then 0 else IdCount(slots[0].data.walkActionUpdates, x) + BufferIdCount(slots[1..], x)
  }

  lemma {:induction false} BufferIdCountUpdate(slots: seq<Framed<PlayerActionUpdates>>, k: nat, v: Framed<PlayerActionUpdates>, x: NetId)
    requires k < |slots|
    ensures BufferIdCount(slots[k := v], x) + IdCount(slots[k].data.walkActionUpdates, x)
         == BufferIdCount(slots, x) + IdCount(v.data.walkActionUpdates, x)
  {
    if k == 0 {
      assert slots[k := v][1..] == slots[1..];
    } else {
      assert slots[k := v][1..] == slots[1..][k - 1 := v];
      BufferIdCountUpdate(slots[1..], k - 1, v, x);
    }
  }

  /** A scan leaves the slots from `i` on alone. */
  lemma {:induction false} ScanFromAbove(slots: seq<Framed<PlayerActionUpdates>>, i: nat, pending: seq<NetId>, oldest: nat)
    requires i <= |slots|
    ensures forall p :: i <= p < |slots| ==> ScanFrom(slots, i, pending, oldest).slots[p] == slots[p]
    decreases i
  {
    if i > 0 {
      var k := i - 1;
      var slot := slots[k];
      var rt := Retain(slot.data.walkActionUpdates, pending, oldest, slot.frameNumber);
      if rt.pending != [] {
        ScanFromAbove(slots[k := Framed(slot.frameNumber, slot.data.(walkActionUpdates := rt.kept))], k, rt.pending, rt.oldest);
      }
    }
  }

  /** A scan only removes walk actions, and only strikes ids from the pending list. */
  lemma {:induction false} ScanFromShape(slots: seq<Framed<PlayerActionUpdates>>, i: nat, pending: seq<NetId>, oldest: nat)
    requires i <= |slots|
    ensures var r := ScanFrom(slots, i, pending, oldest);
      && (forall p :: 0 <= p < |slots| ==>
            r.slots[p].frameNumber == slots[p].frameNumber &&
            r.slots[p].data.castActionUpdates == slots[p].data.castActionUpdates &&
            r.slots[p].data.lookActionUpdates == slots[p].data.lookActionUpdates &&
            multiset(r.slots[p].data.walkActionUpdates) <= multiset(slots[p].data.walkActionUpdates))
      && multiset(r.pending) <= multiset(pending)
    decreases i
  {
    if i > 0 {
      var k := i - 1;
      var slot := slots[k];
      var rt := Retain(slot.data.walkActionUpdates, pending, oldest, slot.frameNumber);
      RetainCounts(slot.data.walkActionUpdates, pending, oldest, slot.frameNumber);
      var slots' := slots[k := Framed(slot.frameNumber, slot.data.(walkActionUpdates := rt.kept))];
      var r := ScanFrom(slots, i, pending, oldest);
      if rt.pending != [] {
        ScanFromShape(slots', k, rt.pending, rt.oldest);
        ScanFromAbove(slots', k, rt.pending, rt.oldest);
      }
      assert r.slots[k] == slots'[k];
      forall p | 0 <= p < |slots| && p != k
        ensures r.slots[p].frameNumber == slots[p].frameNumber
        ensures r.slots[p].data.castActionUpdates == slots[p].data.castActionUpdates
        ensures r.slots[p].data.lookActionUpdates == slots[p].data.lookActionUpdates
        ensures multiset(r.slots[p].data.walkActionUpdates) <= multiset(slots[p].data.walkActionUpdates)
      {
        assert slots'[p] == slots[p];
      }
    }
  }

  /** Below `i`, a scan keeps every walk action whose id was not pending. */
  lemma {:induction false} ScanFromKeepsOthers(slots: seq<Framed<PlayerActionUpdates>>, i: nat, pending: seq<NetId>, oldest: nat)
    requires i <= |slots|
    ensures var r := ScanFrom(slots, i, pending, oldest);
      forall p: int, w: ClientWalkActionUpdate :: 0 <= p < i && w.clientActionId !in pending ==>
        multiset(r.slots[p].data.walkActionUpdates)[w] == multiset(slots[p].data.walkActionUpdates)[w]
    decreases i
  {
    if i > 0 {
      var k := i - 1;
      var slot := slots[k];
      var rt := Retain(slot.data.walkActionUpdates, pending, oldest, slot.frameNumber);
      RetainKeepsOthers(slot.data.walkActionUpdates, pending, oldest, slot.frameNumber);
      var slots' := slots[k := Framed(slot.frameNumber, slot.data.(walkActionUpdates := rt.kept))];
      if rt.pending != [] {
        RetainPending(slot.data.walkActionUpdates, pending, oldest, slot.frameNumber);
        ScanFromKeepsOthers(slots', k, rt.pending, rt.oldest);
        ScanFromAbove(slots', k, rt.pending, rt.oldest);
        var r := ScanFrom(slots', k, rt.pending, rt.oldest);
        forall p: int, w: ClientWalkActionUpdate | 0 <= p < i && w.clientActionId !in pending
          ensures multiset(r.slots[p].data.walkActionUpdates)[w] == multiset(slots[p].data.walkActionUpdates)[w]
        {
          assert multiset(pending)[w.clientActionId] == 0;
          if p == k {
            assert r.slots[k] == slots'[k];
          } else {
            assert slots'[p] == slots[p];
          }
        }
      }
    }
  }

  /** Below `i`, no walk action left by a scan carries an id that is still pending at
      the end. */
  lemma {:induction false} ScanFromLeavesNoMatch(slots: seq<Framed<PlayerActionUpdates>>, i: nat, pending: seq<NetId>, oldest: nat)
    requires i <= |slots|
    ensures var r := ScanFrom(slots, i, pending, oldest);
      forall p: int, w: ClientWalkActionUpdate :: 0 <= p < i && w in r.slots[p].data.walkActionUpdates ==>
        w.clientActionId !in r.pending
    decreases i
  {
    if i > 0 {
      var k := i - 1;
      var slot := slots[k];
      var rt := Retain(slot.data.walkActionUpdates, pending, oldest, slot.frameNumber);
      RetainLeavesNoMatch(slot.data.walkActionUpdates, pending, oldest, slot.frameNumber);
      var slots' := slots[k := Framed(slot.frameNumber, slot.data.(walkActionUpdates := rt.kept))];
      if rt.pending != [] {
        ScanFromLeavesNoMatch(slots', k, rt.pending, rt.oldest);
        ScanFromAbove(slots', k, rt.pending, rt.oldest);
        ScanFromShape(slots', k, rt.pending, rt.oldest);
        var r := ScanFrom(slots', k, rt.pending, rt.oldest);
        assert r.slots[k] == slots'[k];
        forall w: ClientWalkActionUpdate | w in r.slots[k].data.walkActionUpdates
          ensures w.clientActionId !in r.pending
        {
          assert multiset(rt.pending)[w.clientActionId] == 0;
        }
      }
    }
  }

  /** The watermark a scan leaves: unchanged if no slot below `i` lost an action,
      otherwise the frame of the lowest such slot. */
  lemma {:induction false} ScanFromWatermark(slots: seq<Framed<PlayerActionUpdates>>, i: nat, pending: seq<NetId>, oldest: nat)
    requires i <= |slots|
    ensures var r := ScanFrom(slots, i, pending, oldest);
      && ((forall p :: 0 <= p < i ==> !Shrunk(slots, r.slots, p)) ==> r.oldest == oldest)
      && (forall q :: 0 <= q < i && Shrunk(slots, r.slots, q) && (forall p :: 0 <= p < q ==> !Shrunk(slots, r.slots, p)) ==>
            r.oldest == slots[q].frameNumber)
    decreases i
  {
    if i > 0 {
      var k := i - 1;
      var slot := slots[k];
      var rt := Retain(slot.data.walkActionUpdates, pending, oldest, slot.frameNumber);
      RetainCounts(slot.data.walkActionUpdates, pending, oldest, slot.frameNumber);
      RetainWatermark(slot.data.walkActionUpdates, pending, oldest, slot.frameNumber);
      var slots' := slots[k := Framed(slot.frameNumber, slot.data.(walkActionUpdates := rt.kept))];
      var r := ScanFrom(slots, i, pending, oldest);
      if rt.pending != [] {
        ScanFromWatermark(slots', k, rt.pending, rt.oldest);
        ScanFromAbove(slots', k, rt.pending, rt.oldest);
        assert forall p :: 0 <= p < k ==> Shrunk(slots, r.slots, p) == Shrunk(slots', r.slots, p);
      }
      assert r.slots[k] == slots'[k];
      if !Shrunk(slots, r.slots, k) {
        assert |rt.pending| == |pending|;
      }
    }
  }

  /** Id by id, a scan removes from the buffer exactly the listed ids it matched: the
      actions with id `x` before plus the `x`s left unmatched equal the actions with id `x`
      after plus the `x`s asked for. */
  lemma {:induction false} ScanFromIds(slots: seq<Framed<PlayerActionUpdates>>, i: nat, pending: seq<NetId>, oldest: nat, x: NetId)
    requires i <= |slots|
    ensures var r := ScanFrom(slots, i, pending, oldest);
      BufferIdCount(slots, x) + multiset(r.pending)[x] == BufferIdCount(r.slots, x) + multiset(pending)[x]
    decreases i
  {
    if i > 0 {
      var k := i - 1;
      var slot := slots[k];
      var rt := Retain(slot.data.walkActionUpdates, pending, oldest, slot.frameNumber);
      RetainIds(slot.data.walkActionUpdates, pending, oldest, slot.frameNumber, x);
      var slot' := Framed(slot.frameNumber, slot.data.(walkActionUpdates := rt.kept));
      BufferIdCountUpdate(slots, k, slot', x);
      if rt.pending != [] {
        ScanFromIds(slots[k := slot'], k, rt.pending, rt.oldest, x);
      }
    }
  }

  /** The scan's effect on the whole buffer: frames and the other actions stay, every walk
      action whose id was never asked for stays, no remaining walk action carries an id
      left unmatched, the unmatched ids are a sub-multiset of those asked for, and the
      watermark becomes the frame of the oldest slot that lost an action (unchanged if
      none did). */
  lemma DiscardedSpec(slots: seq<Framed<PlayerActionUpdates>>, discarded: seq<NetId>, oldest: nat)
    ensures var r := Discarded(slots, discarded, oldest);
      && SameFrames(slots, r.slots)
      && (Consecutive(slots) ==> Consecutive(r.slots))
      && (forall p :: 0 <= p < |slots| ==>
            r.slots[p].data.castActionUpdates == slots[p].data.castActionUpdates &&
            r.slots[p].data.lookActionUpdates == slots[p].data.lookActionUpdates &&
            multiset(r.slots[p].data.walkActionUpdates) <= multiset(slots[p].data.walkActionUpdates))
      && (forall p: int, w: ClientWalkActionUpdate :: 0 <= p < |slots| && w.clientActionId !in discarded ==>
            multiset(r.slots[p].data.walkActionUpdates)[w] == multiset(slots[p].data.walkActionUpdates)[w])
      && (forall p: int, w: ClientWalkActionUpdate :: 0 <= p < |slots| && w in r.slots[p].data.walkActionUpdates ==> w.clientActionId !in r.pending)
      && multiset(r.pending) <= multiset(discarded)
      && (forall x :: BufferIdCount(slots, x) + multiset(r.pending)[x] == BufferIdCount(r.slots, x) + multiset(discarded)[x])
      && ((forall p :: 0 <= p < |slots| ==> !Shrunk(slots, r.slots, p)) ==> r.oldest == oldest)
      && (forall q :: 0 <= q < |slots| && Shrunk(slots, r.slots, q) && (forall p :: 0 <= p < q ==> !Shrunk(slots, r.slots, p)) ==>
            r.oldest == slots[q].frameNumber)
  {
    ScanFromShape(slots, |slots|, discarded, oldest);
    ScanFromAbove(slots, |slots|, discarded, oldest);
    ScanFromKeepsOthers(slots, |slots|, discarded, oldest);
    ScanFromLeavesNoMatch(slots, |slots|, discarded, oldest);
    ScanFromWatermark(slots, |slots|, discarded, oldest);
    forall x ensures BufferIdCount(slots, x) + multiset(Discarded(slots, discarded, oldest).pending)[x]
                  == BufferIdCount(Discarded(slots, discarded, oldest).slots, x) + multiset(discarded)[x] {
      ScanFromIds(slots, |slots|, discarded, oldest, x);
    }
    var r := Discarded(slots, discarded, oldest);
    if Consecutive(slots) {
      SameFramesConsecutive(slots, r.slots);
    }
  }

  /** A single discarded id is taken from the newest slot that holds it: every older slot
      is left as it was. */
  lemma {:induction false} NewestOccurrenceIsDiscarded(slots: seq<Framed<PlayerActionUpdates>>, i: nat, x: NetId, oldest: nat, q: nat, w: ClientWalkActionUpdate)
    requires q < i <= |slots|
    requires w in slots[q].data.walkActionUpdates && w.clientActionId == x
    ensures forall p :: 0 <= p < q ==> ScanFrom(slots, i, [x], oldest).slots[p] == slots[p]
    decreases i
  {
    var k := i - 1;
    var slot := slots[k];
    var rt := Retain(slot.data.walkActionUpdates, [x], oldest, slot.frameNumber);
    RetainCounts(slot.data.walkActionUpdates, [x], oldest, slot.frameNumber);
    RetainWatermark(slot.data.walkActionUpdates, [x], oldest, slot.frameNumber);
    RetainLeavesNoMatch(slot.data.walkActionUpdates, [x], oldest, slot.frameNumber);
    var slots' := slots[k := Framed(slot.frameNumber, slot.data.(walkActionUpdates := rt.kept))];
    if rt.pending != [] {
      assert |rt.pending| == 1;
      assert rt.pending[0] in multiset(rt.pending);
      assert rt.pending == [x];
      if k == q {
        assert false;
      }
      NewestOccurrenceIsDiscarded(slots', k, x, rt.oldest, q, w);
    }
  }

  /** An id listed at most once is taken from the newest slot holding it: in every older
      slot the walk actions with that id are left as they were. An id listed n times
      takes its n newest occurrences, one per listing, as `ScanFromIds` counts; client
      action ids are unique, so a repeated listing does not arise in practice. */
  lemma {:induction false} NewestListedOccurrenceIsDiscarded(slots: seq<Framed<PlayerActionUpdates>>, i: nat, pending: seq<NetId>,
                                                            oldest: nat, q: nat, w: ClientWalkActionUpdate)
    requires q < i <= |slots|
    requires w in slots[q].data.walkActionUpdates && multiset(pending)[w.clientActionId] <= 1
    ensures var r := ScanFrom(slots, i, pending, oldest);
      forall p: int, v: ClientWalkActionUpdate :: 0 <= p < q && v.clientActionId == w.clientActionId ==>
        multiset(r.slots[p].data.walkActionUpdates)[v] == multiset(slots[p].data.walkActionUpdates)[v]
    decreases i
  {
    var k := i - 1;
    var slot := slots[k];
    var rt := Retain(slot.data.walkActionUpdates, pending, oldest, slot.frameNumber);
    RetainPending(slot.data.walkActionUpdates, pending, oldest, slot.frameNumber);
    var slots' := slots[k := Framed(slot.frameNumber, slot.data.(walkActionUpdates := rt.kept))];
    var r := ScanFrom(slots, i, pending, oldest);
    if k == q {
      RetainStrikesHeld(slot.data.walkActionUpdates, pending, oldest, slot.frameNumber, w);
    }
    if rt.pending == [] {
      assert r.slots == slots';
      assert forall p :: 0 <= p < q ==> slots'[p] == slots[p];
    } else if w.clientActionId !in rt.pending {
      assert r == ScanFrom(slots', k, rt.pending, rt.oldest);
      ScanFromKeepsOthers(slots', k, rt.pending, rt.oldest);
      assert forall p :: 0 <= p < q ==> slots'[p] == slots[p];
    } else {
      assert r == ScanFrom(slots', k, rt.pending, rt.oldest);
      NewestListedOccurrenceIsDiscarded(slots', k, rt.pending, rt.oldest, q, w);
      assert forall p :: 0 <= p <= q ==> slots'[p] == slots[p];
    }
  }

  /** `discard_walk_actions` takes an id listed once from the newest slot holding it. */
  lemma DiscardedNewestFirst(slots: seq<Framed<PlayerActionUpdates>>, discarded: seq<NetId>, oldest: nat,
                             q: nat, w: ClientWalkActionUpdate)
    requires q < |slots|
    requires w in slots[q].data.walkActionUpdates && multiset(discarded)[w.clientActionId] <= 1
    ensures var r := Discarded(slots, discarded, oldest);
      forall p: int, v: ClientWalkActionUpdate :: 0 <= p < q && v.clientActionId == w.clientActionId ==>
        multiset(r.slots[p].data.walkActionUpdates)[v] == multiset(slots[p].data.walkActionUpdates)[v]
  {
    NewestListedOccurrenceIsDiscarded(slots, |slots|, discarded, oldest, q, w);
  }

  // ---------------------------------------------------------------------------
  // The imperative code

  /** The `retain` call on one slot's walk actions. */
  method RetainWalkActions(walks: seq<ClientWalkActionUpdate>, pending: seq<NetId>, oldest: nat, frame: nat)
    returns (kept: seq<ClientWalkActionUpdate>, pendingOut: seq<NetId>, oldestOut: nat)
    ensures RetainState(kept, pendingOut, oldestOut) == Retain(walks, pending, oldest, frame)
  {
    kept, pendingOut, oldestOut := [], pending, oldest;
    var j := 0;
    while j < |walks|
      invariant j <= |walks|
      invariant RetainFrom(walks, j, RetainState(kept, pendingOut, oldestOut), frame) == Retain(walks, pending, oldest, frame)
    {
      var found := IndexOf(pendingOut, walks[j].clientActionId);
      if found.Some? {
        pendingOut := RemoveAt(pendingOut, found.value);
        oldestOut := frame;
      } else {
        kept := kept + [walks[j]];
      }
      j := j + 1;
    }
  }

  /** `discard_walk_actions` on the client's own action buffer. */
  method DiscardWalkActions(buffer: FramedUpdates<PlayerActionUpdates>, discarded: seq<NetId>)
    requires buffer.Valid()
    modifies buffer
    ensures buffer.Valid()
    ensures var r := Discarded(old(buffer.updates), discarded, old(buffer.oldestUpdatedFrame));
            buffer.updates == r.slots && buffer.oldestUpdatedFrame == r.oldest
  {
    ghost var target := Discarded(buffer.updates, discarded, buffer.oldestUpdatedFrame);
    DiscardedSpec(buffer.updates, discarded, buffer.oldestUpdatedFrame);
    var oldest := buffer.oldestUpdatedFrame;
    var pending := discarded;
    var i: nat := |buffer.updates|;
    while i > 0
      invariant i <= |buffer.updates|
      invariant ScanFrom(buffer.updates, i, pending, oldest) == target
    {
      var slot := buffer.updates[i - 1];
      var kept;
      kept, pending, oldest := RetainWalkActions(slot.data.walkActionUpdates, pending, oldest, slot.frameNumber);
      buffer.updates := buffer.updates[i - 1 := Framed(slot.frameNumber, slot.data.(walkActionUpdates := kept))];
      i := i - 1;
      if pending == [] {
        break;
      }
    }
    buffer.oldestUpdatedFrame := oldest;
  }
}
