/** Merging an authoritative `UpdateWorld` batch into the client's frame buffers:
    `collect_controlled_player_updates` and `apply_world_updates`. */
module Reconcile {
  import opened NetTypes
  import opened Framed

  // ---------------------------------------------------------------------------
  // Sorting the batch (`updates.sort_by(frame_number)`)

  ghost predicate SortedByFrame(s: seq<ServerWorldUpdate>) {
    forall i, j :: 0 <= i < j < |s| ==> s[i].frameNumber <= s[j].frameNumber
  }

  function InsertByFrame(u: ServerWorldUpdate, s: seq<ServerWorldUpdate>): (r: seq<ServerWorldUpdate>)
    requires SortedByFrame(s)
    ensures SortedByFrame(r)
    ensures multiset(r) == multiset(s) + multiset{u}
    ensures |r| == |s| + 1
    ensures r[0] == u || (s != [] && r[0] == s[0])
  {
    if s == [] || u.frameNumber <= s[0].frameNumber then
      ConsSorted(u, s);
      [u] + s
    else
      var rest := InsertByFrame(u, s[1..]);
      assert s == [s[0]] + s[1..];
      assert multiset(s) == multiset{s[0]} + multiset(s[1..]);
      assert multiset([s[0]] + rest) == multiset{s[0]} + multiset(rest);
      ConsSorted(s[0], rest);
      [s[0]] + rest
  }

  /** An update no later than the head of a sorted batch can go in front of it. */
  lemma ConsSorted(x: ServerWorldUpdate, s: seq<ServerWorldUpdate>)
    requires SortedByFrame(s) && (s != [] ==> x.frameNumber <= s[0].frameNumber)
    ensures SortedByFrame([x] + s)
  {
    var r := [x] + s;
    forall i, j | 0 <= i < j < |r|
      ensures r[i].frameNumber <= r[j].frameNumber
    {
      if i == 0 && j > 1 {
        assert r[1] == s[0] && r[j] == s[j - 1];
      }
    }
  }

  /** The batch in ascending frame order, as a permutation of what arrived. */
  function SortByFrame(s: seq<ServerWorldUpdate>): (r: seq<ServerWorldUpdate>)
    ensures SortedByFrame(r)
    ensures multiset(r) == multiset(s)
    ensures |r| == |s|
  {
    if s == [] then []
    else
      assert s == [s[0]] + s[1..];
      InsertByFrame(s[0], SortByFrame(s[1..]))
  }

  /** After sorting, the last update carries the largest frame of the batch. */
  lemma SortedLastIsLargest(s: seq<ServerWorldUpdate>, u: ServerWorldUpdate)
    requires u in s
    ensures SortByFrame(s) != [] && u.frameNumber <= SortByFrame(s)[|SortByFrame(s)| - 1].frameNumber
  {
    var r := SortByFrame(s);
    assert multiset(s)[u] > 0;
    assert multiset(r)[u] > 0;
    var i :| 0 <= i < |r| && r[i] == u;
    var last := |r| - 1;
    assert i == last || r[i].frameNumber <= r[last].frameNumber;
  }

  // ---------------------------------------------------------------------------
  // collect_controlled_player_updates

  /** `position(..)`: the index of the first action whose entity is controlled. */
  function PositionControlled(actions: seq<PlayerActionUpdate>, controlled: seq<NetId>): (r: Option<nat>)
    ensures r.Some? ==> r.value < |actions| && actions[r.value].entityNetId in controlled
    ensures r.Some? ==> forall j :: 0 <= j < r.value ==> actions[j].entityNetId !in controlled
    ensures r.None? ==> forall j :: 0 <= j < |actions| ==> actions[j].entityNetId !in controlled
  {
    if actions == [] then None
    else if actions[0].entityNetId in controlled then Some(0)
    else match PositionControlled(actions[1..], controlled)
      case None => None
      case Some(p) => Some(p + 1)
  }

  /** Takes the first controlled action out of `actions`: (what stays, what was taken).
      The `position` + `remove` pair, computed in one pass; `TakeIsPositionThenRemove`
      shows it agrees with the two steps. */
  function TakeFirstControlled(actions: seq<PlayerActionUpdate>, controlled: seq<NetId>): (r: (seq<PlayerActionUpdate>, seq<PlayerActionUpdate>))
    ensures |r.1| <= 1
  {
    if actions == [] then ([], [])
    else if actions[0].entityNetId in controlled then (actions[1..], [actions[0]])
    else
      var rest := TakeFirstControlled(actions[1..], controlled);
      ([actions[0]] + rest.0, rest.1)
  }

  /** The one-pass removal is `remove(position(..))`, or nothing when no action is controlled. */
  lemma {:induction false} TakeIsPositionThenRemove(actions: seq<PlayerActionUpdate>, controlled: seq<NetId>)
    ensures var r := TakeFirstControlled(actions, controlled);
            match PositionControlled(actions, controlled)
            case None => r == (actions, [])
            case Some(p) => r == (RemoveAt(actions, p), [actions[p]])
  {
    if actions != [] && actions[0].entityNetId !in controlled {
      TakeIsPositionThenRemove(actions[1..], controlled);
      match PositionControlled(actions[1..], controlled)
      case None =>
        assert actions == [actions[0]] + actions[1..];
      case Some(p) =>
        assert actions[..p + 1] + actions[p + 2..] == [actions[0]] + (actions[1..][..p] + actions[1..][p + 1..]);
    } else if actions != [] {
      assert actions[..0] + actions[1..] == actions[1..];
    }
  }

  /** Taking out the first controlled action loses nothing else, takes a controlled one,
      and takes one whenever there is one. */
  lemma TakeFirstControlledSpec(actions: seq<PlayerActionUpdate>, controlled: seq<NetId>)
    ensures var r := TakeFirstControlled(actions, controlled);
      && multiset(r.0) + multiset(r.1) == multiset(actions)
      && (r.1 == [] <==> forall j :: 0 <= j < |actions| ==> actions[j].entityNetId !in controlled)
      && (r.1 == [] ==> r.0 == actions)
      && (forall a :: a in r.1 ==> a.entityNetId in controlled)
  {
    TakeIsPositionThenRemove(actions, controlled);
    match PositionControlled(actions, controlled)
    case None =>
    case Some(p) => RemoveAtMultiset(actions, p);
  }

  /** The closure of `collect_controlled_player_updates` for one update: the first
      controlled walk action and the first controlled cast action move into the result,
      the first controlled look action is deleted. */
  function ExtractControlled(controlled: seq<NetId>, u: ServerWorldUpdate): (r: (ReceivedPlayerUpdate, ServerWorldUpdate))
    ensures r.1.frameNumber == u.frameNumber && r.1.spawnActions == u.spawnActions
    ensures |r.0.playerWalkActionsUpdates| <= 1 && |r.0.playerCastActionsUpdates| <= 1
  {
    var walk := TakeFirstControlled(u.playerWalkActionsUpdates, controlled);
    var cast := TakeFirstControlled(u.playerCastActionsUpdates, controlled);
    var look := TakeFirstControlled(u.playerLookActionsUpdates, controlled);
    (ReceivedPlayerUpdate(walk.1, cast.1),
     u.(playerWalkActionsUpdates := walk.0, playerCastActionsUpdates := cast.0, playerLookActionsUpdates := look.0))
  }

  /** What one extraction does to the update: at most one controlled walk action and at
      most one controlled cast action are moved (none only if there is none), at most one
      controlled look action is deleted, and nothing else is lost or gained. */
  lemma ExtractControlledMovesAtMostOne(controlled: seq<NetId>, u: ServerWorldUpdate)
    ensures var r := ExtractControlled(controlled, u);
      && multiset(r.0.playerWalkActionsUpdates) + multiset(r.1.playerWalkActionsUpdates) == multiset(u.playerWalkActionsUpdates)
      && multiset(r.0.playerCastActionsUpdates) + multiset(r.1.playerCastActionsUpdates) == multiset(u.playerCastActionsUpdates)
      && (forall a :: a in r.0.playerWalkActionsUpdates ==> a.entityNetId in controlled)
      && (forall a :: a in r.0.playerCastActionsUpdates ==> a.entityNetId in controlled)
      && (r.0.playerWalkActionsUpdates == [] <==>
            forall j :: 0 <= j < |u.playerWalkActionsUpdates| ==> u.playerWalkActionsUpdates[j].entityNetId !in controlled)
      && (r.0.playerCastActionsUpdates == [] <==>
            forall j :: 0 <= j < |u.playerCastActionsUpdates| ==> u.playerCastActionsUpdates[j].entityNetId !in controlled)
  {
    TakeFirstControlledSpec(u.playerWalkActionsUpdates, controlled);
    TakeFirstControlledSpec(u.playerCastActionsUpdates, controlled);
  }

  /** The look actions: at most one is deleted, it is a controlled one, and one is deleted
      whenever a controlled one is present. */
  lemma ExtractControlledDropsLook(controlled: seq<NetId>, u: ServerWorldUpdate)
    ensures var look := ExtractControlled(controlled, u).1.playerLookActionsUpdates;
      && multiset(look) <= multiset(u.playerLookActionsUpdates)
      && |u.playerLookActionsUpdates| - |look| <= 1
      && (forall a :: a in multiset(u.playerLookActionsUpdates) - multiset(look) ==> a.entityNetId in controlled)
      && (|look| == |u.playerLookActionsUpdates| <==>
            forall j :: 0 <= j < |u.playerLookActionsUpdates| ==> u.playerLookActionsUpdates[j].entityNetId !in controlled)
  {
    var t := TakeFirstControlled(u.playerLookActionsUpdates, controlled);
    TakeFirstControlledSpec(u.playerLookActionsUpdates, controlled);
    assert multiset(u.playerLookActionsUpdates) - multiset(t.0) == multiset(t.1);
  }

  /** Order is kept: the taken action is the first controlled one and the others keep
      their relative order. */
  lemma ExtractControlledKeepsOrder(controlled: seq<NetId>, u: ServerWorldUpdate)
    ensures var r := ExtractControlled(controlled, u);
            var w := u.playerWalkActionsUpdates;
            match PositionControlled(w, controlled)
            case None => r.1.playerWalkActionsUpdates == w
            case Some(p) => r.0.playerWalkActionsUpdates == [w[p]] && r.1.playerWalkActionsUpdates == w[..p] + w[p + 1..]
  {
    TakeIsPositionThenRemove(u.playerWalkActionsUpdates, controlled);
  }

  /** `skip_while(frame_number < INTERPOLATION_FRAME_DELAY)`: the length of the longest
      prefix of updates that precede the delay. */
  function SkipCount(updates: seq<ServerWorldUpdate>): (n: nat)
    ensures n <= |updates|
    ensures forall i :: 0 <= i < n ==> updates[i].frameNumber < INTERPOLATION_FRAME_DELAY
    ensures n < |updates| ==> updates[n].frameNumber >= INTERPOLATION_FRAME_DELAY
  {
    if updates == [] || updates[0].frameNumber >= INTERPOLATION_FRAME_DELAY then 0
    else 1 + SkipCount(updates[1..])
  }

  /** On a sorted batch, exactly the updates from the delay on are visited. */
  lemma SkipCountSorted(updates: seq<ServerWorldUpdate>, i: nat)
    requires SortedByFrame(updates) && i < |updates|
    ensures i >= SkipCount(updates) <==> updates[i].frameNumber >= INTERPOLATION_FRAME_DELAY
  {
  }

  /** The extraction mapped over a run of updates: what is taken out of each. */
  function CollectFrom(controlled: seq<NetId>, us: seq<ServerWorldUpdate>): (r: seq<ReceivedPlayerUpdate>)
    ensures |r| == |us|
  {
    if us == [] then [] else CollectFrom(controlled, us[..|us| - 1]) + [ExtractControlled(controlled, us[|us| - 1]).0]
  }

  /** The extraction mapped over a run of updates: what is left of each. */
  function StripFrom(controlled: seq<NetId>, us: seq<ServerWorldUpdate>): (r: seq<ServerWorldUpdate>)
    ensures |r| == |us|
  {
    if us == [] then [] else StripFrom(controlled, us[..|us| - 1]) + [ExtractControlled(controlled, us[|us| - 1]).1]
  }

  /** Element `k` of the mapped runs is the extraction of update `k`. */
  lemma {:induction false} MappedAt(controlled: seq<NetId>, us: seq<ServerWorldUpdate>, k: nat)
    requires k < |us|
    ensures CollectFrom(controlled, us)[k] == ExtractControlled(controlled, us[k]).0
    ensures StripFrom(controlled, us)[k] == ExtractControlled(controlled, us[k]).1
  {
    if k < |us| - 1 {
      MappedAt(controlled, us[..|us| - 1], k);
    }
  }

  /** What `collect_controlled_player_updates` returns: one entry per update that is not skipped. */
  function Collected(controlled: seq<NetId>, incoming: seq<ServerWorldUpdate>): (r: seq<ReceivedPlayerUpdate>)
    ensures |r| == |incoming| - SkipCount(incoming)
  {
    CollectFrom(controlled, incoming[SkipCount(incoming)..])
  }

  /** What the batch looks like afterwards: skipped updates are untouched, the others lost
      their controlled actions. */
  function Stripped(controlled: seq<NetId>, incoming: seq<ServerWorldUpdate>): (r: seq<ServerWorldUpdate>)
    ensures |r| == |incoming|
  {
    var s := SkipCount(incoming);
    incoming[..s] + StripFrom(controlled, incoming[s..])
  }

  /** Update by update: the skipped prefix is untouched, every visited update loses what
      the extraction takes out of it, and the k-th collected entry is what was taken out of
      the k-th visited update. */
  lemma StrippedAndCollectedAt(controlled: seq<NetId>, incoming: seq<ServerWorldUpdate>, i: nat)
    requires i < |incoming|
    ensures i < SkipCount(incoming) ==> Stripped(controlled, incoming)[i] == incoming[i]
    ensures i >= SkipCount(incoming) ==>
              Stripped(controlled, incoming)[i] == ExtractControlled(controlled, incoming[i]).1 &&
              Collected(controlled, incoming)[i - SkipCount(incoming)] == ExtractControlled(controlled, incoming[i]).0
  {
    var s := SkipCount(incoming);
    if i >= s {
      MappedAt(controlled, incoming[s..], i - s);
    }
  }

  /** Stripping keeps every update's frame and spawn actions. */
  lemma StrippedKeepsFrames(controlled: seq<NetId>, incoming: seq<ServerWorldUpdate>)
    ensures forall i :: 0 <= i < |incoming| ==>
              Stripped(controlled, incoming)[i].frameNumber == incoming[i].frameNumber &&
              Stripped(controlled, incoming)[i].spawnActions == incoming[i].spawnActions
  {
    forall i | 0 <= i < |incoming|
      ensures Stripped(controlled, incoming)[i].frameNumber == incoming[i].frameNumber
      ensures Stripped(controlled, incoming)[i].spawnActions == incoming[i].spawnActions
    {
      StrippedAndCollectedAt(controlled, incoming, i);
    }
  }

  /** Every collected entry holds at most one walk and at most one cast action. */
  lemma CollectedAtMostOneEach(controlled: seq<NetId>, incoming: seq<ServerWorldUpdate>)
    ensures forall k :: 0 <= k < |Collected(controlled, incoming)| ==>
              |Collected(controlled, incoming)[k].playerWalkActionsUpdates| <= 1 &&
              |Collected(controlled, incoming)[k].playerCastActionsUpdates| <= 1
  {
    forall k | 0 <= k < |Collected(controlled, incoming)|
      ensures |Collected(controlled, incoming)[k].playerWalkActionsUpdates| <= 1
      ensures |Collected(controlled, incoming)[k].playerCastActionsUpdates| <= 1
    {
      StrippedAndCollectedAt(controlled, incoming, k + SkipCount(incoming));
    }
  }

  /** The `skip_while` adapter: advances past the updates that precede the delay. */
  method SkipWhileBeforeDelay(updates: seq<ServerWorldUpdate>) returns (i: nat)
    ensures i == SkipCount(updates)
  {
    i := 0;
    while i < |updates| && updates[i].frameNumber < INTERPOLATION_FRAME_DELAY
      invariant i <= |updates|
      invariant forall j :: 0 <= j < i ==> updates[j].frameNumber < INTERPOLATION_FRAME_DELAY
    {
      i := i + 1;
    }
    SkipCountIsFirstReached(updates, i);
  }

  /** `collect_controlled_player_updates`: the iterator walk over the batch, collecting
      what it takes out of each visited update; the edited batch is returned as `updates`
      (the skipped prefix followed by the edited updates). */
  method CollectControlledPlayerUpdates(controlled: seq<NetId>, incoming: seq<ServerWorldUpdate>)
    returns (collected: seq<ReceivedPlayerUpdate>, updates: seq<ServerWorldUpdate>)
    ensures collected == Collected(controlled, incoming)
    ensures updates == Stripped(controlled, incoming)
  {
    var i := SkipWhileBeforeDelay(incoming);
    var skipped := i;
    collected := [];
    var stripped := [];
    while i < |incoming|
      invariant skipped <= i <= |incoming|
      invariant collected == CollectFrom(controlled, incoming[skipped..i])
      invariant stripped == StripFrom(controlled, incoming[skipped..i])
    {
      var extracted := ExtractControlled(controlled, incoming[i]);
      MappedSnoc(controlled, incoming, skipped, i);
      collected := collected + [extracted.0];
      stripped := stripped + [extracted.1];
      i := i + 1;
    }
    assert incoming[skipped..i] == incoming[skipped..];
    updates := incoming[..skipped] + stripped;
  }

  /** Extending the visited run by one update extends both mapped runs by its extraction. */
  lemma MappedSnoc(controlled: seq<NetId>, incoming: seq<ServerWorldUpdate>, lo: nat, i: nat)
    requires lo <= i < |incoming|
    ensures CollectFrom(controlled, incoming[lo..i + 1]) ==
              CollectFrom(controlled, incoming[lo..i]) + [ExtractControlled(controlled, incoming[i]).0]
    ensures StripFrom(controlled, incoming[lo..i + 1]) ==
              StripFrom(controlled, incoming[lo..i]) + [ExtractControlled(controlled, incoming[i]).1]
  {
    assert incoming[lo..i + 1][..i - lo] == incoming[lo..i];
  }

  /** The first index reached by the skipping loop is the skip count. */
  lemma {:induction false} SkipCountIsFirstReached(updates: seq<ServerWorldUpdate>, n: nat)
    requires n <= |updates|
    requires forall j :: 0 <= j < n ==> updates[j].frameNumber < INTERPOLATION_FRAME_DELAY
    requires n < |updates| ==> updates[n].frameNumber >= INTERPOLATION_FRAME_DELAY
    ensures SkipCount(updates) == n
  {
    if n > 0 {
      SkipCountIsFirstReached(updates[1..], n - 1);
    }
  }

  // ---------------------------------------------------------------------------
  // apply_world_updates

  /** A server frame seen through the interpolation delay (saturating). */
  function DelayedFrame(frame: nat): nat {
    SaturatingSub(frame, INTERPOLATION_FRAME_DELAY)
  }

  /** `apply_server_update`: the server update is merged into the slot, next to whatever
      the slot already holds. */
  function ApplyServerUpdate(slot: ReceivedServerWorldUpdate, u: ServerWorldUpdate): ReceivedServerWorldUpdate {
    slot.(serverUpdates := slot.serverUpdates + [u])
  }

  /** The spawn buffer after the zip: the k-th update's spawn actions go into the k-th slot
      visited from `start`. */
  function SpawnWritten(s: seq<Framed<SpawnActions>>, start: nat, updates: seq<ServerWorldUpdate>): (r: seq<Framed<SpawnActions>>)
    requires Consecutive(s)
    ensures SameFrames(s, r)
    ensures forall p :: 0 <= p < |s| && s[p].frameNumber < start ==> r[p] == s[p]
    ensures s != [] && s[0].frameNumber <= start ==>
              forall p :: 0 <= p < |s| && start <= s[p].frameNumber < start + |updates| ==>
                r[p].data.spawnActions == updates[s[p].frameNumber - start].spawnActions
    ensures s != [] && s[0].frameNumber <= start ==>
              forall p :: 0 <= p < |s| && s[p].frameNumber >= start + |updates| ==> r[p] == s[p]
    ensures s != [] && start < s[0].frameNumber ==>
              forall p :: 0 <= p < |s| ==>
                r[p] == if p < |updates| then Framed(s[p].frameNumber, s[p].data.(spawnActions := updates[p].spawnActions)) else s[p]
  {
    var v := FirstVisited(s, start);
    seq(|s|, p requires 0 <= p < |s| =>
      if v <= p < v + |updates|
      then Framed(s[p].frameNumber, s[p].data.(spawnActions := updates[p - v].spawnActions))
      else s[p])
  }

  /** The general buffer after the merge loop started at `start` (the delayed first frame):
      the j-th visited slot gets the j-th controlled update; from `othersStart` on, the k-th
      such slot also receives the k-th server update; once the server updates run out the
      loop stops. */
  function GeneralWritten(s: seq<Framed<ReceivedServerWorldUpdate>>, start: nat, othersStart: nat,
                          controlledUpdates: seq<ReceivedPlayerUpdate>, serverUpdates: seq<ServerWorldUpdate>)
    : (r: seq<Framed<ReceivedServerWorldUpdate>>)
    requires Consecutive(s)
    ensures SameFrames(s, r)
    ensures forall p :: 0 <= p < |s| && (s[p].frameNumber < start || s[p].frameNumber > othersStart + |serverUpdates|) ==> r[p] == s[p]
    ensures forall p :: 0 <= p < |s| && start <= othersStart <= s[p].frameNumber < othersStart + |serverUpdates| ==>
              r[p].data.serverUpdates == s[p].data.serverUpdates + [serverUpdates[s[p].frameNumber - othersStart]]
    ensures s != [] && s[0].frameNumber <= start ==>
              forall p :: 0 <= p < |s| && start <= s[p].frameNumber < start + |controlledUpdates| && s[p].frameNumber <= othersStart + |serverUpdates| ==>
                r[p].data.controlledPlayerUpdates == controlledUpdates[s[p].frameNumber - start]
  {
    var v := FirstVisited(s, start);
    seq(|s|, p requires 0 <= p < |s| =>
      if p < v || s[p].frameNumber > othersStart + |serverUpdates| then s[p]
      else MergedSlot(s[p], p - v, othersStart, controlledUpdates, serverUpdates))
  }

  /** One slot of the merge loop, the `j`-th one visited: it takes the `j`-th controlled
      update, if there is one, and, a slot `d` frames after `othersStart`, the `d`-th server
      update, if there is one. */
  function MergedSlot(slot: Framed<ReceivedServerWorldUpdate>, j: nat, othersStart: nat,
                      controlledUpdates: seq<ReceivedPlayerUpdate>, serverUpdates: seq<ServerWorldUpdate>)
    : Framed<ReceivedServerWorldUpdate>
  {
    var f := slot.frameNumber;
    var d := slot.data;
    var c := if j < |controlledUpdates| then controlledUpdates[j] else d.controlledPlayerUpdates;
    var d' := d.(controlledPlayerUpdates := c);
    Framed(f, if othersStart <= f < othersStart + |serverUpdates| then ApplyServerUpdate(d', serverUpdates[f - othersStart]) else d')
  }

  /** The zip loop over the spawn buffer. */
  method WriteSpawnActions(spawn: FramedUpdates<SpawnActions>, start: nat, updates: seq<ServerWorldUpdate>)
    requires spawn.Valid()
    modifies spawn
    ensures spawn.Valid()
    ensures spawn.updates == SpawnWritten(old(spawn.updates), start, updates)
    ensures spawn.oldestUpdatedFrame == old(spawn.oldestUpdatedFrame)
  {
    ghost var s0 := spawn.updates;
    var i := FirstVisited(spawn.updates, start);
    ghost var v := i;
    var k := 0;
    while i < |spawn.updates| && k < |updates|
      invariant v <= i <= |s0| == |spawn.updates| && i - v == k && k <= |updates|
      invariant forall p :: 0 <= p < |s0| ==>
                  spawn.updates[p] == if v <= p < i then Framed(s0[p].frameNumber, s0[p].data.(spawnActions := updates[p - v].spawnActions))
                                      else s0[p]
      invariant spawn.oldestUpdatedFrame == old(spawn.oldestUpdatedFrame)
    {
      var slot := spawn.updates[i];
      spawn.updates := spawn.updates[i := Framed(slot.frameNumber, slot.data.(spawnActions := updates[k].spawnActions))];
      i, k := i + 1, k + 1;
    }
    assert spawn.updates == SpawnWritten(s0, start, updates);
    SameFramesConsecutive(s0, spawn.updates);
  }

  /** The loop over the general buffer, advancing the controlled and the server iterators. */
  method MergeFrameUpdates(framed: FramedUpdates<ReceivedServerWorldUpdate>, start: nat, othersStart: nat,
                           controlledUpdates: seq<ReceivedPlayerUpdate>, serverUpdates: seq<ServerWorldUpdate>)
    requires framed.Valid() && framed.updates != []
    requires framed.updates[0].frameNumber <= start <= othersStart
    modifies framed
    ensures framed.Valid()
    ensures framed.updates == GeneralWritten(old(framed.updates), start, othersStart, controlledUpdates, serverUpdates)
    ensures framed.oldestUpdatedFrame == old(framed.oldestUpdatedFrame)
  {
    ghost var s0 := framed.updates;
    var i := FirstVisited(framed.updates, start);
    ghost var v := i;
    ghost var lag := othersStart - start;
    var c, k := 0, 0;
    while i < |framed.updates|
      invariant v <= i <= |s0| == |framed.updates|
      invariant i < |s0| ==> s0[i].frameNumber == start + (i - v)
      invariant c == if i - v < |controlledUpdates| then i - v else |controlledUpdates|
      invariant k == if i - v >= lag then i - v - lag else 0
      invariant k <= |serverUpdates|
      invariant forall p :: 0 <= p < |s0| ==>
                  framed.updates[p] == if v <= p < i then MergedSlot(s0[p], p - v, othersStart, controlledUpdates, serverUpdates)
                                       else s0[p]
      invariant framed.oldestUpdatedFrame == old(framed.oldestUpdatedFrame)
    {
      var slot := framed.updates[i];
      var data := slot.data;
      if c < |controlledUpdates| {
        data := data.(controlledPlayerUpdates := controlledUpdates[c]);
        c := c + 1;
      }
      if slot.frameNumber >= othersStart {
        if k >= |serverUpdates| {
          framed.updates := framed.updates[i := Framed(slot.frameNumber, data)];
          MergedSlotsAreGeneralWritten(s0, start, othersStart, controlledUpdates, serverUpdates, framed.updates, i + 1);
          return;
        }
        data := ApplyServerUpdate(data, serverUpdates[k]);
        k := k + 1;
      }
      framed.updates := framed.updates[i := Framed(slot.frameNumber, data)];
      i := i + 1;
    }
    MergedSlotsAreGeneralWritten(s0, start, othersStart, controlledUpdates, serverUpdates, framed.updates, |s0|);
  }

  /** The slots the merge loop has written, the first `upto` of them from the first visited
      one on, make up `GeneralWritten` once every later slot lies past the server updates. */
  lemma MergedSlotsAreGeneralWritten(s0: seq<Framed<ReceivedServerWorldUpdate>>, start: nat, othersStart: nat,
                                     controlledUpdates: seq<ReceivedPlayerUpdate>, serverUpdates: seq<ServerWorldUpdate>,
                                     r: seq<Framed<ReceivedServerWorldUpdate>>, upto: nat)
    requires Consecutive(s0)
    requires FirstVisited(s0, start) <= upto <= |s0| == |r|
    requires forall p :: FirstVisited(s0, start) <= p < upto ==> s0[p].frameNumber <= othersStart + |serverUpdates|
    requires forall p :: upto <= p < |s0| ==> s0[p].frameNumber > othersStart + |serverUpdates|
    requires forall p :: 0 <= p < |s0| ==>
               r[p] == if FirstVisited(s0, start) <= p < upto
                       then MergedSlot(s0[p], p - FirstVisited(s0, start), othersStart, controlledUpdates, serverUpdates)
                       else s0[p]
    ensures r == GeneralWritten(s0, start, othersStart, controlledUpdates, serverUpdates)
    ensures Consecutive(r)
  {
    var w := GeneralWritten(s0, start, othersStart, controlledUpdates, serverUpdates);
    assert forall p :: 0 <= p < |s0| ==> r[p] == w[p];
    SameFramesConsecutive(s0, r);
  }

  /** `apply_world_updates` over a batch sorted by frame. The delayed first frame must
      still be inside the buffer's window; then the controlled players' actions are taken
      out of the batch and written from the delayed first frame on, the server updates
      from the first update's own frame on, and the spawn actions from that same frame on;
      the two watermarks are set to those two frames. */
  method ApplyWorldUpdates(controlled: seq<NetId>, framed: FramedUpdates<ReceivedServerWorldUpdate>,
                           spawn: FramedUpdates<SpawnActions>, incoming: seq<ServerWorldUpdate>)
    returns (outcome: Outcome)
    requires framed.Valid() && spawn.Valid()
    modifies framed, spawn
    ensures framed.Valid() && spawn.Valid()
    ensures outcome.Fail? <==>
              incoming != [] && (old(framed.updates) == [] || DelayedFrame(incoming[0].frameNumber) < old(framed.updates)[0].frameNumber)
    ensures outcome.Fail? ==>
              outcome.error == (if old(framed.updates) == [] then EmptyFramedUpdates
                                else TooOldServerUpdate(DelayedFrame(incoming[0].frameNumber), old(framed.updates)[0].frameNumber))
    ensures outcome.Fail? || incoming == [] ==>
              framed.updates == old(framed.updates) && framed.oldestUpdatedFrame == old(framed.oldestUpdatedFrame) &&
              spawn.updates == old(spawn.updates) && spawn.oldestUpdatedFrame == old(spawn.oldestUpdatedFrame)
    ensures outcome.Pass? && incoming != [] ==>
              var updates := Stripped(controlled, incoming);
              var first := incoming[0].frameNumber;
              && framed.oldestUpdatedFrame == DelayedFrame(first)
              && spawn.oldestUpdatedFrame == first
              && spawn.updates == SpawnWritten(old(spawn.updates), first, updates)
              && framed.updates == GeneralWritten(old(framed.updates), DelayedFrame(first), first, Collected(controlled, incoming), updates)
  {
    if incoming == [] {
      return Pass;
    }
    if framed.updates == [] {
      return Fail(EmptyFramedUpdates);
    }
    var firstIncomingFrameNumber := DelayedFrame(incoming[0].frameNumber);
    var firstAvailableFrameNumber := framed.updates[0].frameNumber;
    if firstIncomingFrameNumber < firstAvailableFrameNumber {
      return Fail(TooOldServerUpdate(firstIncomingFrameNumber, firstAvailableFrameNumber));
    }

    var controlledUpdates, updates := CollectControlledPlayerUpdates(controlled, incoming);
    StrippedKeepsFrames(controlled, incoming);
    var controlledStart, othersStart := DelayedFrame(updates[0].frameNumber), updates[0].frameNumber;

    spawn.oldestUpdatedFrame := othersStart;
    WriteSpawnActions(spawn, othersStart, updates);

    framed.oldestUpdatedFrame := controlledStart;
    MergeFrameUpdates(framed, controlledStart, othersStart, controlledUpdates, updates);
    outcome := Pass;
  }

  /** The controlled updates taken out of the batch are written by position: the k-th one
      lands k slots after the slot of the delayed first frame, whatever its own update's
      frame, provided that slot exists (the merge loop never stops before it). */
  lemma ControlledUpdatesAllLand(s: seq<Framed<ReceivedServerWorldUpdate>>, controlled: seq<NetId>,
                                 incoming: seq<ServerWorldUpdate>, p: nat)
    requires Consecutive(s) && incoming != [] && p < |s|
    requires s[0].frameNumber <= DelayedFrame(incoming[0].frameNumber) <= s[p].frameNumber
    requires s[p].frameNumber - DelayedFrame(incoming[0].frameNumber) < |Collected(controlled, incoming)|
    ensures var first := incoming[0].frameNumber;
            var r := GeneralWritten(s, DelayedFrame(first), first, Collected(controlled, incoming), Stripped(controlled, incoming));
            r[p].data.controlledPlayerUpdates == Collected(controlled, incoming)[s[p].frameNumber - DelayedFrame(first)]
  {
  }
}
