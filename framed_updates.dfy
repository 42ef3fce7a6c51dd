/** The frame buffer (gv_core's FramedUpdates<T>), specified at the interface the client
    network system uses: a window of slots with consecutive frame numbers, the
    "oldest updated frame" watermark, iteration from a start frame and growth at the back. */
module Framed {
  import opened NetTypes

  /** A slot: the frame it belongs to and its payload. */
  datatype Framed<T> = Framed(frameNumber: nat, data: T)

  /** Slot `i` belongs to frame `front + i`. */
  ghost predicate Consecutive<T>(s: seq<Framed<T>>) {
    forall i :: 0 <= i < |s| ==> s[i].frameNumber == s[0].frameNumber + i
  }

  /** Frame of the newest slot, 0 for an empty buffer (`back().map_or(0, ..)`). */
  function BackFrame<T>(s: seq<Framed<T>>): nat {
    if s == [] then 0 else s[|s| - 1].frameNumber
  }

  /** Index of the first slot that `updates_iter_mut(start)` visits: the visited slots
      are exactly those whose frame is at least `start`, in buffer order. */
  function FirstVisited<T>(s: seq<Framed<T>>, start: nat): (v: nat)
    requires Consecutive(s)
    ensures v <= |s|
    ensures forall i :: 0 <= i < |s| ==> (v <= i <==> s[i].frameNumber >= start)
  {
    if s == [] || start <= s[0].frameNumber then 0
    else if start - s[0].frameNumber < |s| then start - s[0].frameNumber
    else |s|
  }

  /** Same frames, slot by slot. */
  ghost predicate SameFrames<T, U>(a: seq<Framed<T>>, b: seq<Framed<U>>) {
    |a| == |b| && forall i :: 0 <= i < |a| ==> a[i].frameNumber == b[i].frameNumber
  }

  lemma SameFramesConsecutive<T, U>(a: seq<Framed<T>>, b: seq<Framed<U>>)
    requires SameFrames(a, b) && Consecutive(a)
    ensures Consecutive(b)
  {
  }

  /** The slots after `reserve_updates(frame)`: empty slots are appended one frame at a
      time until `frame` exists. (An empty buffer is assumed to start at `frame`.) */
  function Reserved<T>(s: seq<Framed<T>>, frame: nat, blank: T): (r: seq<Framed<T>>)
    requires Consecutive(s)
    ensures Consecutive(r) && r != [] && s <= r
    ensures BackFrame(r) == if s == [] then frame else Max(BackFrame(s), frame)
    ensures forall i :: |s| <= i < |r| ==> r[i].data == blank
    decreases if s == [] then 1 else if BackFrame(s) < frame then frame - BackFrame(s) + 1 else 0
  {
    if s == [] then [Framed(frame, blank)]
    else if BackFrame(s) >= frame then s
    else Reserved(s + [Framed(BackFrame(s) + 1, blank)], frame, blank)
  }

  /** One empty slot appended behind the back keeps the slots consecutive and the
      reservation's result unchanged. */
  lemma GrowByOne<T>(s: seq<Framed<T>>, frame: nat, blank: T)
    requires Consecutive(s) && s != [] && BackFrame(s) < frame
    ensures Consecutive(s + [Framed(BackFrame(s) + 1, blank)])
    ensures Reserved(s + [Framed(BackFrame(s) + 1, blank)], frame, blank) == Reserved(s, frame, blank)
  {
  }

  class FramedUpdates<T> {
    var updates: seq<Framed<T>>
    var oldestUpdatedFrame: nat

    ghost predicate Valid()
      reads this
    {
      Consecutive(updates)
    }

    /** A buffer holding one empty slot at frame `front`. */
    constructor (front: nat, blank: T)
      ensures Valid()
      ensures updates == [Framed(front, blank)] && oldestUpdatedFrame == front
    {
      updates := [Framed(front, blank)];
      oldestUpdatedFrame := front;
    }

    /** `reserve_updates(frame)`: extends the back with empty slots until `frame` exists.
        Existing slots and the watermark are untouched. */
    method ReserveUpdates(frame: nat, blank: T)
      requires Valid()
      modifies this
      ensures Valid()
      ensures updates == Reserved(old(updates), frame, blank)
      ensures oldestUpdatedFrame == old(oldestUpdatedFrame)
    {
      if updates == [] {
        updates := [Framed(frame, blank)];
        return;
      }
      var grown := updates;
      while BackFrame(grown) < frame
        invariant unchanged(this)
        invariant grown != [] && Consecutive(grown)
        invariant Reserved(grown, frame, blank) == Reserved(updates, frame, blank)
        decreases frame - BackFrame(grown)
      {
        GrowByOne(grown, frame, blank);
        grown := grown + [Framed(BackFrame(grown) + 1, blank)];
      }
      updates := grown;
    }
  }
}
