/** The chain of done-channels refines one FIFO queue per stream. */
module ExecFifo {
  import opened ExecOrder

  /** An unfinished reservation as the queue sees it. */
  datatype Entry = Entry(id: nat, started: bool)

  /** What may happen to the queue of a stream. Only the head starts or completes; only a cancellation drops. */
  datatype Op = Stutter | Enqueue(id: nat) | StartHead | CompleteHead | Drop(at: nat)

  predicate Allowed(q: seq<Entry>, cancelled: bool, op: Op) {
    match op
    case Stutter => true
    case Enqueue(_) => true
    case StartHead => !cancelled && |q| > 0 && !q[0].started
    case CompleteHead => |q| > 0 && q[0].started
    case Drop(k) => cancelled && k < |q| && !q[k].started
  }

  function Perform(q: seq<Entry>, cancelled: bool, op: Op): seq<Entry>
    requires Allowed(q, cancelled, op)
  {
    match op
    case Stutter => q
    case Enqueue(id) => q + [Entry(id, false)]
    case StartHead => [q[0].(started := true)] + q[1..]
    case CompleteHead => q[1..]
    case Drop(k) => q[..k] + q[k + 1..]
  }

  /** The unfinished reservations of a stream among the slots `lo..hi`, in wire order. */
  function Range(slots: seq<Slot>, stream: string, lo: nat, hi: nat): seq<Entry>
    requires lo <= hi <= |slots|
    decreases hi - lo
  {
    if lo == hi then [] else
      Range(slots, stream, lo, hi - 1) +
      (var slot := slots[hi - 1];
       if slot.stream == stream && !slot.phase.Done? then [Entry(hi - 1, slot.phase.Running?)] else [])
  }

  function Queue(s: State, stream: string): seq<Entry> {
    Range(s.slots, stream, 0, |s.slots|)
  }

  lemma {:induction false} RangeSplits(slots: seq<Slot>, stream: string, lo: nat, mid: nat, hi: nat)
    requires lo <= mid <= hi <= |slots|
    ensures Range(slots, stream, lo, hi) == Range(slots, stream, lo, mid) + Range(slots, stream, mid, hi)
    decreases hi - mid
  {
    if mid < hi {
      RangeSplits(slots, stream, lo, mid, hi - 1);
    }
  }

  lemma {:induction false} RangeByView(slots: seq<Slot>, other: seq<Slot>, stream: string, lo: nat, hi: nat)
    requires lo <= hi <= |slots| && hi <= |other|
    requires forall j: nat :: lo <= j < hi ==> SameView(slots[j], other[j], stream)
    ensures Range(slots, stream, lo, hi) == Range(other, stream, lo, hi)
    decreases hi - lo
  {
    if lo < hi {
      RangeByView(slots, other, stream, lo, hi - 1);
      assert SameView(slots[hi - 1], other[hi - 1], stream);
    }
  }

  /** Two versions of a slot that the queue of `stream` cannot tell apart. */
  predicate SameView(a: Slot, b: Slot, stream: string) {
    && a.stream == b.stream
    && (a.stream == stream ==>
          a.phase.Done? == b.phase.Done? && a.phase.Running? == b.phase.Running?)
  }

  lemma {:induction false} FinishedRangeIsEmpty(slots: seq<Slot>, stream: string, hi: nat)
    requires hi <= |slots|
    requires forall j: nat :: j < hi && slots[j].stream == stream ==> slots[j].phase.Done?
    ensures Range(slots, stream, 0, hi) == []
    decreases hi
  {
    if hi > 0 {
      FinishedRangeIsEmpty(slots, stream, hi - 1);
    }
  }

  /** The queue around one slot. */
  lemma QueueAround(s: State, i: nat, stream: string)
    requires i < |s.slots|
    ensures Queue(s, stream) ==
      Range(s.slots, stream, 0, i) + Range(s.slots, stream, i, i + 1) + Range(s.slots, stream, i + 1, |s.slots|)
  {
    RangeSplits(s.slots, stream, 0, i, |s.slots|);
    RangeSplits(s.slots, stream, i, i + 1, |s.slots|);
  }

  /** Moving slot `i` changes the queue at that place only. */
  lemma QueueAfterMove(s: State, t: State, i: nat, stream: string)
    requires i < |s.slots| == |t.slots| && t.slots == Move(s, i, t.slots[i].phase).slots
    ensures Queue(t, stream) ==
      Range(s.slots, stream, 0, i) + Range(t.slots, stream, i, i + 1) + Range(s.slots, stream, i + 1, |s.slots|)
  {
    QueueAround(t, i, stream);
    RangeByView(s.slots, t.slots, stream, 0, i);
    RangeByView(s.slots, t.slots, stream, i + 1, |s.slots|);
  }

  lemma RangeOfOne(slots: seq<Slot>, stream: string, i: nat)
    requires i < |slots|
    ensures Range(slots, stream, i, i + 1) ==
      if slots[i].stream == stream && !slots[i].phase.Done? then [Entry(i, slots[i].phase.Running?)] else []
  {
    assert Range(slots, stream, i, i) == [];
  }

  lemma SilentMove(s: State, t: State, i: nat, stream: string)
    requires i < |s.slots| == |t.slots| && t.slots == Move(s, i, t.slots[i].phase).slots
    requires SameView(s.slots[i], t.slots[i], stream)
    ensures Queue(t, stream) == Queue(s, stream)
  {
    RangeByView(s.slots, t.slots, stream, 0, |s.slots|);
  }

  lemma ReserveEnqueues(s: State, stream: string, other: string)
    ensures Queue(Apply(s, Reserve(stream)), other) ==
      if stream == other then Queue(s, other) + [Entry(|s.slots|, false)] else Queue(s, other)
  {
    var t := Apply(s, Reserve(stream));
    var n := |s.slots|;
    RangeSplits(t.slots, other, 0, n, n + 1);
    RangeByView(s.slots, t.slots, other, 0, n);
    RangeOfOne(t.slots, other, n);
  }

  /** The queue of the stream when everything before `i` has finished. */
  lemma HeadOfQueue(s: State, i: nat)
    requires i < |s.slots| && !s.slots[i].phase.Done? && EarlierDone(s, i)
    ensures Queue(s, s.slots[i].stream) ==
      [Entry(i, s.slots[i].phase.Running?)] + Range(s.slots, s.slots[i].stream, i + 1, |s.slots|)
  {
    var stream := s.slots[i].stream;
    QueueAround(s, i, stream);
    FinishedRangeIsEmpty(s.slots, stream, i);
    RangeOfOne(s.slots, stream, i);
  }

  lemma StartIsStartHead(s: State, i: nat)
    requires Inv(s) && Enabled(s, Check(i)) && !s.cancelled
    ensures
      var stream := s.slots[i].stream;
      && Allowed(Queue(s, stream), s.cancelled, StartHead)
      && Queue(Apply(s, Check(i)), stream) == Perform(Queue(s, stream), s.cancelled, StartHead)
  {
    var t := Apply(s, Check(i));
    var stream := s.slots[i].stream;
    assert SlotInv(s, i);
    HeadOfQueue(s, i);
    QueueAfterMove(s, t, i, stream);
    FinishedRangeIsEmpty(s.slots, stream, i);
    RangeOfOne(t.slots, stream, i);
  }

  lemma FinishIsCompleteHead(s: State, i: nat)
    requires Inv(s) && Enabled(s, Finish(i)) && s.slots[i].phase.Running?
    ensures
      var stream := s.slots[i].stream;
      && Allowed(Queue(s, stream), s.cancelled, CompleteHead)
      && Queue(Apply(s, Finish(i)), stream) == Perform(Queue(s, stream), s.cancelled, CompleteHead)
  {
    var t := Apply(s, Finish(i));
    var stream := s.slots[i].stream;
    assert SlotInv(s, i);
    HeadOfQueue(s, i);
    QueueAfterMove(s, t, i, stream);
    FinishedRangeIsEmpty(s.slots, stream, i);
    RangeOfOne(t.slots, stream, i);
  }

  lemma DropAt(before: seq<Entry>, e: Entry, after: seq<Entry>)
    ensures
      var q := before + [e] + after;
      q[..|before|] + q[|before| + 1..] == before + after && q[|before|] == e
  {
  }

  lemma SkippedLeavesQueue(s: State, t: State, i: nat, stream: string)
    requires i < |s.slots| == |t.slots| && t.slots == Move(s, i, t.slots[i].phase).slots
    requires s.slots[i].stream == stream && s.slots[i].phase.Skipped? && t.slots[i].phase.Done?
    ensures
      var before, after := Range(s.slots, stream, 0, i), Range(s.slots, stream, i + 1, |s.slots|);
      Queue(s, stream) == before + [Entry(i, false)] + after && Queue(t, stream) == before + after
  {
    QueueAround(s, i, stream);
    RangeOfOne(s.slots, stream, i);
    QueueAfterMove(s, t, i, stream);
    RangeOfOne(t.slots, stream, i);
  }

  lemma FinishIsDrop(s: State, i: nat) returns (k: nat)
    requires Inv(s) && Enabled(s, Finish(i)) && s.slots[i].phase.Skipped?
    ensures
      var stream := s.slots[i].stream;
      && Allowed(Queue(s, stream), s.cancelled, Drop(k))
      && Queue(Apply(s, Finish(i)), stream) == Perform(Queue(s, stream), s.cancelled, Drop(k))
  {
    var stream := s.slots[i].stream;
    assert s.cancelled by { assert SlotInv(s, i); }
    var before, after := Range(s.slots, stream, 0, i), Range(s.slots, stream, i + 1, |s.slots|);
    k := |before|;
    SkippedLeavesQueue(s, Apply(s, Finish(i)), i, stream);
    DropAt(before, Entry(i, false), after);
  }

  /** Every step of the channel chain is, for every stream, one operation of that stream's FIFO queue. */
  lemma ChainRefinesFifo(s: State, step: Step, stream: string) returns (op: Op)
    requires Inv(s) && Enabled(s, step)
    ensures Allowed(Queue(s, stream), s.cancelled, op)
    ensures Queue(Apply(s, step), stream) == Perform(Queue(s, stream), s.cancelled, op)
    ensures op.Enqueue? <==> step == Reserve(stream)
  {
    var t := Apply(s, step);
    op := Stutter;
    match step
    case Reserve(other) =>
      ReserveEnqueues(s, other, stream);
      if other == stream { op := Enqueue(|s.slots|); }
    case Cancel => RangeByView(s.slots, t.slots, stream, 0, |s.slots|);
    case Pass(i) => SilentMove(s, t, i, stream);
    case Abort(i) => SilentMove(s, t, i, stream);
    case Check(i) =>
      if s.cancelled || s.slots[i].stream != stream {
        SilentMove(s, t, i, stream);
      } else {
        StartIsStartHead(s, i);
        op := StartHead;
      }
    case Finish(i) =>
      if s.slots[i].stream != stream {
        SilentMove(s, t, i, stream);
      } else if s.slots[i].phase.Running? {
        FinishIsCompleteHead(s, i);
        op := CompleteHead;
      } else {
        var k := FinishIsDrop(s, i);
        op := Drop(k);
      }
  }

  // ---- The tail map against the queue ----

  lemma {:induction false} RangeHolds(slots: seq<Slot>, stream: string, hi: nat, i: nat)
    requires i < hi <= |slots| && slots[i].stream == stream && !slots[i].phase.Done?
    ensures Range(slots, stream, 0, hi) != []
    decreases hi
  {
    if i < hi - 1 {
      RangeHolds(slots, stream, hi - 1, i);
    }
  }

  lemma {:induction false} NonemptyRangeHasLast(slots: seq<Slot>, stream: string, hi: nat) returns (i: nat)
    requires hi <= |slots| && Range(slots, stream, 0, hi) != []
    ensures i < hi && slots[i].stream == stream && !slots[i].phase.Done?
    ensures Range(slots, stream, 0, hi)[|Range(slots, stream, 0, hi)| - 1].id == i
    decreases hi
  {
    if slots[hi - 1].stream == stream && !slots[hi - 1].phase.Done? {
      i := hi - 1;
    } else {
      i := NonemptyRangeHasLast(slots, stream, hi - 1);
    }
  }

  /**
   * While nothing is cancelled the tail map is exactly the ends of the nonempty queues. After a
   * cancellation a stream may lose its tail early, but a tail is still the end of its queue.
   */
  lemma TailsAreQueueEnds(s: State, stream: string)
    requires Inv(s)
    ensures stream in s.tails ==> Queue(s, stream) != [] && Queue(s, stream)[|Queue(s, stream)| - 1].id == s.tails[stream]
    ensures !s.cancelled ==> (stream in s.tails <==> Queue(s, stream) != [])
  {
    if stream in s.tails {
      RangeHolds(s.slots, stream, |s.slots|, s.tails[stream]);
      var i := NonemptyRangeHasLast(s.slots, stream, |s.slots|);
      QueueEndIsLatest(s, stream, s.tails[stream]);
    } else if Queue(s, stream) != [] && !s.cancelled {
      var i := NonemptyRangeHasLast(s.slots, stream, |s.slots|);
      var last := LastOfStream(s, stream, |s.slots|);
      assert IsLast(s, last.value) && SlotInv(s, last.value);
    }
  }

  lemma QueueEndIsLatest(s: State, stream: string, i: nat)
    requires i < |s.slots| && s.slots[i].stream == stream && !s.slots[i].phase.Done? && IsLast(s, i)
    ensures Queue(s, stream) != [] && Queue(s, stream)[|Queue(s, stream)| - 1].id == i
  {
    QueueAround(s, i, stream);
    RangeOfOne(s.slots, stream, i);
    NothingAfterLast(s.slots, stream, i + 1, |s.slots|);
  }

  lemma {:induction false} NothingAfterLast(slots: seq<Slot>, stream: string, lo: nat, hi: nat)
    requires lo <= hi <= |slots| && forall j: nat :: lo <= j < hi ==> slots[j].stream != stream
    ensures Range(slots, stream, lo, hi) == []
    decreases hi - lo
  {
    if lo < hi {
      NothingAfterLast(slots, stream, lo, hi - 1);
    }
  }
}
