/** The exec ordering seen from the wire: which messages are chained, and when their handlers run. */
module ExecWire {
  import opened Prelude
  import opened ExecOrder
  import opened ExecRuns
  import opened ExecDispatch

  datatype Message = Message(kind: Kind, stream: string)

  /** The streams of the chained messages, in wire order: what the socket reader reserves. */
  function Streams(wire: seq<Message>): seq<string> {
    if wire == [] then []
    else
      var last := wire[|wire| - 1];
      Streams(wire[..|wire| - 1]) + if Chained(last.kind) then [last.stream] else []
  }

  /** The reservation of message `k`. */
  function SlotOf(wire: seq<Message>, k: nat): nat
    requires k <= |wire|
  {
    |Streams(wire[..k])|
  }

  /** The streams a run reserves, in order. */
  function Reservations(steps: seq<Step>): seq<string> {
    if steps == [] then []
    else
      var last := steps[|steps| - 1];
      Reservations(steps[..|steps| - 1]) + if last.Reserve? then [last.stream] else []
  }

  /** A run of the machine that handles this wire, with its goroutines and any cancellation interleaved. */
  ghost predicate Handles(steps: seq<Step>, wire: seq<Message>) {
    IsRun(INITIAL, steps) && Reservations(steps) == Streams(wire)
  }

  // ---- Messages and slots ----

  lemma {:induction false} StreamsGrow(wire: seq<Message>, k: nat)
    requires k <= |wire|
    ensures Streams(wire[..k]) <= Streams(wire)
    decreases |wire|
  {
    if k < |wire| {
      assert wire[..|wire| - 1][..k] == wire[..k];
      StreamsGrow(wire[..|wire| - 1], k);
    } else {
      assert wire[..k] == wire;
    }
  }

  /** START, INPUT and RESIZE have a slot of their stream, and a later one has a later slot. */
  lemma ChainedHasSlot(wire: seq<Message>, k: nat)
    requires k < |wire| && (wire[k].kind == ExecStart || wire[k].kind == ExecInput || wire[k].kind == ExecResize)
    ensures SlotOf(wire, k) < |Streams(wire)| && Streams(wire)[SlotOf(wire, k)] == wire[k].stream
    ensures SlotOf(wire, k + 1) == SlotOf(wire, k) + 1
  {
    assert wire[..k + 1][..k] == wire[..k];
    StreamsGrow(wire, k + 1);
    assert Streams(wire[..k + 1]) == Streams(wire[..k]) + [wire[k].stream];
  }

  /** EXEC_END, heartbeats and other kinds take no slot. */
  lemma OthersTakeNoSlot(wire: seq<Message>, k: nat)
    requires k < |wire| && (wire[k].kind == ExecEnd || wire[k].kind == Heartbeat || wire[k].kind == OtherMessage)
    ensures SlotOf(wire, k + 1) == SlotOf(wire, k)
  {
    assert wire[..k + 1][..k] == wire[..k];
  }

  lemma LaterSlot(wire: seq<Message>, k: nat, l: nat)
    requires k < l <= |wire| && (wire[k].kind == ExecStart || wire[k].kind == ExecInput || wire[k].kind == ExecResize)
    ensures SlotOf(wire, k) < SlotOf(wire, l)
  {
    ChainedHasSlot(wire, k);
    StreamsGrow(wire[..l], k + 1);
    assert wire[..l][..k + 1] == wire[..k + 1];
  }

  lemma {:induction false} LastStep(s: State, steps: seq<Step>)
    requires IsRun(s, steps) && steps != []
    ensures
      var front := steps[..|steps| - 1];
      && IsRun(s, front) && Enabled(After(s, front), steps[|steps| - 1])
      && After(s, steps) == Apply(After(s, front), steps[|steps| - 1])
    decreases |steps|
  {
    if |steps| > 1 {
      LastStep(Apply(s, steps[0]), steps[1..]);
      assert steps[1..][..|steps| - 2] == steps[..|steps| - 1][1..];
    } else {
      assert steps[1..] == [];
    }
  }

  lemma {:induction false} SlotsAreReservations(steps: seq<Step>)
    requires IsRun(INITIAL, steps)
    ensures |After(INITIAL, steps).slots| == |Reservations(steps)|
    ensures forall i :: 0 <= i < |Reservations(steps)| ==> After(INITIAL, steps).slots[i].stream == Reservations(steps)[i]
  {
    if steps != [] {
      LastStep(INITIAL, steps);
      SlotsAreReservations(steps[..|steps| - 1]);
    }
  }

  // ---- A handler starts only after every earlier one ran ----

  /** Whoever started found every earlier reservation of its stream run to the end. */
  ghost predicate EarlierRan(s: State) {
    forall i: nat, j: nat :: Ran(s, i) && Earlier(s, j, i) ==> s.slots[j].phase == Done(true)
  }

  predicate Ran(s: State, i: nat) {
    i < |s.slots| && (s.slots[i].phase.Running? || s.slots[i].phase == Done(true))
  }

  predicate Earlier(s: State, j: nat, i: nat) {
    j < i < |s.slots| && s.slots[j].stream == s.slots[i].stream
  }

  lemma StepKeepsEarlierRan(s: State, step: Step)
    requires Inv(s) && EarlierRan(s) && Enabled(s, step)
    ensures EarlierRan(Apply(s, step))
  {
    var t := Apply(s, step);
    forall i: nat, j: nat | Ran(t, i) && Earlier(t, j, i) ensures t.slots[j].phase == Done(true) {
      if i < |s.slots| {
        assert Earlier(s, j, i);
        if step == Check(i) {
          assert SlotInv(s, i) && SlotInv(s, j);
        } else {
          assert Ran(s, i);
        }
      }
    }
  }

  lemma {:induction false} RunKeepsEarlierRan(steps: seq<Step>)
    requires IsRun(INITIAL, steps)
    ensures EarlierRan(After(INITIAL, steps))
  {
    if steps != [] {
      LastStep(INITIAL, steps);
      RunKeepsEarlierRan(steps[..|steps| - 1]);
      RunKeepsInv(INITIAL, steps[..|steps| - 1]);
      StepKeepsEarlierRan(After(INITIAL, steps[..|steps| - 1]), steps[|steps| - 1]);
    }
  }

  lemma StartedAfterStopped(steps: seq<Step>, a: nat, b: nat, y: nat)
    requires IsRun(INITIAL, steps)
    requires
      var s := After(INITIAL, steps);
      && a < b < |s.slots| && s.slots[a].stream == s.slots[b].stream && y < |s.log| && s.log[y] == Start(b)
    ensures exists x :: 0 <= x < y && After(INITIAL, steps).log[x] == Stop(a)
  {
    var s := After(INITIAL, steps);
    EveryRunIsSerial(steps);
    RunKeepsEarlierRan(steps);
    assert Start(b) in s.log;
    assert Ran(s, b) && Earlier(s, a, b);
    assert Start(a) in s.log;
    var x: nat :| x < |s.log| && s.log[x] == Start(a);
    assert x < y;
    assert StoppedBetween(s, s.log[x].id, x, y);
  }

  /**
   * In every run over a wire, with cancellation anywhere: of two START, INPUT or RESIZE messages on one stream, the
   * later handler starts only after the earlier one ran and stopped.
   */
  lemma WireOrder(wire: seq<Message>, steps: seq<Step>, k: nat, l: nat, y: nat)
    requires Handles(steps, wire) && k < l < |wire| && wire[k].stream == wire[l].stream
    requires wire[k].kind == ExecStart || wire[k].kind == ExecInput || wire[k].kind == ExecResize
    requires wire[l].kind == ExecStart || wire[l].kind == ExecInput || wire[l].kind == ExecResize
    requires y < |After(INITIAL, steps).log| && After(INITIAL, steps).log[y] == Start(SlotOf(wire, l))
    ensures exists x :: 0 <= x < y && After(INITIAL, steps).log[x] == Stop(SlotOf(wire, k))
  {
    ChainedHasSlot(wire, k);
    ChainedHasSlot(wire, l);
    LaterSlot(wire, k, l);
    SlotsAreReservations(steps);
    StartedAfterStopped(steps, SlotOf(wire, k), SlotOf(wire, l), y);
  }

  // ---- Every message is handled ----

  lemma {:induction false} UncancelledRun(steps: seq<Step>)
    requires IsRun(INITIAL, steps) && Cancel !in steps
    ensures !After(INITIAL, steps).cancelled
  {
    if steps != [] {
      LastStep(INITIAL, steps);
      UncancelledRun(steps[..|steps| - 1]);
    }
  }

  /** In every run over a wire without cancellation, once no goroutine can move, every chained message has been handled. */
  lemma EveryMessageIsHandled(wire: seq<Message>, steps: seq<Step>, k: nat)
    requires Handles(steps, wire) && Cancel !in steps && k < |wire|
    requires wire[k].kind == ExecStart || wire[k].kind == ExecInput || wire[k].kind == ExecResize
    requires forall i: nat :: i < |After(INITIAL, steps).slots| ==> OwnStep(After(INITIAL, steps), i).None?
    ensures Start(SlotOf(wire, k)) in After(INITIAL, steps).log && Stop(SlotOf(wire, k)) in After(INITIAL, steps).log
  {
    var s, i := After(INITIAL, steps), SlotOf(wire, k);
    ChainedHasSlot(wire, k);
    SlotsAreReservations(steps);
    UncancelledRun(steps);
    RunKeepsInv(INITIAL, steps);
    EveryRunIsSerial(steps);
    StuckMeansQuiescent(s);
    assert i !in UnfinishedIds(s);
    assert SlotInv(s, i);
  }
}
