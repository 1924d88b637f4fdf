/**
 * Per-stream ordering of exec messages: the chain of done-channels as a step system. A slot is one
 * reservation made by the socket reader; its number is both its place on the wire and its done-channel.
 */
module ExecOrder {
  import opened Prelude

  /** Where the goroutine of a reservation stands. */
  datatype Phase =
    | Waiting             // in `wait`, before its predecessor's channel
    | Passed              // past the channel, before the context check
    | Running             // `wait` returned true; the handler runs
    | Skipped             // `wait` returned false
    | Done(ran: bool)     // `finish` returned: the channel is closed

  datatype Slot = Slot(stream: string, previous: Option<nat>, phase: Phase)

  datatype Event = Start(id: nat) | Stop(id: nat)

  /** `log` records when handlers start and stop. */
  datatype State = State(slots: seq<Slot>, tails: map<string, nat>, cancelled: bool, log: seq<Event>)

  const INITIAL: State := State([], map[], false, [])

  datatype Step =
    | Reserve(stream: string)
    | Pass(id: nat)       // the receive from the predecessor's channel succeeds, or there is none
    | Abort(id: nat)      // the context is done first
    | Check(id: nat)      // `return ctx.Err() == nil`
    | Finish(id: nat)
    | Cancel

  predicate Enabled(s: State, step: Step) {
    match step
    case Reserve(_) => true
    case Pass(i) => i < |s.slots| && s.slots[i].phase.Waiting? && GateOpen(s, i)
    case Abort(i) => i < |s.slots| && s.slots[i].phase.Waiting? && s.slots[i].previous.Some? && s.cancelled
    case Check(i) => i < |s.slots| && s.slots[i].phase.Passed?
    case Finish(i) => i < |s.slots| && (s.slots[i].phase.Running? || s.slots[i].phase.Skipped?)
    case Cancel => true
  }

  predicate GateOpen(s: State, i: nat)
    requires i < |s.slots|
  {
    match s.slots[i].previous
    case None => true
    case Some(p) => p < |s.slots| && s.slots[p].phase.Done?
  }

  function Move(s: State, i: nat, phase: Phase): State
    requires i < |s.slots|
  {
    s.(slots := s.slots[i := s.slots[i].(phase := phase)])
  }

  function Tail(s: State, stream: string): Option<nat> {
    if stream in s.tails then Some(s.tails[stream]) else None
  }

  function Apply(s: State, step: Step): State
    requires Enabled(s, step)
  {
    match step
    case Reserve(stream) =>
      s.(slots := s.slots + [Slot(stream, Tail(s, stream), Waiting)], tails := s.tails[stream := |s.slots|])
    case Pass(i) => Move(s, i, Passed)
    case Abort(i) => Move(s, i, Skipped)
    case Check(i) =>
      if s.cancelled then Move(s, i, Skipped) else Move(s, i, Running).(log := s.log + [Start(i)])
    case Finish(i) =>
      var ran := s.slots[i].phase.Running?;
      var stream := s.slots[i].stream;
      Move(s, i, Done(ran)).(
        tails := if Tail(s, stream) == Some(i) then s.tails - {stream} else s.tails,
        log := if ran then s.log + [Stop(i)] else s.log)
    case Cancel => s.(cancelled := true)
  }

  // ---- Runs ----

  predicate IsRun(s: State, steps: seq<Step>)
    decreases |steps|
  {
    steps == [] || (Enabled(s, steps[0]) && IsRun(Apply(s, steps[0]), steps[1..]))
  }

  function After(s: State, steps: seq<Step>): State
    requires IsRun(s, steps)
    decreases |steps|
  {
    if steps == [] then s else After(Apply(s, steps[0]), steps[1..])
  }

  // ---- The invariant ----

  ghost predicate EarlierDone(s: State, i: nat)
    requires i < |s.slots|
  {
    forall j: nat :: j < i && s.slots[j].stream == s.slots[i].stream ==> s.slots[j].phase.Done?
  }

  /** `i` is the most recent reservation of its stream. */
  ghost predicate IsLast(s: State, i: nat)
    requires i < |s.slots|
  {
    forall j: nat :: i < j < |s.slots| ==> s.slots[j].stream != s.slots[i].stream
  }

  ghost predicate SlotInv(s: State, i: nat)
    requires i < |s.slots|
  {
    var slot := s.slots[i];
    && (match slot.previous
        case None => s.cancelled || EarlierDone(s, i)
        case Some(p) => Precedes(s, p, i))
    && (slot.phase.Passed? || slot.phase.Done? ==> s.cancelled || EarlierDone(s, i))
    && (slot.phase.Running? || slot.phase == Done(true) ==> EarlierDone(s, i))
    && (slot.phase.Skipped? || slot.phase == Done(false) ==> s.cancelled)
  }

  /** `p` is the reservation just before `i` on the same stream. */
  ghost predicate Precedes(s: State, p: nat, i: nat)
    requires i < |s.slots|
  {
    && p < i
    && s.slots[p].stream == s.slots[i].stream
    && forall j: nat :: p < j < i ==> s.slots[j].stream != s.slots[i].stream
  }

  /** A stream has a tail exactly while its last reservation is unfinished, and the tail is that one. */
  ghost predicate TailsInv(s: State) {
    && (forall stream :: stream in s.tails ==>
          && s.tails[stream] < |s.slots|
          && s.slots[s.tails[stream]].stream == stream
          && IsLast(s, s.tails[stream])
          && !s.slots[s.tails[stream]].phase.Done?)
    && (forall i: nat :: i < |s.slots| && IsLast(s, i) && !s.slots[i].phase.Done? ==>
          Tail(s, s.slots[i].stream) == Some(i))
  }

  ghost predicate Inv(s: State) {
    && (forall i: nat :: i < |s.slots| ==> SlotInv(s, i))
    && TailsInv(s)
  }

  // ---- Preservation ----

  /** `t` continues `s` with the same reservations: channels stay closed and the context stays cancelled. */
  ghost predicate Continues(s: State, t: State) {
    && |s.slots| == |t.slots|
    && (s.cancelled ==> t.cancelled)
    && forall k: nat :: k < |s.slots| ==>
      && t.slots[k].stream == s.slots[k].stream
      && t.slots[k].previous == s.slots[k].previous
      && (s.slots[k].phase.Done? ==> t.slots[k].phase.Done?)
  }

  lemma LastContinues(s: State, t: State, i: nat)
    requires Continues(s, t) && i < |s.slots|
    ensures IsLast(s, i) <==> IsLast(t, i)
  {
    forall j: nat | i < j < |s.slots| ensures s.slots[j].stream == t.slots[j].stream {}
  }

  lemma EarlierDoneContinues(s: State, t: State, i: nat)
    requires Continues(s, t) && i < |s.slots| && EarlierDone(s, i)
    ensures EarlierDone(t, i)
  {
    forall j: nat | j < i && t.slots[j].stream == t.slots[i].stream ensures t.slots[j].phase.Done? {
      assert s.slots[j].stream == s.slots[i].stream;
    }
  }

  lemma PrecedesContinues(s: State, t: State, p: nat, i: nat)
    requires Continues(s, t) && i < |s.slots| && Precedes(s, p, i)
    ensures Precedes(t, p, i)
  {
    forall j: nat | p < j < i ensures t.slots[j].stream != t.slots[i].stream {
      assert s.slots[j].stream != s.slots[i].stream;
    }
  }

  /** A slot whose own phase does not change keeps its invariant. */
  lemma SlotContinues(s: State, t: State, i: nat)
    requires Continues(s, t) && i < |s.slots| && SlotInv(s, i) && t.slots[i].phase == s.slots[i].phase
    ensures SlotInv(t, i)
  {
    if EarlierDone(s, i) { EarlierDoneContinues(s, t, i); }
    if s.slots[i].previous.Some? { PrecedesContinues(s, t, s.slots[i].previous.value, i); }
  }

  lemma TailsContinue(s: State, t: State)
    requires Continues(s, t) && TailsInv(s) && t.tails == s.tails
    requires forall k: nat :: k < |s.slots| ==> t.slots[k].phase.Done? == s.slots[k].phase.Done?
    ensures TailsInv(t)
  {
    forall stream | stream in t.tails ensures IsLast(t, t.tails[stream]) {
      LastContinues(s, t, t.tails[stream]);
    }
    forall j: nat | j < |t.slots| && IsLast(t, j) && !t.slots[j].phase.Done?
      ensures Tail(t, t.slots[j].stream) == Some(j)
    {
      LastContinues(s, t, j);
    }
  }

  lemma ReserveKeepsSlots(s: State, stream: string)
    requires Inv(s)
    ensures forall i: nat :: i <= |s.slots| ==> SlotInv(Apply(s, Reserve(stream)), i)
  {
    var t := Apply(s, Reserve(stream));
    forall i: nat | i < |s.slots| ensures SlotInv(t, i) {
      assert SlotInv(s, i);
    }
    NewSlotIsSound(s, stream);
  }

  lemma ReserveKeepsTails(s: State, stream: string)
    requires TailsInv(s)
    ensures TailsInv(Apply(s, Reserve(stream)))
  {
    var n := |s.slots|;
    var t := Apply(s, Reserve(stream));
    forall st | st in t.tails && st != stream ensures IsLast(t, t.tails[st]) {
      assert IsLast(s, s.tails[st]);
    }
    forall i: nat | i < |t.slots| && IsLast(t, i) && !t.slots[i].phase.Done?
      ensures Tail(t, t.slots[i].stream) == Some(i)
    {
      if i < n {
        assert t.slots[n].stream == stream;
        assert IsLast(s, i) by {
          forall j: nat | i < j < n ensures s.slots[j].stream != s.slots[i].stream {
            assert t.slots[j].stream != t.slots[i].stream;
          }
        }
      }
    }
  }

  lemma {:induction false} LastOfStream(s: State, stream: string, bound: nat) returns (last: Option<nat>)
    requires bound <= |s.slots|
    ensures last.None? ==> forall j: nat :: j < bound ==> s.slots[j].stream != stream
    ensures last.Some? ==> last.value < bound && s.slots[last.value].stream == stream
    ensures last.Some? ==> forall j: nat :: last.value < j < bound ==> s.slots[j].stream != stream
    decreases bound
  {
    if bound == 0 {
      last := None;
    } else if s.slots[bound - 1].stream == stream {
      last := Some(bound - 1);
    } else {
      last := LastOfStream(s, stream, bound - 1);
    }
  }

  lemma NewSlotIsSound(s: State, stream: string)
    requires Inv(s)
    ensures SlotInv(Apply(s, Reserve(stream)), |s.slots|)
  {
    var t := Apply(s, Reserve(stream));
    var n := |s.slots|;
    if Tail(s, stream).None? && !s.cancelled {
      var last := LastOfStream(s, stream, n);
      if last.Some? {
        assert IsLast(s, last.value) && SlotInv(s, last.value);
        assert s.slots[last.value].phase.Done?;
        assert EarlierDone(s, last.value);
      }
      assert EarlierDone(t, n);
    }
  }

  /** Moving one slot to another unfinished phase. */
  lemma MoveKeepsInv(s: State, i: nat, t: State)
    requires Inv(s) && i < |s.slots| && !s.slots[i].phase.Done?
    requires |t.slots| == |s.slots| && t.slots == Move(s, i, t.slots[i].phase).slots && !t.slots[i].phase.Done?
    requires t.tails == s.tails && t.cancelled == s.cancelled
    requires SlotInv(t, i)
    ensures Inv(t)
  {
    forall j: nat | j < |t.slots| ensures SlotInv(t, j) {
      if j != i { SlotContinues(s, t, j); }
    }
    TailsContinue(s, t);
  }

  lemma DonePredecessor(s: State, p: nat, i: nat)
    requires i < |s.slots| && Precedes(s, p, i) && s.slots[p].phase.Done? && EarlierDone(s, p)
    ensures EarlierDone(s, i)
  {
    forall j: nat | j < i && s.slots[j].stream == s.slots[i].stream ensures s.slots[j].phase.Done? {
      if p < j { assert false; }
    }
  }

  /** When the gate is open and nothing was cancelled, everything earlier on the stream has finished. */
  lemma GateOpenMeansEarlierDone(s: State, i: nat)
    requires Inv(s) && i < |s.slots| && GateOpen(s, i) && !s.cancelled
    ensures EarlierDone(s, i)
  {
    assert SlotInv(s, i);
    if s.slots[i].previous.Some? {
      var p := s.slots[i].previous.value;
      assert SlotInv(s, p);
      DonePredecessor(s, p, i);
    }
  }

  lemma FinishKeepsSlots(s: State, i: nat)
    requires Inv(s) && Enabled(s, Finish(i))
    ensures forall j: nat :: j < |s.slots| ==> SlotInv(Apply(s, Finish(i)), j)
  {
    var t := Apply(s, Finish(i));
    forall j: nat | j < |s.slots| ensures SlotInv(t, j) {
      assert SlotInv(s, j);
      if j != i {
        SlotContinues(s, t, j);
      } else {
        if EarlierDone(s, i) { EarlierDoneContinues(s, t, i); }
        if s.slots[i].previous.Some? { PrecedesContinues(s, t, s.slots[i].previous.value, i); }
      }
    }
  }

  lemma FinishKeepsTails(s: State, i: nat)
    requires Inv(s) && Enabled(s, Finish(i))
    ensures TailsInv(Apply(s, Finish(i)))
  {
    var t := Apply(s, Finish(i));
    forall stream | stream in t.tails
      ensures t.tails[stream] != i && IsLast(t, t.tails[stream])
    {
      LastContinues(s, t, s.tails[stream]);
    }
    forall j: nat | j < |t.slots| && IsLast(t, j) && !t.slots[j].phase.Done?
      ensures Tail(t, t.slots[j].stream) == Some(j)
    {
      LastContinues(s, t, j);
      assert Tail(s, s.slots[j].stream) == Some(j);
    }
  }

  lemma PassIsSound(s: State, i: nat)
    requires Inv(s) && Enabled(s, Pass(i))
    ensures SlotInv(Apply(s, Pass(i)), i)
  {
    var t := Apply(s, Pass(i));
    assert SlotInv(s, i);
    if !s.cancelled { GateOpenMeansEarlierDone(s, i); }
    if EarlierDone(s, i) { EarlierDoneContinues(s, t, i); }
    if s.slots[i].previous.Some? { PrecedesContinues(s, t, s.slots[i].previous.value, i); }
  }

  lemma ReturnIsSound(s: State, step: Step)
    requires Inv(s) && Enabled(s, step) && (step.Abort? || step.Check?)
    ensures SlotInv(Apply(s, step), step.id)
  {
    var t := Apply(s, step);
    var i := step.id;
    assert SlotInv(s, i);
    if EarlierDone(s, i) { EarlierDoneContinues(s, t, i); }
    if s.slots[i].previous.Some? { PrecedesContinues(s, t, s.slots[i].previous.value, i); }
  }

  lemma CancelKeepsInv(s: State)
    requires Inv(s)
    ensures Inv(Apply(s, Cancel))
  {
    var t := Apply(s, Cancel);
    forall i: nat | i < |t.slots| ensures SlotInv(t, i) { SlotContinues(s, t, i); }
    TailsContinue(s, t);
  }

  lemma StepKeepsInv(s: State, step: Step)
    requires Inv(s) && Enabled(s, step)
    ensures Inv(Apply(s, step))
  {
    match step
    case Reserve(stream) => ReserveKeepsSlots(s, stream); ReserveKeepsTails(s, stream);
    case Pass(i) => PassIsSound(s, i); MoveKeepsInv(s, i, Apply(s, step));
    case Abort(i) => ReturnIsSound(s, step); MoveKeepsInv(s, i, Apply(s, step));
    case Check(i) => ReturnIsSound(s, step); MoveKeepsInv(s, i, Apply(s, step));
    case Finish(i) => FinishKeepsSlots(s, i); FinishKeepsTails(s, i);
    case Cancel => CancelKeepsInv(s);
  }

  /** The invariant holds after every run, whatever the interleaving and wherever the cancellation falls. */
  lemma {:induction false} RunKeepsInv(s: State, steps: seq<Step>)
    requires Inv(s) && IsRun(s, steps)
    ensures Inv(After(s, steps))
    decreases |steps|
  {
    if steps != [] {
      StepKeepsInv(s, steps[0]);
      RunKeepsInv(Apply(s, steps[0]), steps[1..]);
    }
  }

  /** `steps` is a run from the start that ends in `s`. */
  ghost predicate ReachedBy(steps: seq<Step>, s: State) {
    IsRun(INITIAL, steps) && After(INITIAL, steps) == s
  }

  lemma {:induction false} RunExtends(s: State, steps: seq<Step>, next: Step)
    requires IsRun(s, steps) && Enabled(After(s, steps), next)
    ensures IsRun(s, steps + [next]) && After(s, steps + [next]) == Apply(After(s, steps), next)
    decreases |steps|
  {
    var longer := steps + [next];
    if steps == [] {
      assert longer[1..] == [];
    } else {
      assert longer[0] == steps[0] && longer[1..] == steps[1..] + [next];
      RunExtends(Apply(s, steps[0]), steps[1..], next);
    }
  }
}
