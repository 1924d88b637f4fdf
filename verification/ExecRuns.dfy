/** What every run of the exec ordering guarantees: serial handlers in wire order, a FIFO queue, progress. */
module ExecRuns {
  import opened Prelude
  import opened ExecOrder

  // ---- Handlers of one stream run one at a time, in wire order ----

  /** `log` tells exactly which handlers started and which stopped, each start before its stop. */
  ghost predicate LogInv(s: State) {
    && (forall i: nat :: Start(i) in s.log <==>
          i < |s.slots| && (s.slots[i].phase.Running? || s.slots[i].phase == Done(true)))
    && (forall i: nat :: Stop(i) in s.log <==> i < |s.slots| && s.slots[i].phase == Done(true))
    && (forall a: nat, c: nat :: a < |s.log| && c < |s.log| && s.log[a].Start? && s.log[c] == Stop(s.log[a].id) ==> a < c)
  }

  ghost predicate StoppedBetween(s: State, id: nat, a: nat, b: nat) {
    exists c: nat :: a < c < b && c < |s.log| && s.log[c] == Stop(id)
  }

  /** The handler that starts first is earlier on the wire, and it stops before the other starts. */
  ghost predicate Serial(s: State) {
    forall a: nat, b: nat :: a < b < |s.log| && s.log[a].Start? && s.log[b].Start? ==>
      && s.log[a].id < |s.slots| && s.log[b].id < |s.slots|
      && (s.slots[s.log[a].id].stream == s.slots[s.log[b].id].stream ==>
            s.log[a].id < s.log[b].id && StoppedBetween(s, s.log[a].id, a, b))
  }

  ghost predicate Good(s: State) {
    Inv(s) && LogInv(s) && Serial(s)
  }

  /** Slots keep their stream, new ones are appended, and the log does not change. */
  lemma QuietStepKeepsLog(s: State, t: State)
    requires LogInv(s) && Serial(s) && t.log == s.log && |s.slots| <= |t.slots|
    requires forall i: nat :: i < |s.slots| ==>
      && t.slots[i].stream == s.slots[i].stream
      && (t.slots[i].phase == s.slots[i].phase || !(Ran(s.slots[i]) || Ran(t.slots[i])))
    requires forall i: nat :: |s.slots| <= i < |t.slots| ==> !Ran(t.slots[i])
    ensures LogInv(t) && Serial(t)
  {
    forall a: nat, b: nat | a < b < |t.log| && t.log[a].Start? && t.log[b].Start?
      && t.slots[t.log[a].id].stream == t.slots[t.log[b].id].stream
      ensures StoppedBetween(t, t.log[a].id, a, b)
    {
      assert StoppedBetween(s, s.log[a].id, a, b);
      var c: nat :| a < c < b && s.log[c] == Stop(s.log[a].id);
      assert t.log[c] == Stop(t.log[a].id);
    }
  }

  predicate Ran(slot: Slot) {
    slot.phase.Running? || slot.phase == Done(true)
  }

  lemma RanIsEarlier(s: State, j: nat, i: nat)
    requires i < |s.slots| && j < |s.slots| && s.slots[j].stream == s.slots[i].stream
    requires Ran(s.slots[j]) && EarlierDone(s, j) && s.slots[i].phase.Passed? && EarlierDone(s, i)
    ensures j < i && s.slots[j].phase == Done(true)
  {
  }

  lemma StartedBeforeIsStopped(s: State, i: nat, a: nat)
    requires Inv(s) && LogInv(s) && Enabled(s, Check(i)) && !s.cancelled
    requires a < |s.log| && s.log[a].Start? && s.slots[s.log[a].id].stream == s.slots[i].stream
    ensures s.log[a].id < i && StoppedBetween(s, s.log[a].id, a, |s.log|)
  {
    var j := s.log[a].id;
    assert Start(j) in s.log;
    assert SlotInv(s, i) && SlotInv(s, j);
    RanIsEarlier(s, j, i);
    assert Stop(j) in s.log;
    var c: nat :| c < |s.log| && s.log[c] == Stop(j);
  }

  lemma StartKeepsLog(s: State, i: nat)
    requires Good(s) && Enabled(s, Check(i)) && !s.cancelled
    ensures LogInv(Apply(s, Check(i)))
  {
    var t := Apply(s, Check(i));
    assert forall e :: e in t.log <==> e in s.log || e == Start(i);
    assert Stop(i) !in s.log;
  }

  lemma StartKeepsSerial(s: State, i: nat)
    requires Good(s) && Enabled(s, Check(i)) && !s.cancelled
    ensures Serial(Apply(s, Check(i)))
  {
    var t := Apply(s, Check(i));
    var n := |s.log|;
    forall a: nat, b: nat | a < b < |t.log| && t.log[a].Start? && t.log[b].Start?
      ensures t.log[a].id < |t.slots| && t.log[b].id < |t.slots|
      ensures t.slots[t.log[a].id].stream == t.slots[t.log[b].id].stream ==>
        t.log[a].id < t.log[b].id && StoppedBetween(t, t.log[a].id, a, b)
    {
      assert t.log[a] == s.log[a] && Start(t.log[a].id) in s.log;
      if b == n {
        if t.slots[t.log[a].id].stream == t.slots[i].stream {
          StartedBeforeIsStopped(s, i, a);
          var c: nat :| a < c < n && s.log[c] == Stop(s.log[a].id);
          assert t.log[c] == Stop(t.log[a].id);
        }
      } else if s.slots[s.log[a].id].stream == s.slots[s.log[b].id].stream {
        var c: nat :| a < c < b && s.log[c] == Stop(s.log[a].id);
        assert t.log[c] == Stop(t.log[a].id);
      }
    }
  }

  lemma StopKeepsLog(s: State, i: nat)
    requires Good(s) && Enabled(s, Finish(i)) && s.slots[i].phase.Running?
    ensures LogInv(Apply(s, Finish(i)))
  {
    var t := Apply(s, Finish(i));
    assert forall e :: e in t.log <==> e in s.log || e == Stop(i);
  }

  lemma StopKeepsSerial(s: State, i: nat)
    requires Good(s) && Enabled(s, Finish(i)) && s.slots[i].phase.Running?
    ensures Serial(Apply(s, Finish(i)))
  {
    var t := Apply(s, Finish(i));
    forall a: nat, b: nat | a < b < |t.log| && t.log[a].Start? && t.log[b].Start?
      ensures t.log[a].id < |t.slots| && t.log[b].id < |t.slots|
      ensures t.slots[t.log[a].id].stream == t.slots[t.log[b].id].stream ==>
        t.log[a].id < t.log[b].id && StoppedBetween(t, t.log[a].id, a, b)
    {
      assert t.log[a] == s.log[a] && t.log[b] == s.log[b];
      if s.slots[s.log[a].id].stream == s.slots[s.log[b].id].stream {
        var c: nat :| a < c < b && s.log[c] == Stop(s.log[a].id);
        assert t.log[c] == Stop(t.log[a].id);
      }
    }
  }

  lemma StepKeepsGood(s: State, step: Step)
    requires Good(s) && Enabled(s, step)
    ensures Good(Apply(s, step))
  {
    StepKeepsInv(s, step);
    if step.Check? && !s.cancelled {
      StartKeepsLog(s, step.id);
      StartKeepsSerial(s, step.id);
    } else if step.Finish? && s.slots[step.id].phase.Running? {
      StopKeepsLog(s, step.id);
      StopKeepsSerial(s, step.id);
    } else {
      QuietStepKeepsLog(s, Apply(s, step));
    }
  }

  /** Every run, under any interleaving and with a cancellation anywhere in it, keeps handlers serial. */
  lemma {:induction false} RunIsSerial(s: State, steps: seq<Step>)
    requires Good(s) && IsRun(s, steps)
    ensures Good(After(s, steps))
    decreases |steps|
  {
    if steps != [] {
      StepKeepsGood(s, steps[0]);
      RunIsSerial(Apply(s, steps[0]), steps[1..]);
    }
  }

  /** When `wait` returns true, every earlier reservation of the stream has already finished. */
  lemma WaitTrueMeansEarlierFinished(steps: seq<Step>, i: nat)
    requires IsRun(INITIAL, steps)
    requires Enabled(After(INITIAL, steps), Check(i)) && !After(INITIAL, steps).cancelled
    ensures EarlierDone(After(INITIAL, steps), i)
  {
    RunKeepsInv(INITIAL, steps);
    assert SlotInv(After(INITIAL, steps), i);
  }

  /** At no point of any run do two handlers of one stream run at once. */
  lemma OneHandlerAtATime(steps: seq<Step>, i: nat, j: nat)
    requires IsRun(INITIAL, steps)
    requires i < |After(INITIAL, steps).slots| && j < |After(INITIAL, steps).slots|
    requires After(INITIAL, steps).slots[i].phase.Running? && After(INITIAL, steps).slots[j].phase.Running?
    requires After(INITIAL, steps).slots[i].stream == After(INITIAL, steps).slots[j].stream
    ensures i == j
  {
    RunKeepsInv(INITIAL, steps);
    assert SlotInv(After(INITIAL, steps), i) && SlotInv(After(INITIAL, steps), j);
  }

  // ---- The tail map ----

  ghost predicate Unfinished(s: State, i: nat) {
    i < |s.slots| && !s.slots[i].phase.Done?
  }

  ghost function UnfinishedIds(s: State): set<nat> {
    set i: nat | i < |s.slots| && !s.slots[i].phase.Done?
  }

  lemma {:induction false} InjectiveMapFits(m: map<string, nat>, ids: set<nat>)
    requires forall k :: k in m ==> m[k] in ids
    requires forall k, l :: k in m && l in m && m[k] == m[l] ==> k == l
    ensures |m| <= |ids|
    decreases |m|
  {
    if m != map[] {
      var k :| k in m;
      var rest := m - {k};
      InjectiveMapFits(rest, ids - {m[k]});
      assert m.Keys == rest.Keys + {k};
    }
  }

  /** The map never has more entries than unfinished reservations, and is empty once all have finished. */
  lemma TailsAreBounded(s: State)
    requires Inv(s)
    ensures |s.tails| <= |UnfinishedIds(s)|
    ensures UnfinishedIds(s) == {} ==> s.tails == map[]
  {
    InjectiveMapFits(s.tails, UnfinishedIds(s));
  }

  // ---- Progress ----

  /** The next step of a reservation's own goroutine, if it can move. */
  function OwnStep(s: State, i: nat): Option<Step>
    requires i < |s.slots|
  {
    match s.slots[i].phase
    case Waiting =>
      if GateOpen(s, i) then Some(Pass(i)) else if s.cancelled then Some(Abort(i)) else None
    case Passed => Some(Check(i))
    case Running => Some(Finish(i))
    case Skipped => Some(Finish(i))
    case Done(_) => None
  }

  /** Waiting is only ever on an earlier reservation of the same stream, so no cycle of waits can form. */
  lemma WaitsOnlyBackwards(s: State, i: nat)
    requires Inv(s) && i < |s.slots| && s.slots[i].phase.Waiting? && OwnStep(s, i).None?
    ensures s.slots[i].previous.Some? && s.slots[i].previous.value < i
    ensures s.slots[s.slots[i].previous.value].stream == s.slots[i].stream
    ensures Unfinished(s, s.slots[i].previous.value)
  {
    assert SlotInv(s, i);
  }

  /** The oldest unfinished reservation of every stream can move, whatever the other streams do. */
  lemma OldestCanMove(s: State, i: nat)
    requires Inv(s) && Unfinished(s, i) && EarlierDone(s, i)
    ensures OwnStep(s, i).Some? && Enabled(s, OwnStep(s, i).value)
  {
    assert SlotInv(s, i);
  }

  /** After a cancellation every unfinished reservation can move on its own. */
  lemma CancelFreesEveryone(s: State, i: nat)
    requires Inv(s) && Unfinished(s, i) && s.cancelled
    ensures OwnStep(s, i).Some? && Enabled(s, OwnStep(s, i).value)
  {
    assert SlotInv(s, i);
  }

  /** Whether a goroutine can move depends on its own stream and the context only. */
  lemma StreamsAreIndependent(s: State, t: State, i: nat)
    requires Inv(s) && |s.slots| == |t.slots| && s.cancelled == t.cancelled && i < |s.slots|
    requires forall j: nat :: j < |s.slots| && s.slots[j].stream == s.slots[i].stream ==> t.slots[j] == s.slots[j]
    ensures OwnStep(t, i) == OwnStep(s, i)
  {
    assert SlotInv(s, i);
  }

  function Work(phase: Phase): nat {
    match phase
    case Waiting => 3
    case Passed => 2
    case Running => 1
    case Skipped => 1
    case Done(_) => 0
  }

  function Remaining(slots: seq<Slot>): nat {
    if slots == [] then 0 else Remaining(slots[..|slots| - 1]) + Work(slots[|slots| - 1].phase)
  }

  lemma {:induction false} RemainingAfterMove(slots: seq<Slot>, i: nat, phase: Phase)
    requires i < |slots|
    ensures Remaining(slots[i := slots[i].(phase := phase)]) + Work(slots[i].phase) == Remaining(slots) + Work(phase)
    decreases |slots|
  {
    var n := |slots| - 1;
    var moved := slots[i := slots[i].(phase := phase)];
    if i == n {
      assert moved[..n] == slots[..n];
    } else {
      assert moved[..n] == slots[..n][i := slots[i].(phase := phase)];
      RemainingAfterMove(slots[..n], i, phase);
    }
  }

  /** Every step of a goroutine uses up work, so between reservations a run is bounded. */
  lemma OwnStepsUseUpWork(s: State, step: Step)
    requires Enabled(s, step) && !step.Reserve? && !step.Cancel?
    ensures Remaining(Apply(s, step).slots) < Remaining(s.slots)
  {
    RemainingAfterMove(s.slots, step.id, Apply(s, step).slots[step.id].phase);
  }

  lemma {:induction false} OldestUnfinished(s: State, i: nat) returns (o: nat)
    requires Unfinished(s, i)
    ensures o <= i && Unfinished(s, o) && s.slots[o].stream == s.slots[i].stream && EarlierDone(s, o)
    decreases i
  {
    if EarlierDone(s, i) {
      o := i;
    } else {
      var j: nat :| j < i && s.slots[j].stream == s.slots[i].stream && !s.slots[j].phase.Done?;
      o := OldestUnfinished(s, j);
    }
  }

  /** No deadlock: a state in which no goroutine can move has no unfinished reservation and no tail. */
  lemma StuckMeansQuiescent(s: State)
    requires Inv(s)
    requires forall i: nat :: i < |s.slots| ==> OwnStep(s, i).None?
    ensures UnfinishedIds(s) == {} && s.tails == map[]
  {
    if i: nat :| i in UnfinishedIds(s) {
      var o := OldestUnfinished(s, i);
      OldestCanMove(s, o);
    }
    TailsAreBounded(s);
  }

  // ---- Whole runs ----

  lemma InitialIsGood()
    ensures Good(INITIAL)
  {
  }

  /** Every run, with cancellation anywhere in it, executes the handlers of a stream one at a time in wire order. */
  lemma EveryRunIsSerial(steps: seq<Step>)
    requires IsRun(INITIAL, steps)
    ensures Serial(After(INITIAL, steps)) && LogInv(After(INITIAL, steps))
  {
    InitialIsGood();
    RunIsSerial(INITIAL, steps);
  }

  predicate AreOwn(steps: seq<Step>) {
    forall i :: 0 <= i < |steps| ==> !steps[i].Reserve? && !steps[i].Cancel?
  }

  /** However the goroutines are interleaved, they take a bounded number of steps between messages. */
  lemma {:induction false} OwnRunsEnd(s: State, steps: seq<Step>)
    requires IsRun(s, steps) && AreOwn(steps)
    ensures |steps| + Remaining(After(s, steps).slots) <= Remaining(s.slots)
    decreases |steps|
  {
    if steps != [] {
      OwnStepsUseUpWork(s, steps[0]);
      OwnRunsEnd(Apply(s, steps[0]), steps[1..]);
    }
  }
}
