/** Left alone, handlers, writer and teardown come to rest, and at rest every owner has been released exactly once. */
module DecommissionProgress {
  import opened Prelude
  import opened Decommission
  import opened DecommissionRuns

  // ---- A measure that every internal step uses up ----

  function PcWork(pc: Pc): nat {
    match pc
    case Handling => 8
    case Replying => 7
    case ClosingEarly => 6
    case Registering => 6
    case Registered => 5
    case Sent => 4
    case Failed => 3
    case Dropping => 2
    case Leaving => 1
    case Gone => 0
  }

  function HandlerWork(owners: seq<Owner>): nat {
    if owners == [] then 0 else HandlerWork(owners[..|owners| - 1]) + PcWork(owners[|owners| - 1].pc)
  }

  function WriterWork(w: Writer): nat {
    match w
    case Writing(_) => 6
    case Wrote(_) => 5
    case WriteFailed(_) => 5
    case Holding(_) => 4
    case Cleaning(_) => 3
    case Closing(_) => 2
    case Discarding(_) => 2
    case Idle => 1
    case Exited => 0
  }

  function TeardownWork(t: Teardown): nat {
    match t
    case Live => 3
    case Joined => 2
    case Draining(owners) => 1 + |owners|
    case Between => 0
  }

  /** A queued ACK still costs the writer a round, and a handler step may queue one or enter one in the map. */
  function Work(s: State): nat {
    10 * HandlerWork(s.owners) + 6 * |s.queue| + WriterWork(s.writer) + TeardownWork(s.teardown) + |s.replies|
  }

  lemma {:induction false} HandlerWorkAfterMove(owners: seq<Owner>, i: nat, o: Owner)
    requires i < |owners|
    ensures HandlerWork(owners[i := o]) + PcWork(owners[i].pc) == HandlerWork(owners) + PcWork(o.pc)
    decreases |owners|
  {
    var n := |owners| - 1;
    if i == n {
      assert owners[i := o][..n] == owners[..n];
    } else {
      assert owners[i := o][..n] == owners[..n][i := o];
      HandlerWorkAfterMove(owners[..n], i, o);
    }
  }

  lemma HandlerStepMoves(s: State, step: Step)
    requires Enabled(s, step) && IsHandlerStep(step)
    ensures step.id < |s.owners| && Apply(s, step).owners == s.owners[step.id := Apply(s, step).owners[step.id]]
    ensures PcWork(Apply(s, step).owners[step.id].pc) < PcWork(s.owners[step.id].pc)
    ensures Apply(s, step).writer == s.writer && Apply(s, step).teardown == s.teardown
    ensures Apply(s, step).queue <= s.queue + {step.id} && Apply(s, step).replies <= s.replies + {step.id}
    ensures Apply(s, step).queue == s.queue || Apply(s, step).replies == s.replies
  {
  }

  lemma SizeAfterAdding(a: set<nat>, b: set<nat>, x: nat)
    requires a <= b + {x}
    ensures |a| <= |b| + 1
  {
    assert a - {x} <= b;
    SubsetIsNotLarger(a - {x}, b);
  }

  lemma HandlerStepUsesWork(s: State, step: Step)
    requires Enabled(s, step) && IsHandlerStep(step)
    ensures Work(Apply(s, step)) < Work(s)
  {
    var t := Apply(s, step);
    HandlerStepMoves(s, step);
    HandlerWorkAfterMove(s.owners, step.id, t.owners[step.id]);
    SizeAfterAdding(t.queue, s.queue, step.id);
    SizeAfterAdding(t.replies, s.replies, step.id);
  }

  lemma WriterStepMoves(s: State, step: Step)
    requires Enabled(s, step) && IsWriterStep(step) && !step.Dequeue? && s.writer.id < |s.owners|
    ensures
      var t := Apply(s, step);
      && t.queue == s.queue && t.teardown == s.teardown && t.replies <= s.replies
      && |t.owners| == |s.owners| && t.owners == s.owners[s.writer.id := t.owners[s.writer.id]]
      && t.owners[s.writer.id].pc == s.owners[s.writer.id].pc && WriterWork(t.writer) < WriterWork(s.writer)
  {
  }

  lemma WriterStepUsesWork(s: State, step: Step)
    requires Inv(s) && Enabled(s, step) && IsWriterStep(step)
    ensures Work(Apply(s, step)) < Work(s)
  {
    var t := Apply(s, step);
    if step.Dequeue? {
      assert |t.queue| == |s.queue| - 1;
    } else {
      WriterStepMoves(s, step);
      HandlerWorkAfterMove(s.owners, s.writer.id, t.owners[s.writer.id]);
      SubsetIsNotLarger(t.replies, s.replies);
    }
  }

  lemma TeardownStepUsesWork(s: State, step: Step)
    requires Enabled(s, step) && (step.WriterExit? || step.Join? || step.Drain? || step.DrainClose? || step.DrainDone?)
    ensures Work(Apply(s, step)) < Work(s)
  {
    var t := Apply(s, step);
    if step.DrainClose? {
      HandlerWorkAfterMove(s.owners, step.id, t.owners[step.id]);
      assert |t.teardown.owners| == |s.teardown.owners| - 1;
    }
  }

  lemma InternalStepUsesWork(s: State, step: Step)
    requires Inv(s) && Enabled(s, step) && Internal(step)
    ensures Work(Apply(s, step)) < Work(s)
  {
    if IsHandlerStep(step) {
      HandlerStepUsesWork(s, step);
    } else if IsWriterStep(step) {
      WriterStepUsesWork(s, step);
    } else {
      TeardownStepUsesWork(s, step);
    }
  }

  // ---- Whole runs ----

  predicate AllInternal(steps: seq<Step>) {
    forall i :: 0 <= i < |steps| ==> Internal(steps[i])
  }

  /** However the three actors are interleaved, they take a bounded number of steps between outside events. */
  lemma {:induction false} InternalRunsEnd(s: State, steps: seq<Step>)
    requires Good(s) && IsRun(s, steps) && AllInternal(steps)
    ensures |steps| + Work(After(s, steps)) <= Work(s)
    decreases |steps|
  {
    if steps != [] {
      assert Internal(steps[0]);
      InternalStepUsesWork(s, steps[0]);
      StepKeepsGood(s, steps[0]);
      InternalRunsEnd(Apply(s, steps[0]), steps[1..]);
    }
  }

  lemma InitialIsGood()
    ensures Good(INITIAL)
  {
  }

  /** In every run: the log is well ordered, and no owner is released twice. */
  lemma EveryRunIsSafe(steps: seq<Step>, i: nat)
    requires IsRun(INITIAL, steps) && i < |After(INITIAL, steps).owners|
    ensures WellOrdered(After(INITIAL, steps).log)
    ensures After(INITIAL, steps).owners[i].token.releases <= 1
  {
    InitialIsGood();
    RunIsGood(INITIAL, steps);
    NeverReleasedTwice(After(INITIAL, steps), i);
  }

  /** In every run that has come to rest: every admitted owner was released exactly once, and the map is empty. */
  lemma EveryRunAtRestReleasedOnce(steps: seq<Step>)
    requires IsRun(INITIAL, steps) && Stuck(After(INITIAL, steps))
    ensures
      var s := After(INITIAL, steps);
      && Quiescent(s) && s.replies == {}
      && forall i: nat :: i < |s.owners| ==>
           s.owners[i].token.once && s.owners[i].token.releases == if s.owners[i].token.admitted then 1 else 0
  {
    InitialIsGood();
    RunIsGood(INITIAL, steps);
    StuckMeansQuiescent(After(INITIAL, steps));
    QuiescentMeansReleasedOnce(After(INITIAL, steps));
  }

  lemma QuietMeansCleaned(s: State, i: nat)
    requires Good(s) && Quiescent(s) && i < |s.owners| && s.owners[i].acked && !Cancelled(s, i)
    ensures Begin(i) in s.log && End(i) in s.log
  {
    AckLeadsToCleanup(s, i);
    assert ViewInv(ViewOf(s, i));
  }

  /** In every run that has come to rest: a written ACK whose connection was never cancelled led to a finished cleanup. */
  lemma EveryAckAtRestWasCleanedUp(steps: seq<Step>, i: nat)
    requires IsRun(INITIAL, steps) && Stuck(After(INITIAL, steps))
    requires i < |After(INITIAL, steps).owners| && !Cancelled(After(INITIAL, steps), i)
    requires Ack(i) in After(INITIAL, steps).log
    ensures Begin(i) in After(INITIAL, steps).log && End(i) in After(INITIAL, steps).log
  {
    InitialIsGood();
    RunIsGood(INITIAL, steps);
    StuckMeansQuiescent(After(INITIAL, steps));
    QuietMeansCleaned(After(INITIAL, steps), i);
  }
}
