/** What every run of the decommission protocol guarantees. */
module DecommissionRuns {
  import opened Prelude
  import opened Decommission

  // ---- Runs ----

  predicate IsRun(s: State, steps: seq<Step>)
    decreases |steps|
  {
    steps == [] || (Enabled(s, steps[0]) && IsRun(Apply(s, steps[0]), steps[1..]))
  }

  function After(s: State, steps: seq<Step>): State
    requires IsRun(s, steps)
    decreases |steps|
  {
    if steps == [] then s else After(Apply(s, steps[0]), steps[1..])
  }

  // ---- The log ----

  ghost predicate ReachedBy(steps: seq<Step>, s: State) {
    IsRun(INITIAL, steps) && After(INITIAL, steps) == s
  }

  lemma {:induction false} RunExtends(s: State, steps: seq<Step>, step: Step)
    requires IsRun(s, steps) && Enabled(After(s, steps), step)
    ensures IsRun(s, steps + [step]) && After(s, steps + [step]) == Apply(After(s, steps), step)
    decreases |steps|
  {
    if steps == [] {
      assert ([] + [step])[1..] == [];
    } else {
      assert (steps + [step])[1..] == steps[1..] + [step];
      RunExtends(Apply(s, steps[0]), steps[1..], step);
    }
  }

  /** The log tells exactly which ACKs were written, which cleanups began and ended, and which owners were released. */
  ghost predicate LogInv(s: State) {
    forall i: nat ::
      && (Ack(i) in s.log <==> i < |s.owners| && s.owners[i].acked)
      && (Begin(i) in s.log <==> i < |s.owners| && !s.owners[i].cleanup.NotBegun?)
      && (End(i) in s.log <==> i < |s.owners| && s.owners[i].cleanup.Ended?)
      && (Release(i) in s.log <==> i < |s.owners| && s.owners[i].token.once && s.owners[i].token.admitted)
  }

  /** `e` may follow this log. */
  predicate MayFollow(log: seq<Event>, e: Event) {
    match e
    case Ack(i) => true
    case Begin(i) => Ack(i) in log && Begin(i) !in log && Release(i) !in log
    case End(i) => Begin(i) in log && Release(i) !in log
    case Release(i) => Release(i) !in log && (Begin(i) in log ==> End(i) in log)
  }

  /**
   * Each event may follow what came before it: a cleanup begins at most once, after its ACK was written and
   * before its owner is released; the owner is released at most once and never during its cleanup.
   */
  ghost predicate WellOrdered(log: seq<Event>) {
    forall b: nat :: b < |log| ==> MayFollow(log[..b], log[b])
  }

  lemma WellOrderedExtends(log: seq<Event>, e: Event)
    requires WellOrdered(log) && MayFollow(log, e)
    ensures WellOrdered(log + [e])
  {
    var longer := log + [e];
    forall b: nat | b < |longer| ensures MayFollow(longer[..b], longer[b]) {
      if b < |log| {
        assert longer[..b] == log[..b] && longer[b] == log[b];
      } else {
        assert longer[..b] == log;
      }
    }
  }

  /** The event a step appends, if any. */
  function EventOf(s: State, step: Step): Option<Event>
    requires Enabled(s, step)
  {
    match step
    case WriteOk => Some(Ack(s.writer.id))
    case StartCheck => if Cancelled(s, s.writer.id) then None else Some(Begin(s.writer.id))
    case EndCleanup => Some(End(s.writer.id))
    case WriterClose => ReleaseOf(s, s.writer.id)
    case DiscardClose => ReleaseOf(s, s.writer.id)
    case CloseEarly(i) => ReleaseOf(s, i)
    case DropClose(i) => ReleaseOf(s, i)
    case DrainClose(i) => ReleaseOf(s, i)
    case Leave(i) => if s.owners[i].token.queued then None else ReleaseOf(s, i)
    case _ => None
  }

  function ReleaseOf(s: State, i: nat): Option<Event>
    requires i < |s.owners|
  {
    if !s.owners[i].token.once && s.owners[i].token.admitted then Some(Release(i)) else None
  }

  lemma LogGrowsByEvent(s: State, step: Step)
    requires Enabled(s, step)
    ensures Apply(s, step).log == if EventOf(s, step).Some? then s.log + [EventOf(s, step).value] else s.log
  {
  }

  lemma EventMayFollow(s: State, step: Step)
    requires Inv(s) && LogInv(s) && Enabled(s, step) && EventOf(s, step).Some?
    ensures MayFollow(s.log, EventOf(s, step).value)
  {
    var i := EventOf(s, step).value.id;
    assert ViewInv(ViewOf(s, i));
  }

  predicate SameFacts(o: Owner, p: Owner) {
    && p.acked == o.acked && p.cleanup == o.cleanup
    && (p.token.once && p.token.admitted) == (o.token.once && o.token.admitted)
  }

  /** The facts in the log change for the owner of the event only. */
  lemma FactsFollowEvent(s: State, step: Step, i: nat)
    requires Inv(s) && Enabled(s, step) && i < |s.owners|
    requires EventOf(s, step).None? || EventOf(s, step).value.id != i
    ensures i < |Apply(s, step).owners| && SameFacts(s.owners[i], Apply(s, step).owners[i])
  {
    if ActsOn(s, step).None? {
      assert Apply(s, step).owners[i] == s.owners[i];
    } else if ActsOn(s, step).value != i {
      if IsHandlerStep(step) { OthersIgnoreHandler(s, step, i); } else { OthersIgnoreWriter(s, step, i); }
      assert ViewOf(Apply(s, step), i).owner == ViewOf(s, i).owner;
    } else {
      assert ViewInv(ViewOf(s, i));
      EventlessStepKeepsFacts(s, step);
    }
  }

  lemma EventlessStepKeepsFacts(s: State, step: Step)
    requires Enabled(s, step) && ActsOn(s, step).Some? && EventOf(s, step).None?
    requires ActsOn(s, step).value < |s.owners| && ViewInv(ViewOf(s, ActsOn(s, step).value))
    ensures ActsOn(s, step).value < |Apply(s, step).owners|
    ensures SameFacts(s.owners[ActsOn(s, step).value], Apply(s, step).owners[ActsOn(s, step).value])
  {
    if IsHandlerStep(step) { EventlessHandlerKeepsFacts(s, step); }
  }

  lemma EventlessHandlerKeepsFacts(s: State, step: Step)
    requires Enabled(s, step) && IsHandlerStep(step) && EventOf(s, step).None?
    requires step.id < |s.owners| && ViewInv(ViewOf(s, step.id))
    ensures step.id < |Apply(s, step).owners| && SameFacts(s.owners[step.id], Apply(s, step).owners[step.id])
  {
  }

  lemma EventRecordsFact(s: State, step: Step)
    requires Inv(s) && Enabled(s, step) && EventOf(s, step).Some?
    ensures
      var e := EventOf(s, step).value;
      && e.id < |s.owners| == |Apply(s, step).owners|
      && var o, p := s.owners[e.id], Apply(s, step).owners[e.id];
         match e
         case Ack(_) => p == o.(acked := true)
         case Begin(_) => p == o.(cleanup := Begun) && o.cleanup.NotBegun?
         case End(_) => p == o.(cleanup := Ended) && !o.cleanup.NotBegun?
         case Release(_) => p.acked == o.acked && p.cleanup == o.cleanup && p.token.once && p.token.admitted
  {
    assert ViewInv(ViewOf(s, EventOf(s, step).value.id));
  }

  lemma OwnersOnlyGrow(s: State, step: Step)
    requires Enabled(s, step)
    ensures |s.owners| <= |Apply(s, step).owners|
    ensures forall i: nat :: |s.owners| <= i < |Apply(s, step).owners| ==>
      SameFacts(Apply(s, step).owners[i], Owner(0, Handling, FRESH, false, NotBegun))
  {
  }

  lemma StepKeepsLog(s: State, step: Step)
    requires Inv(s) && LogInv(s) && Enabled(s, step)
    ensures LogInv(Apply(s, step))
  {
    var t := Apply(s, step);
    LogGrowsByEvent(s, step);
    OwnersOnlyGrow(s, step);
    if EventOf(s, step).Some? { EventRecordsFact(s, step); }
    forall i: nat
      ensures Ack(i) in t.log <==> i < |t.owners| && t.owners[i].acked
      ensures Begin(i) in t.log <==> i < |t.owners| && !t.owners[i].cleanup.NotBegun?
      ensures End(i) in t.log <==> i < |t.owners| && t.owners[i].cleanup.Ended?
      ensures Release(i) in t.log <==> i < |t.owners| && t.owners[i].token.once && t.owners[i].token.admitted
    {
      LogAbout(s, step, i);
    }
  }

  /** The log's facts about one owner after a step. */
  lemma LogAbout(s: State, step: Step, i: nat)
    requires Inv(s) && LogInv(s) && Enabled(s, step)
    ensures
      var t := Apply(s, step);
      && (Ack(i) in t.log <==> i < |t.owners| && t.owners[i].acked)
      && (Begin(i) in t.log <==> i < |t.owners| && !t.owners[i].cleanup.NotBegun?)
      && (End(i) in t.log <==> i < |t.owners| && t.owners[i].cleanup.Ended?)
      && (Release(i) in t.log <==> i < |t.owners| && t.owners[i].token.once && t.owners[i].token.admitted)
  {
    LogGrowsByEvent(s, step);
    OwnersOnlyGrow(s, step);
    if EventOf(s, step).Some? && EventOf(s, step).value.id == i {
      EventRecordsFact(s, step);
    } else if i < |s.owners| {
      FactsFollowEvent(s, step, i);
    } else if EventOf(s, step).Some? {
      EventRecordsFact(s, step);
    }
  }

  ghost predicate Good(s: State) {
    Inv(s) && LogInv(s) && WellOrdered(s.log)
  }

  lemma StepKeepsGood(s: State, step: Step)
    requires Good(s) && Enabled(s, step)
    ensures Good(Apply(s, step))
  {
    StepKeepsInv(s, step);
    StepKeepsLog(s, step);
    LogGrowsByEvent(s, step);
    if EventOf(s, step).Some? {
      EventMayFollow(s, step);
      WellOrderedExtends(s.log, EventOf(s, step).value);
    }
  }

  /**
   * Every interleaving of handlers, writer and teardown, over any number of connections: cleanup at most once,
   * only after the ACK was written, and one release that neither precedes nor overlaps it.
   */
  lemma {:induction false} RunIsGood(s: State, steps: seq<Step>)
    requires Good(s) && IsRun(s, steps)
    ensures Good(After(s, steps))
    decreases |steps|
  {
    if steps != [] {
      StepKeepsGood(s, steps[0]);
      RunIsGood(Apply(s, steps[0]), steps[1..]);
    }
  }

  // ---- Exactly one release, nothing left in the map ----

  /** Nothing is in flight: handlers are gone, and the connection is idle with an empty queue or fully torn down. */
  predicate Quiescent(s: State) {
    && (forall i :: 0 <= i < |s.owners| ==> s.owners[i].pc.Gone?)
    && ((s.teardown.Live? && s.writer.Idle? && s.queue == {}) || s.teardown.Between?)
  }

  /** Once everything is quiet, every admitted owner was released exactly once and the map is empty. */
  lemma QuiescentMeansReleasedOnce(s: State)
    requires Good(s) && Quiescent(s)
    ensures s.replies == {}
    ensures forall i: nat :: i < |s.owners| ==>
      s.owners[i].token.once && s.owners[i].token.releases == if s.owners[i].token.admitted then 1 else 0
  {
    forall i: nat | i < |s.owners|
      ensures i !in s.replies && s.owners[i].token.once
      ensures s.owners[i].token.releases == if s.owners[i].token.admitted then 1 else 0
    {
      assert ViewInv(ViewOf(s, i));
    }
  }

  /** At any time, quiet or not, no owner was released twice. */
  lemma NeverReleasedTwice(s: State, i: nat)
    requires Good(s) && i < |s.owners|
    ensures s.owners[i].token.releases <= 1
  {
    assert ViewInv(ViewOf(s, i));
  }

  // ---- Cleanup ----

  /** A cleanup that starts belongs to the connection that is up, its ACK is written, and nobody else has its owner. */
  lemma CleanupStartsOnlyForItsOwnConnection(s: State)
    requires Good(s) && Enabled(s, StartCheck) && !Cancelled(s, s.writer.id)
    ensures s.owners[s.writer.id].session == s.session && s.teardown.Live?
    ensures s.owners[s.writer.id].acked && !s.owners[s.writer.id].token.once && s.writer.id !in s.replies
    ensures Apply(s, StartCheck).writer == Cleaning(s.writer.id)
  {
    assert ViewInv(ViewOf(s, s.writer.id));
  }

  /** While its context is live, a written ACK finds its owner in the map, whoever else has been running. */
  lemma WrittenAckFindsItsOwner(s: State)
    requires Good(s) && s.writer.Wrote? && !Cancelled(s, s.writer.id)
    ensures Apply(s, TakeWritten).writer == Holding(s.writer.id)
  {
    assert ViewInv(ViewOf(s, s.writer.id));
  }

  /** If the context was never cancelled, a written ACK has led to cleanup, or the writer is just about to start it. */
  lemma AckLeadsToCleanup(s: State, i: nat)
    requires Good(s) && i < |s.owners| && s.owners[i].acked && !Cancelled(s, i)
    ensures s.writer == Wrote(i) || s.writer == Holding(i) || Begin(i) in s.log
  {
    assert ViewInv(ViewOf(s, i));
  }

  // ---- No deadlock ----

  /** A step of a handler, the writer or a teardown under way, rather than of the outside world. */
  predicate Internal(step: Step) {
    !step.Dispatch? && !step.Cancel? && !step.Reconnect?
  }

  function HandlerStep(s: State, i: nat): Option<Step>
    requires i < |s.owners|
  {
    match s.owners[i].pc
    case Handling => Some(Refuse(i))
    case Replying => Some(FirstCheck(i))
    case ClosingEarly => Some(CloseEarly(i))
    case Registering => Some(Register(i))
    case Registered => Some(SendError(i))
    case Sent => Some(SecondCheck(i))
    case Failed => Some(TakeBack(i))
    case Dropping => Some(DropClose(i))
    case Leaving => Some(Leave(i))
    case Gone => None
  }

  ghost predicate Stuck(s: State) {
    forall step :: Internal(step) ==> !Enabled(s, step)
  }

  /** The three actors never block one another: if none of them can move, everything is quiet. */
  lemma StuckMeansQuiescent(s: State)
    requires Good(s) && Stuck(s)
    ensures Quiescent(s)
  {
    forall i: nat | i < |s.owners| ensures s.owners[i].pc.Gone? {
      if HandlerStep(s, i).Some? { assert Enabled(s, HandlerStep(s, i).value); }
    }
    TeardownIsNotStuck(s);
    match s.writer
    case Idle =>
      if i :| i in s.queue { assert Enabled(s, Dequeue(i)); }
    case Exited =>
    case Writing(_) => assert Enabled(s, WriteError);
    case Wrote(_) => assert Enabled(s, TakeWritten);
    case WriteFailed(_) => assert Enabled(s, TakeUnwritten);
    case Holding(_) => assert Enabled(s, StartCheck);
    case Cleaning(_) => assert Enabled(s, EndCleanup);
    case Closing(_) => assert Enabled(s, WriterClose);
    case Discarding(_) => assert Enabled(s, DiscardClose);
  }

  lemma TeardownIsNotStuck(s: State)
    requires Good(s) && Stuck(s)
    ensures s.teardown.Between? || (s.teardown.Live? && !s.writer.Exited?)
  {
    match s.teardown
    case Live => if s.writer.Exited? { assert Enabled(s, Join); }
    case Joined => assert Enabled(s, Drain);
    case Draining(owners) =>
      if owners == {} {
        assert Enabled(s, DrainDone);
      } else {
        var i :| i in owners;
        assert Enabled(s, DrainClose(i));
      }
    case Between =>
  }

  // ---- Why the second context check is there ----

  /**
   * An owner that is in the map although its own connection was already drained registered too late for the
   * teardown. Its handler is then still before its second check, its context is cancelled, and that check
   * sends it down the path that takes the owner back.
   */
  lemma LateOwnerIsTakenBack(s: State, i: nat)
    requires Good(s) && i in s.replies && i < |s.owners|
    requires s.owners[i].session < s.session || s.teardown.Draining? || s.teardown.Between?
    ensures Cancelled(s, i)
    ensures s.owners[i].pc in {Registered, Sent, Failed}
    ensures s.owners[i].pc.Sent? ==> Apply(s, SecondCheck(i)).owners[i].pc.Failed?
    ensures s.owners[i].pc.Failed? ==> Apply(s, TakeBack(i)).owners[i].pc.Dropping? && i !in Apply(s, TakeBack(i)).replies
  {
    assert ViewInv(ViewOf(s, i));
  }
}
