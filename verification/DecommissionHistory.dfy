/**
 * The protocol read from its steps alone: which session an owner belongs to, which sessions were cancelled, and what
 * follows for ACK, cleanup and registration in every run.
 */
module DecommissionHistory {
  import opened Prelude
  import opened Decommission
  import opened DecommissionRuns
  import opened DecommissionProgress

  // ---- Reading a run ----

  /** The number of the session after these steps. */
  function Sessions(steps: seq<Step>): nat {
    if steps == [] then 0 else Sessions(steps[..|steps| - 1]) + if steps[|steps| - 1].Reconnect? then 1 else 0
  }

  function Dispatches(steps: seq<Step>): nat {
    if steps == [] then 0 else Dispatches(steps[..|steps| - 1]) + if steps[|steps| - 1].Dispatch? then 1 else 0
  }

  /** The session in which owner `i` was dispatched. */
  function OwnerSession(steps: seq<Step>, i: nat): nat
    requires i < Dispatches(steps)
  {
    var front := steps[..|steps| - 1];
    if i < Dispatches(front) then OwnerSession(front, i) else Sessions(front)
  }

  predicate Cuts(step: Step) {
    step.Cancel? || step.Join?
  }

  /** The context of session `k` was cancelled during these steps. */
  ghost predicate IsCut(steps: seq<Step>, k: nat) {
    exists j :: 0 <= j < |steps| && Cuts(steps[j]) && Sessions(steps[..j]) == k
  }

  lemma {:induction false} RunSplits(s: State, steps: seq<Step>, n: nat)
    requires IsRun(s, steps) && n <= |steps|
    ensures IsRun(s, steps[..n])
    ensures n < |steps| ==> Enabled(After(s, steps[..n]), steps[n]) && IsRun(s, steps[..n + 1])
    ensures n < |steps| ==> After(s, steps[..n + 1]) == Apply(After(s, steps[..n]), steps[n])
    decreases n
  {
    if n > 0 {
      assert steps[..n][1..] == steps[1..][..n - 1];
      RunSplits(Apply(s, steps[0]), steps[1..], n - 1);
      if n < |steps| { assert steps[..n + 1][1..] == steps[1..][..n]; }
    } else if |steps| > 0 {
      assert steps[..1][1..] == [];
    }
  }

  lemma SessionStep(s: State, step: Step)
    requires Enabled(s, step)
    ensures Apply(s, step).session == s.session + if step.Reconnect? then 1 else 0
    ensures Apply(s, step).cancelled == if Cuts(step) then s.cancelled + {s.session} else s.cancelled
  {
  }

  lemma OwnerStep(s: State, step: Step, i: nat)
    requires Enabled(s, step) && i < |s.owners| && (ActsOn(s, step).Some? ==> ActsOn(s, step).value < |s.owners|)
    ensures i < |Apply(s, step).owners| && Apply(s, step).owners[i].session == s.owners[i].session
    ensures Apply(s, step).owners[i].token.admitted == (s.owners[i].token.admitted || step == Admit(i))
  {
    if ActsOn(s, step) != Some(i) {
      assert Apply(s, step).owners[i] == s.owners[i];
    }
  }

  lemma DispatchStep(s: State, step: Step)
    requires Enabled(s, step) && (ActsOn(s, step).Some? ==> ActsOn(s, step).value < |s.owners|)
    ensures |Apply(s, step).owners| == |s.owners| + if step.Dispatch? then 1 else 0
    ensures step.Dispatch? ==>
      var o := Apply(s, step).owners[|s.owners|];
      o.session == s.session && !o.token.admitted
  {
  }

  lemma ActorsExist(s: State, step: Step)
    requires Inv(s) && Enabled(s, step)
    ensures ActsOn(s, step).Some? ==> ActsOn(s, step).value < |s.owners|
  {
  }

  ghost predicate Tells(steps: seq<Step>, s: State) {
    && s.session == Sessions(steps) && |s.owners| == Dispatches(steps)
    && (forall i: nat :: i < |s.owners| ==> s.owners[i].session == OwnerSession(steps, i))
    && (forall i: nat :: i < |s.owners| ==> (s.owners[i].token.admitted <==> Admit(i) in steps))
    && (forall k: nat :: k in s.cancelled <==> IsCut(steps, k))
  }

  lemma CutExtends(steps: seq<Step>, step: Step, k: nat)
    ensures IsCut(steps + [step], k) <==> IsCut(steps, k) || (Cuts(step) && Sessions(steps) == k)
  {
    var longer := steps + [step];
    assert longer[..|steps|] == steps;
    if IsCut(steps, k) {
      var j :| 0 <= j < |steps| && Cuts(steps[j]) && Sessions(steps[..j]) == k;
      assert longer[j] == steps[j] && longer[..j] == steps[..j];
    }
    if IsCut(longer, k) {
      var j :| 0 <= j < |longer| && Cuts(longer[j]) && Sessions(longer[..j]) == k;
      if j < |steps| { assert longer[j] == steps[j] && longer[..j] == steps[..j]; }
    }
    if Cuts(step) && Sessions(steps) == k { assert longer[|steps|] == step; }
  }

  lemma {:induction false} AdmitsExist(steps: seq<Step>, i: nat)
    requires IsRun(INITIAL, steps) && Admit(i) in steps
    ensures i < Dispatches(steps)
  {
    var n := |steps| - 1;
    RunSplits(INITIAL, steps, n);
    assert steps[..n + 1] == steps;
    if Admit(i) in steps[..n] {
      AdmitsExist(steps[..n], i);
    } else {
      assert steps[n] == Admit(i);
      OwnersAreDispatched(steps[..n]);
    }
  }

  lemma {:induction false} OwnersAreDispatched(steps: seq<Step>)
    requires IsRun(INITIAL, steps)
    ensures |After(INITIAL, steps).owners| == Dispatches(steps)
  {
    if steps != [] {
      var n := |steps| - 1;
      RunSplits(INITIAL, steps, n);
      assert steps[..n + 1] == steps;
      OwnersAreDispatched(steps[..n]);
      GoodAfter(steps[..n]);
      ActorsExist(After(INITIAL, steps[..n]), steps[n]);
      DispatchStep(After(INITIAL, steps[..n]), steps[n]);
    }
  }

  lemma GoodAfter(steps: seq<Step>)
    requires IsRun(INITIAL, steps)
    ensures Good(After(INITIAL, steps))
  {
    InitialIsGood();
    RunIsGood(INITIAL, steps);
  }

  /** Sessions, owners, admissions and cancellations of the machine are those of the steps. */
  lemma {:induction false} HistoryTells(steps: seq<Step>)
    requires IsRun(INITIAL, steps)
    ensures Tells(steps, After(INITIAL, steps))
  {
    if steps != [] {
      var n := |steps| - 1;
      var front, step := steps[..n], steps[n];
      RunSplits(INITIAL, steps, n);
      assert steps[..n + 1] == steps && steps == front + [step];
      HistoryTells(front);
      GoodAfter(front);
      TellsExtends(front, After(INITIAL, front), step);
    }
  }

  lemma TellsExtends(steps: seq<Step>, s: State, step: Step)
    requires IsRun(INITIAL, steps) && s == After(INITIAL, steps) && Inv(s) && Tells(steps, s) && Enabled(s, step)
    ensures Tells(steps + [step], Apply(s, step))
  {
    var t, longer := Apply(s, step), steps + [step];
    assert longer[..|longer| - 1] == steps;
    SessionStep(s, step);
    ActorsExist(s, step);
    DispatchStep(s, step);
    forall k: nat ensures k in t.cancelled <==> IsCut(longer, k) { CutExtends(steps, step, k); }
    forall i: nat | i < |t.owners|
      ensures t.owners[i].session == OwnerSession(longer, i)
      ensures t.owners[i].token.admitted <==> Admit(i) in longer
    {
      if i < |s.owners| {
        OwnerStep(s, step, i);
      } else if Admit(i) in steps {
        AdmitsExist(steps, i);
      }
    }
  }

  // ---- Cleanup begins on a live context only ----

  /** The step that begins a cleanup finds its ACK written and its context live. */
  lemma CleanupBeginsLive(s: State, step: Step, i: nat)
    requires Good(s) && Enabled(s, step) && Begin(i) !in s.log && Begin(i) in Apply(s, step).log
    ensures i < |s.owners| && !Cancelled(s, i) && Ack(i) in s.log
  {
    LogGrowsByEvent(s, step);
    assert EventOf(s, step) == Some(Begin(i));
    EventMayFollow(s, step);
  }

  /** In every run: once a session is cancelled, no cleanup of one of its owners begins. */
  lemma NoCleanupAfterCancel(steps: seq<Step>, j: nat, k: nat, i: nat)
    requires IsRun(INITIAL, steps) && j < k < |steps| && Cuts(steps[j])
    requires i < Dispatches(steps[..k]) && OwnerSession(steps[..k], i) == Sessions(steps[..j])
    ensures IsRun(INITIAL, steps[..k]) && IsRun(INITIAL, steps[..k + 1])
    ensures Begin(i) in After(INITIAL, steps[..k + 1]).log ==> Begin(i) in After(INITIAL, steps[..k]).log
  {
    RunSplits(INITIAL, steps, k);
    var s := After(INITIAL, steps[..k]);
    HistoryTells(steps[..k]);
    GoodAfter(steps[..k]);
    assert steps[..k][j] == steps[j] && steps[..k][..j] == steps[..j];
    assert IsCut(steps[..k], Sessions(steps[..j]));
    if Begin(i) !in s.log && Begin(i) in Apply(s, steps[k]).log { CleanupBeginsLive(s, steps[k], i); }
  }

  // ---- An admitted owner is acknowledged ----

  predicate IsFailing(w: Writer) {
    w.WriteFailed? || w.Discarding? || w.Exited?
  }

  /** Where an admitted owner of a live session stands while its ACK is not written. */
  predicate OnItsWay(s: State, i: nat)
    requires i < |s.owners|
  {
    var o := s.owners[i];
    o.token.admitted && !Cancelled(s, i) ==>
      || o.pc.Replying? || o.pc.Registering? || o.pc.Registered?
      || ((o.pc.Sent? || o.pc.Leaving? || o.pc.Gone?)
          && (o.acked || i in s.queue || s.writer == Writing(i) || IsFailing(s.writer)))
  }

  lemma WriterStepKeepsWay(s: State, step: Step, i: nat)
    requires Inv(s) && Enabled(s, step) && IsWriterStep(step) && i < |s.owners| && OnItsWay(s, i)
    ensures i < |Apply(s, step).owners| && OnItsWay(Apply(s, step), i)
  {
    ActorsExist(s, step);
    OwnerStep(s, step, i);
  }

  lemma HandlerStepKeepsWay(s: State, step: Step, i: nat)
    requires Inv(s) && Enabled(s, step) && IsHandlerStep(step) && step != SendError(i)
    requires i < |s.owners| && OnItsWay(s, i)
    ensures i < |Apply(s, step).owners| && OnItsWay(Apply(s, step), i)
  {
    if step.id != i {
      assert Apply(s, step).owners[i] == s.owners[i];
    } else {
      assert ViewInv(ViewOf(s, i));
    }
  }

  lemma ConnectionStepKeepsWay(s: State, step: Step, i: nat)
    requires Inv(s) && Enabled(s, step) && !IsHandlerStep(step) && !IsWriterStep(step)
    requires i < |s.owners| && OnItsWay(s, i)
    ensures i < |Apply(s, step).owners| && OnItsWay(Apply(s, step), i)
  {
    ActorsExist(s, step);
    OwnerStep(s, step, i);
  }

  /** In every run without a failed send, an admitted owner of a live session is on its way to its ACK. */
  lemma {:induction false} AdmittedIsOnItsWay(steps: seq<Step>, i: nat)
    requires IsRun(INITIAL, steps) && i < Dispatches(steps) && SendError(i) !in steps
    ensures |After(INITIAL, steps).owners| == Dispatches(steps) && OnItsWay(After(INITIAL, steps), i)
  {
    var n := |steps| - 1;
    var front, step := steps[..n], steps[n];
    RunSplits(INITIAL, steps, n);
    assert steps[..n + 1] == steps;
    HistoryTells(steps);
    var s := After(INITIAL, front);
    GoodAfter(front);
    OwnersAreDispatched(front);
    if i < Dispatches(front) {
      AdmittedIsOnItsWay(front, i);
      if IsHandlerStep(step) {
        HandlerStepKeepsWay(s, step, i);
      } else if IsWriterStep(step) {
        WriterStepKeepsWay(s, step, i);
      } else {
        ConnectionStepKeepsWay(s, step, i);
      }
    } else {
      ActorsExist(s, step);
      DispatchStep(s, step);
    }
  }

  /**
   * In every run at rest: an owner that was admitted, whose send did not fail and whose session was never cancelled has
   * its ACK written, its cleanup begun and ended, and its release run.
   */
  lemma EveryAdmittedIsServed(steps: seq<Step>, i: nat)
    requires IsRun(INITIAL, steps) && Stuck(After(INITIAL, steps))
    requires Admit(i) in steps && SendError(i) !in steps
    requires i < Dispatches(steps) && !IsCut(steps, OwnerSession(steps, i))
    ensures
      var log := After(INITIAL, steps).log;
      Ack(i) in log && Begin(i) in log && End(i) in log && Release(i) in log
  {
    var s := After(INITIAL, steps);
    HistoryTells(steps);
    GoodAfter(steps);
    AdmittedIsOnItsWay(steps, i);
    StuckMeansQuiescent(s);
    assert s.owners[i].acked;
    EveryAckAtRestWasCleanedUp(steps, i);
    EveryRunAtRestReleasedOnce(steps);
  }

  // ---- A cancelled session admits nobody to the map ----

  predicate IsTurnedAway(s: State, i: nat) {
    && i < |s.owners| && !s.owners[i].token.queued
    && (s.owners[i].pc.ClosingEarly? || s.owners[i].pc.Leaving? || s.owners[i].pc.Gone?)
  }

  lemma TurnedAwayStays(s: State, step: Step, i: nat)
    requires Inv(s) && Enabled(s, step) && IsTurnedAway(s, i)
    ensures IsTurnedAway(Apply(s, step), i)
  {
    ActorsExist(s, step);
    if ActsOn(s, step) != Some(i) {
      assert i < |Apply(s, step).owners| && Apply(s, step).owners[i] == s.owners[i];
    } else {
      assert ViewInv(ViewOf(s, i));
    }
  }

  lemma {:induction false} TurnedAwayForGood(steps: seq<Step>, k: nat, n: nat, i: nat)
    requires IsRun(INITIAL, steps) && k <= n <= |steps| && IsRun(INITIAL, steps[..k]) && IsRun(INITIAL, steps[..n])
    requires IsTurnedAway(After(INITIAL, steps[..k]), i)
    ensures IsTurnedAway(After(INITIAL, steps[..n]), i)
    decreases n
  {
    if k < n {
      RunSplits(INITIAL, steps, n - 1);
      TurnedAwayForGood(steps, k, n - 1, i);
      GoodAfter(steps[..n - 1]);
      TurnedAwayStays(After(INITIAL, steps[..n - 1]), steps[n - 1], i);
    }
  }

  /** In every run: an owner whose session was cancelled before its first check never enters the map, and gets no ACK. */
  lemma LateFirstCheckStaysOut(steps: seq<Step>, k: nat, n: nat, i: nat)
    requires IsRun(INITIAL, steps) && k < n <= |steps| && steps[k] == FirstCheck(i)
    requires i < Dispatches(steps[..k]) && IsCut(steps[..k], OwnerSession(steps[..k], i))
    ensures IsRun(INITIAL, steps[..n])
    ensures i !in After(INITIAL, steps[..n]).replies && i !in After(INITIAL, steps[..n]).queue
    ensures Ack(i) !in After(INITIAL, steps[..n]).log
  {
    RunSplits(INITIAL, steps, k);
    RunSplits(INITIAL, steps, n);
    var s := After(INITIAL, steps[..k]);
    HistoryTells(steps[..k]);
    GoodAfter(steps[..k]);
    assert ViewInv(ViewOf(s, i));
    assert IsTurnedAway(Apply(s, steps[k]), i);
    TurnedAwayForGood(steps, k + 1, n, i);
    GoodAfter(steps[..n]);
    assert ViewInv(ViewOf(After(INITIAL, steps[..n]), i));
  }

  // ---- A failed write ends the writer ----

  lemma FailingStays(s: State, step: Step)
    requires Enabled(s, step) && IsFailing(s.writer) && !step.Reconnect?
    ensures IsFailing(Apply(s, step).writer) && !step.Dequeue?
  {
  }

  lemma {:induction false} FailingForGood(steps: seq<Step>, j: nat, k: nat)
    requires IsRun(INITIAL, steps) && j < k <= |steps| && steps[j] == WriteError
    requires forall m :: j < m < k ==> !steps[m].Reconnect?
    ensures IsRun(INITIAL, steps[..k]) && IsFailing(After(INITIAL, steps[..k]).writer)
    decreases k
  {
    RunSplits(INITIAL, steps, k - 1);
    if j < k - 1 {
      FailingForGood(steps, j, k - 1);
      FailingStays(After(INITIAL, steps[..k - 1]), steps[k - 1]);
    }
  }

  /** In every run: after a failed write the writer takes no message before the next connection. */
  lemma FailedWriteEndsWriter(steps: seq<Step>, j: nat, k: nat)
    requires IsRun(INITIAL, steps) && j < k < |steps| && steps[j] == WriteError
    requires forall m :: j < m <= k ==> !steps[m].Reconnect?
    ensures !steps[k].Dequeue?
  {
    FailingForGood(steps, j, k);
    RunSplits(INITIAL, steps, k);
    FailingStays(After(INITIAL, steps[..k]), steps[k]);
  }

  // ---- A new connection serves ----

  predicate IsServing(s: State) {
    s.teardown.Live? && s.writer.Idle? && s.session !in s.cancelled
  }

  /** Every reconnect gives a connection that serves. */
  lemma ReconnectServes(s: State)
    requires Good(s) && Enabled(s, Reconnect)
    ensures IsServing(Apply(s, Reconnect))
  {
  }

  function HandlerPath(n: nat): seq<Step> {
    [Dispatch, Admit(n), FirstCheck(n), Register(n), SendOk(n), SecondCheck(n), Leave(n)]
  }

  function WriterPath(n: nat): seq<Step> {
    [Dequeue(n), WriteOk, TakeWritten, StartCheck, EndCleanup, WriterClose]
  }

  /** The state with one more owner. */
  function With(s: State, o: Owner): State {
    s.(owners := s.owners + [o])
  }

  lemma MovesTo(s: State, o: Owner, p: Owner)
    ensures With(s, o).owners[|s.owners| := p] == With(s, p).owners && With(s, o).owners[|s.owners|] == o
  {
  }

  const NEW: Owner := Owner(0, Handling, FRESH, false, NotBegun)

  /** The new owner at a point of its handler, before and after its registration. */
  function Before(s: State, pc: Pc): Owner {
    NEW.(session := s.session, pc := pc, token := FRESH.(admitted := !pc.Handling?))
  }

  function Since(s: State, pc: Pc): Owner {
    NEW.(session := s.session, pc := pc, token := Token(true, true, false, 0))
  }

  function Mapped(s: State, pc: Pc): State {
    With(s, Since(s, pc)).(replies := s.replies + {|s.owners|})
  }

  function Queued(s: State, pc: Pc): State {
    Mapped(s, pc).(queue := s.queue + {|s.owners|})
  }

  lemma FirstHalf(s: State)
    requires IsServing(s)
    ensures
      var n := |s.owners|;
      && Enabled(s, Dispatch) && Apply(s, Dispatch) == With(s, Before(s, Handling))
      && Enabled(With(s, Before(s, Handling)), Admit(n))
      && Apply(With(s, Before(s, Handling)), Admit(n)) == With(s, Before(s, Replying))
      && Enabled(With(s, Before(s, Replying)), FirstCheck(n))
      && Apply(With(s, Before(s, Replying)), FirstCheck(n)) == With(s, Before(s, Registering))
  {
    MovesTo(s, Before(s, Handling), Before(s, Replying));
    MovesTo(s, Before(s, Handling), Before(s, Handling).(token := FRESH.(admitted := true)));
    MovesTo(s, Before(s, Handling).(token := FRESH.(admitted := true)), Before(s, Replying));
    MovesTo(s, Before(s, Replying), Before(s, Registering));
  }

  lemma Registers(s: State)
    requires IsServing(s)
    ensures
      var n := |s.owners|;
      && Enabled(With(s, Before(s, Registering)), Register(n))
      && Apply(With(s, Before(s, Registering)), Register(n)) == Mapped(s, Registered)
  {
    var mid := Before(s, Registering).(token := Token(true, true, false, 0));
    MovesTo(s, Before(s, Registering), mid);
    MovesTo(s, mid, Since(s, Registered));
  }

  lemma SecondHalf(s: State)
    requires IsServing(s)
    ensures
      var n := |s.owners|;
      && Enabled(Mapped(s, Registered), SendOk(n)) && Apply(Mapped(s, Registered), SendOk(n)) == Queued(s, Pc.Sent)
      && Enabled(Queued(s, Pc.Sent), SecondCheck(n)) && Apply(Queued(s, Pc.Sent), SecondCheck(n)) == Queued(s, Leaving)
      && Enabled(Queued(s, Leaving), Leave(n)) && Apply(Queued(s, Leaving), Leave(n)) == Queued(s, Gone)
  {
    MovesTo(s, Since(s, Registered), Since(s, Pc.Sent));
    MovesTo(s, Since(s, Pc.Sent), Since(s, Leaving));
    MovesTo(s, Since(s, Leaving), Since(s, Gone));
  }

  /** The handler's way on a serving connection: the owner is registered and its ACK queued. */
  lemma HandlerServes(s: State)
    requires IsServing(s)
    ensures IsRun(s, HandlerPath(|s.owners|)) && After(s, HandlerPath(|s.owners|)) == Queued(s, Gone)
  {
    var n := |s.owners|;
    FirstHalf(s);
    Registers(s);
    SecondHalf(s);
    HandlerRun(s, With(s, Before(s, Handling)), With(s, Before(s, Replying)), With(s, Before(s, Registering)),
               Mapped(s, Registered), Queued(s, Pc.Sent), Queued(s, Leaving), Queued(s, Gone), n);
  }

  /** Single steps make a run. */
  lemma HandlerRun(s0: State, s1: State, s2: State, s3: State, s4: State, s5: State, s6: State, s7: State, n: nat)
    requires Enabled(s0, Dispatch) && Apply(s0, Dispatch) == s1
    requires Enabled(s1, Admit(n)) && Apply(s1, Admit(n)) == s2
    requires Enabled(s2, FirstCheck(n)) && Apply(s2, FirstCheck(n)) == s3
    requires Enabled(s3, Register(n)) && Apply(s3, Register(n)) == s4
    requires Enabled(s4, SendOk(n)) && Apply(s4, SendOk(n)) == s5
    requires Enabled(s5, SecondCheck(n)) && Apply(s5, SecondCheck(n)) == s6
    requires Enabled(s6, Leave(n)) && Apply(s6, Leave(n)) == s7
    ensures IsRun(s0, HandlerPath(n)) && After(s0, HandlerPath(n)) == s7
  {
    var path := HandlerPath(n);
    assert path[3..][3..] == [Leave(n)] && [Leave(n)][1..] == [];
    RunOfThree(s3, s4, s5, s6, path[3..]);
    RunOfThree(s0, s1, s2, s3, path);
  }

  /** Three steps before a run are a longer run to the same state. */
  lemma RunOfThree(s0: State, s1: State, s2: State, s3: State, steps: seq<Step>)
    requires |steps| >= 3
    requires Enabled(s0, steps[0]) && Apply(s0, steps[0]) == s1
    requires Enabled(s1, steps[1]) && Apply(s1, steps[1]) == s2
    requires Enabled(s2, steps[2]) && Apply(s2, steps[2]) == s3
    requires IsRun(s3, steps[3..])
    ensures IsRun(s0, steps) && After(s0, steps) == After(s3, steps[3..])
  {
    assert steps[1..][1..] == steps[2..] && steps[2..][1..] == steps[3..];
    assert IsRun(s2, steps[2..]) && After(s2, steps[2..]) == After(s3, steps[3..]);
    assert IsRun(s1, steps[1..]) && After(s1, steps[1..]) == After(s2, steps[2..]);
  }

  /** The new owner once its ACK is written. */
  function Written(s: State, once: bool, cleanup: Cleanup): Owner {
    Since(s, Gone).(acked := true, cleanup := cleanup, token := Token(true, true, once, if once then 1 else 0))
  }

  function Served(s: State): State {
    With(s, Written(s, true, Ended)).(
      log := s.log + [Ack(|s.owners|)] + [Begin(|s.owners|)] + [End(|s.owners|)] + [Release(|s.owners|)])
  }

  function AckState(s: State): State {
    With(s, Written(s, false, NotBegun)).(
      replies := s.replies + {|s.owners|}, writer := Wrote(|s.owners|), log := s.log + [Ack(|s.owners|)])
  }

  function HoldState(s: State): State {
    With(s, Written(s, false, NotBegun)).(writer := Holding(|s.owners|), log := s.log + [Ack(|s.owners|)])
  }

  function CleanState(s: State): State {
    With(s, Written(s, false, Begun)).(
      writer := Cleaning(|s.owners|), log := s.log + [Ack(|s.owners|)] + [Begin(|s.owners|)])
  }

  function CloseState(s: State): State {
    With(s, Written(s, false, Ended)).(
      writer := Closing(|s.owners|), log := s.log + [Ack(|s.owners|)] + [Begin(|s.owners|)] + [End(|s.owners|)])
  }

  predicate IsFreshNumber(s: State) {
    IsServing(s) && |s.owners| !in s.replies && |s.owners| !in s.queue
  }

  lemma Writes(s: State)
    requires IsFreshNumber(s)
    ensures
      var n := |s.owners|;
      var writing := Mapped(s, Gone).(writer := Writing(n));
      && Enabled(Queued(s, Gone), Dequeue(n)) && Apply(Queued(s, Gone), Dequeue(n)) == writing
      && Enabled(writing, WriteOk) && Apply(writing, WriteOk) == AckState(s)
  {
    MovesTo(s, Since(s, Gone), Written(s, false, NotBegun));
    assert s.queue + {|s.owners|} - {|s.owners|} == s.queue;
  }

  lemma Cleans(s: State)
    requires IsFreshNumber(s)
    ensures Enabled(AckState(s), TakeWritten) && Apply(AckState(s), TakeWritten) == HoldState(s)
    ensures Enabled(HoldState(s), StartCheck) && Apply(HoldState(s), StartCheck) == CleanState(s)
  {
    MovesTo(s, Written(s, false, NotBegun), Written(s, false, Begun));
    assert s.replies + {|s.owners|} - {|s.owners|} == s.replies;
  }

  lemma Ends(s: State)
    requires IsFreshNumber(s)
    ensures Enabled(CleanState(s), EndCleanup) && Apply(CleanState(s), EndCleanup) == CloseState(s)
    ensures Enabled(CloseState(s), WriterClose) && Apply(CloseState(s), WriterClose) == Served(s)
  {
    MovesTo(s, Written(s, false, Begun), Written(s, false, Ended));
    MovesTo(s, Written(s, false, Ended), Written(s, true, Ended));
  }

  /** The writer's way from there: ACK, cleanup and release, and nothing left behind. */
  lemma WriterServes(s: State)
    requires IsFreshNumber(s)
    ensures IsRun(Queued(s, Gone), WriterPath(|s.owners|)) && After(Queued(s, Gone), WriterPath(|s.owners|)) == Served(s)
  {
    var n := |s.owners|;
    Writes(s);
    Cleans(s);
    Ends(s);
    WriterRun(Queued(s, Gone), Mapped(s, Gone).(writer := Writing(n)), AckState(s), HoldState(s),
              CleanState(s), CloseState(s), Served(s), n);
  }

  lemma WriterRun(t0: State, t1: State, t2: State, t3: State, t4: State, t5: State, t6: State, n: nat)
    requires Enabled(t0, Dequeue(n)) && Apply(t0, Dequeue(n)) == t1
    requires Enabled(t1, WriteOk) && Apply(t1, WriteOk) == t2
    requires Enabled(t2, TakeWritten) && Apply(t2, TakeWritten) == t3
    requires Enabled(t3, StartCheck) && Apply(t3, StartCheck) == t4
    requires Enabled(t4, EndCleanup) && Apply(t4, EndCleanup) == t5
    requires Enabled(t5, WriterClose) && Apply(t5, WriterClose) == t6
    ensures IsRun(t0, WriterPath(n)) && After(t0, WriterPath(n)) == t6
  {
    var path := WriterPath(n);
    assert path[3..][3..] == [];
    RunOfThree(t3, t4, t5, t6, path[3..]);
    RunOfThree(t0, t1, t2, t3, path);
  }

  /** From every good state of a serving connection one more decommission can be served, with its ACK, cleanup and release. */
  lemma ServingConnectionServes(s: State)
    requires Good(s) && IsServing(s)
    ensures IsRun(s, HandlerPath(|s.owners|)) && IsRun(After(s, HandlerPath(|s.owners|)), WriterPath(|s.owners|))
    ensures After(After(s, HandlerPath(|s.owners|)), WriterPath(|s.owners|)) == Served(s)
  {
    HandlerServes(s);
    WriterServes(s);
  }
}
