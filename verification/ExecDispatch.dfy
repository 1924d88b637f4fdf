/** `execDispatchOrder` as the code has it: a map of tails, channels that get closed, and tickets for goroutines. */
module ExecDispatch {
  import opened Prelude
  import opened ExecOrder

  datatype Kind = ExecStart | ExecInput | ExecResize | ExecEnd | Heartbeat | OtherMessage

  predicate Chained(kind: Kind) {
    kind.ExecStart? || kind.ExecInput? || kind.ExecResize?
  }

  /** What the two closures returned by `reserve` capture. Channels are numbered in the order they are made. */
  datatype Ticket = Free | Held(stream: string, previous: Option<nat>, done: nat)

  class ExecDispatchOrder {
    var tails: map<string, nat>
    var closed: set<nat>
    var made: nat
    var cancelled: bool   // the connection context all waits share
    ghost var run: State
    ghost var steps: seq<Step>

    ghost predicate Valid()
      reads this
    {
      && ReachedBy(steps, run)
      && tails == run.tails
      && made == |run.slots|
      && cancelled == run.cancelled
      && (forall c: nat :: c in closed <==> c < |run.slots| && run.slots[c].phase.Done?)
    }

    /** The ticket belongs to a reservation of this order whose goroutine is in the given phase. */
    ghost predicate Holds(t: Ticket, phase: Phase)
      reads this
    {
      t.Held? && t.done < |run.slots| && run.slots[t.done] == Slot(t.stream, t.previous, phase)
    }

    constructor ()
      ensures Valid() && run == INITIAL && tails == map[] && !cancelled
    {
      tails, closed, made, cancelled, run, steps := map[], {}, 0, false, INITIAL, [];
    }

    /** The next atomic step of the ordering. */
    ghost method Take(step: Step)
      requires ReachedBy(steps, run) && Enabled(run, step)
      modifies this`run, this`steps
      ensures ReachedBy(steps, run) && run == Apply(old(run), step) && steps == old(steps) + [step]
    {
      RunExtends(INITIAL, steps, step);
      steps := steps + [step];
      run := Apply(run, step);
    }

    /**
     * START, INPUT and RESIZE queue behind the stream's tail and become it. EXEC_END, heartbeats and every other kind get
     * a free ticket, which is ready at once, and leave the order untouched.
     */
    method Reserve(kind: Kind, stream: string) returns (t: Ticket)
      requires Valid()
      modifies this
      ensures Valid() && closed == old(closed) && cancelled == old(cancelled)
      ensures kind == ExecStart || kind == ExecInput || kind == ExecResize ==>
        && t == Held(stream, if stream in old(tails) then Some(old(tails)[stream]) else None, old(made))
        && Holds(t, Waiting) && tails == old(tails)[stream := old(made)] && made == old(made) + 1
        && run == Apply(old(run), ExecOrder.Reserve(stream)) && steps == old(steps) + [ExecOrder.Reserve(stream)]
      ensures kind == ExecEnd || kind == Heartbeat || kind == OtherMessage ==>
        && t == Free && WaitReady(t)
        && tails == old(tails) && made == old(made) && run == old(run) && steps == old(steps)
    {
      if !Chained(kind) {
        return Free;
      }
      var previous := if stream in tails then Some(tails[stream]) else None;
      var done := made;
      made := made + 1;
      tails := tails[stream := done];
      Take(ExecOrder.Reserve(stream));
      t := Held(stream, previous, done);
    }

    /** The connection ends: `ctx.Done()` fires for everyone. */
    method CancelContext()
      requires Valid()
      modifies this`cancelled, this`run, this`steps
      ensures Valid() && cancelled && run == Apply(old(run), Cancel)
    {
      cancelled := true;
      Take(Cancel);
    }

    /** Whether `wait` can return: its select has a ready case. */
    predicate WaitReady(t: Ticket)
      reads this
    {
      t.Free? || t.previous.None? || t.previous.value in closed || cancelled
    }

    /** The select of `wait`: false when the context ends it. Other goroutines may move before the check that follows. */
    method Await(t: Ticket) returns (passed: bool)
      requires Valid() && WaitReady(t)
      requires t.Held? ==> Holds(t, Waiting)
      modifies this`run, this`steps
      ensures Valid()
      ensures t.Free? ==> passed && run == old(run)
      ensures t.Held? ==> Holds(t, if passed then Passed else Skipped)
      ensures t.Held? ==> steps == old(steps) + [if passed then Pass(t.done) else Abort(t.done)]
      ensures !passed ==> cancelled
    {
      if t.Held? && t.previous.Some? {
        // A select with both cases ready picks either.
        var received: bool := *;
        if t.previous.value !in closed || (cancelled && !received) {
          Take(Abort(t.done));
          return false;
        }
      }
      if t.Held? {
        Take(Pass(t.done));
      }
      passed := true;
    }

    /**
     * The context check that ends `wait`. It returns true only while the context is live, and then every earlier
     * reservation of the stream has finished.
     */
    method Confirm(t: Ticket) returns (ok: bool)
      requires Valid()
      requires t.Held? ==> Holds(t, Passed)
      modifies this`run, this`steps
      ensures Valid()
      ensures t.Free? ==> ok && run == old(run)
      ensures t.Held? ==> ok == !cancelled && Holds(t, if ok then Running else Skipped)
      ensures t.Held? ==> steps == old(steps) + [ExecOrder.Check(t.done)]
      ensures t.Held? && ok ==> EarlierDone(run, t.done)
    {
      if t.Free? {
        return true;
      }
      Take(ExecOrder.Check(t.done));
      ok := !cancelled;
      RunKeepsInv(INITIAL, steps);
      assert SlotInv(run, t.done);
    }

    /** `finish`, called once after `wait` has returned and any handler has returned. */
    method Finish(t: Ticket)
      requires Valid()
      requires t.Held? ==> Holds(t, Running) || Holds(t, Skipped)
      modifies this
      ensures Valid() && cancelled == old(cancelled) && made == old(made)
      ensures t.Free? ==> run == old(run) && tails == old(tails) && closed == old(closed)
      ensures t.Held? ==>
        && run == Apply(old(run), ExecOrder.Finish(t.done))
        && closed == old(closed) + {t.done}
        && tails == if t.stream in old(tails) && old(tails)[t.stream] == t.done then old(tails) - {t.stream} else old(tails)
    {
      if t.Free? {
        return;
      }
      if t.stream in tails && tails[t.stream] == t.done {
        tails := tails - {t.stream};
      }
      closed := closed + {t.done};
      Take(ExecOrder.Finish(t.done));
    }
  }
}
