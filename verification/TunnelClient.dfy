/**
 * The mutable objects of decommission_reply.go: owners, and the mutex-guarded map of the tunnel client. Every method is
 * a step, or a few, of the protocol in module Decommission.
 */
module TunnelClients {
  import opened Decommission
  import opened DecommissionRuns
  import opened DecommissionProgress

  class DecommissionReply {
    var staged: bool     // the handler set `cleanup` and `release`
    var queued: bool
    var once: bool
    var releases: nat    // calls of `release`

    function Contents(): Token
      reads this
    {
      Token(staged, queued, once, releases)
    }

    constructor ()
      ensures Contents() == FRESH
    {
      staged, queued, once, releases := false, false, false, 0;
    }

    /** What the message handler does when it admits the terminal cleanup. */
    method Stage()
      modifies this
      ensures Contents() == old(Contents()).(admitted := true)
    {
      staged := true;
    }

    method Close()
      modifies this
      ensures Contents() == Closed(old(Contents()))
    {
      if !once {
        once := true;
        if staged {
          releases := releases + 1;
        }
      }
    }

    method DiscardUnlessQueued()
      modifies this
      ensures Contents() == if old(queued) then old(Contents()) else Closed(old(Contents()))
    {
      if !queued {
        Close();
      }
    }
  }

  /** Steps that touch neither the map nor an owner's fields: context checks, sends, writes, cleanup, the connection. */
  predicate IsElsewhere(step: Step) {
    || step.Refuse? || step.FirstCheck? || step.SendOk? || step.SendError? || step.SecondCheck? || step.Dequeue?
    || step.WriteOk? || step.WriteError? || step.StartCheck? || step.EndCleanup? || step.WriterExit?
    || step.Cancel? || step.Join? || step.Reconnect?
  }

  /** Tokens before and after closing some owners. */
  ghost predicate AreClosed(now: seq<Owner>, was: seq<Owner>, closed: set<nat>) {
    && |now| == |was|
    && forall i :: 0 <= i < |was| ==> now[i].token == if i in closed then Closed(was[i].token) else was[i].token
  }

  lemma ClosingOneMore(now: seq<Owner>, mid: seq<Owner>, was: seq<Owner>, drained: set<nat>, pending: set<nat>, msg: nat)
    requires AreClosed(mid, was, drained - pending) && AreClosed(now, mid, {msg}) && msg in pending && pending <= drained
    ensures AreClosed(now, was, drained - (pending - {msg}))
  {
  }

  class TunnelClient {
    var replies: map<nat, DecommissionReply>   // decommissionReplies, by message
    ghost var owners: seq<DecommissionReply>   // every owner ever made; its message has its number
    ghost var run: State
    ghost var steps: seq<Step>

    ghost predicate Valid()
      reads this, owners
    {
      && ReachedBy(steps, run) && |owners| == |run.owners|
      && (forall i, j :: 0 <= i < j < |owners| ==> owners[i] != owners[j])
      && (forall i :: 0 <= i < |owners| ==> owners[i].Contents() == run.owners[i].token)
      && replies.Keys == run.replies
      && (forall m :: m in replies ==> m < |owners| && replies[m] == owners[m])
    }

    constructor ()
      ensures Valid() && replies == map[] && run == INITIAL && owners == []
    {
      replies, owners, run, steps := map[], [], INITIAL, [];
    }

    ghost method Advance(step: Step)
      requires ReachedBy(steps, run) && Enabled(run, step)
      modifies this`run, this`steps
      ensures ReachedBy(steps, run) && run == Apply(old(run), step) && steps == old(steps) + [step]
    {
      RunExtends(INITIAL, steps, step);
      steps := steps + [step];
      run := Apply(run, step);
    }

    /** A step of some actor outside these objects. */
    ghost method Elsewhere(step: Step)
      requires Valid() && Enabled(run, step) && IsElsewhere(step)
      modifies this`run, this`steps
      ensures Valid() && run == Apply(old(run), step)
    {
      Advance(step);
    }

    /** `dispatchMessage` makes an owner for a DECOMMISSION message. */
    method Dispatch() returns (owner: DecommissionReply)
      requires Valid() && run.teardown.Live?
      modifies this`owners, this`run, this`steps
      ensures Valid() && fresh(owner) && owners == old(owners) + [owner] && run == Apply(old(run), Step.Dispatch)
    {
      owner := new DecommissionReply();
      owners := owners + [owner];
      Advance(Step.Dispatch);
    }

    /** The handler admits the cleanup and stages it with its owner. */
    method Admit(msg: nat, owner: DecommissionReply)
      requires Valid() && Enabled(run, Step.Admit(msg)) && owners[msg] == owner
      modifies this`run, this`steps, owner
      ensures Valid() && run == Apply(old(run), Step.Admit(msg))
    {
      owner.Stage();
      Advance(Step.Admit(msg));
    }

    /** The first context check failed: the sender closes its owner. */
    method CloseEarly(msg: nat, owner: DecommissionReply)
      requires Valid() && Enabled(run, Step.CloseEarly(msg)) && owners[msg] == owner
      modifies this`run, this`steps, owner
      ensures Valid() && run == Apply(old(run), Step.CloseEarly(msg))
    {
      owner.Close();
      Advance(Step.CloseEarly(msg));
    }

    /** The registration under the lock in sendHandlerReply. */
    method Register(msg: nat, owner: DecommissionReply)
      requires Valid() && Enabled(run, Step.Register(msg)) && owners[msg] == owner
      modifies this`replies, this`run, this`steps, owner
      ensures Valid() && run == Apply(old(run), Step.Register(msg))
      ensures replies == old(replies)[msg := owner] && owner.Contents() == old(owner.Contents()).(queued := true)
    {
      replies := replies[msg := owner];
      owner.queued := true;
      Advance(Step.Register(msg));
    }

    /** `takeDecommissionReply`. */
    method Take(msg: nat) returns (owner: DecommissionReply?)
      modifies this`replies
      ensures replies == old(replies) - {msg}
      ensures owner == if msg in old(replies) then old(replies)[msg] else null
    {
      owner := if msg in replies then replies[msg] else null;
      replies := replies - {msg};
    }

    /** `discardDecommissionReply` by the sender, after a failed send or a failed second check. */
    method DiscardOwn(msg: nat)
      requires Valid() && Enabled(run, TakeBack(msg))
      modifies this`replies, this`run, this`steps, replies.Values
      ensures Valid() && replies == old(replies) - {msg}
      ensures msg in old(replies) ==> old(replies)[msg].Contents() == Closed(old(replies[msg].Contents()))
      ensures forall o :: o in old(replies.Values) && (msg !in old(replies) || o != old(replies)[msg]) ==>
        o.Contents() == old(o.Contents())
      ensures
        if msg in old(replies) then steps == old(steps) + [TakeBack(msg)] + [DropClose(msg)]
        else steps == old(steps) + [TakeBack(msg)]
    {
      var owner := Take(msg);
      Advance(TakeBack(msg));
      if owner != null {
        owner.Close();
        Advance(DropClose(msg));
      }
    }

    /** `discardDecommissionReply` by the writer, after a failed write. */
    method DiscardUnwritten(msg: nat)
      requires Valid() && Enabled(run, TakeUnwritten) && run.writer.id == msg
      modifies this`replies, this`run, this`steps, replies.Values
      ensures Valid() && replies == old(replies) - {msg}
      ensures msg in old(replies) ==> old(replies)[msg].Contents() == Closed(old(replies[msg].Contents()))
      ensures forall o :: o in old(replies.Values) && (msg !in old(replies) || o != old(replies)[msg]) ==>
        o.Contents() == old(o.Contents())
      ensures
        if msg in old(replies) then steps == old(steps) + [TakeUnwritten] + [DiscardClose]
        else steps == old(steps) + [TakeUnwritten]
    {
      var owner := Take(msg);
      Advance(TakeUnwritten);
      if owner != null {
        owner.Close();
        Advance(DiscardClose);
      }
    }

    /** The start of `runDecommissionReply`: the writer takes the owner of the ACK it wrote. */
    method TakeWritten(msg: nat) returns (owner: DecommissionReply?)
      requires Valid() && Enabled(run, Step.TakeWritten) && run.writer.id == msg
      modifies this`replies, this`run, this`steps
      ensures Valid() && run == Apply(old(run), Step.TakeWritten)
      ensures owner != null <==> run.writer == Holding(msg)
      ensures owner != null ==> msg < |owners| && owner == owners[msg]
    {
      owner := Take(msg);
      Advance(Step.TakeWritten);
    }

    /** Its deferred close. */
    method CloseWritten(msg: nat, owner: DecommissionReply)
      requires Valid() && Enabled(run, WriterClose) && run.writer.id == msg && owners[msg] == owner
      modifies this`run, this`steps, owner
      ensures Valid() && run == Apply(old(run), WriterClose)
    {
      owner.Close();
      Advance(WriterClose);
    }

    /** The dispatcher's deferred `discardUnlessQueued`. */
    method Leave(msg: nat, owner: DecommissionReply)
      requires Valid() && Enabled(run, Step.Leave(msg)) && owners[msg] == owner
      modifies this`run, this`steps, owner
      ensures Valid() && run == Apply(old(run), Step.Leave(msg))
    {
      owner.DiscardUnlessQueued();
      Advance(Step.Leave(msg));
    }

    /** What has become of the owners `was` when those in `closed` were closed. */
    ghost predicate HasClosed(was: seq<Owner>, closed: set<nat>)
      reads this
    {
      AreClosed(run.owners, was, closed)
    }

    /** One round of the loop in `discardDecommissionReplies`: the machine's DrainClose. */
    method CloseDrained(msg: nat, owner: DecommissionReply)
      requires Valid() && run.teardown.Draining? && msg in run.teardown.owners
      requires msg < |owners| && owners[msg] == owner
      modifies this`run, this`steps, owner
      ensures Valid() && steps == old(steps) + [DrainClose(msg)]
      ensures run.teardown == Draining(old(run.teardown.owners) - {msg}) && HasClosed(old(run).owners, {msg})
    {
      owner.Close();
      Advance(DrainClose(msg));
    }

    /** Swapping the map out under the lock: the machine's Drain. */
    method SwapOut() returns (drained: map<nat, DecommissionReply>)
      requires Valid() && run.teardown.Joined?
      modifies this`replies, this`run, this`steps
      ensures Valid() && drained == old(replies) && replies == map[]
      ensures run.teardown == Draining(drained.Keys) && run.owners == old(run).owners && steps == old(steps) + [Drain]
    {
      drained := replies;
      replies := map[];
      Advance(Drain);
    }

    ghost method EndDrain()
      requires Valid() && run.teardown == Draining({})
      modifies this`run, this`steps
      ensures Valid() && run.teardown.Between? && run.owners == old(run).owners && steps == old(steps) + [DrainDone]
    {
      Advance(DrainDone);
    }

    ghost predicate AreOwners(drained: map<nat, DecommissionReply>)
      reads this
    {
      forall m :: m in drained ==> m < |owners| && drained[m] == owners[m]
    }

    /** The loop of `discardDecommissionReplies`. */
    method CloseAll(drained: map<nat, DecommissionReply>)
      requires Valid() && AreOwners(drained) && run.teardown == Draining(drained.Keys)
      modifies this`run, this`steps, drained.Values
      ensures Valid() && run.teardown.Between? && old(steps) <= steps && HasClosed(old(run).owners, drained.Keys)
    {
      var pending := drained.Keys;
      while pending != {}
        invariant Valid() && AreOwners(drained) && old(steps) <= steps
        invariant pending <= drained.Keys && run.teardown == Draining(pending)
        invariant HasClosed(old(run).owners, drained.Keys - pending)
        decreases pending
      {
        var msg :| msg in pending;
        assert drained[msg] in drained.Values;
        ghost var mid := run.owners;
        CloseDrained(msg, drained[msg]);
        ClosingOneMore(run.owners, mid, old(run).owners, drained.Keys, pending, msg);
        pending := pending - {msg};
      }
      EndDrain();
    }

    /** Swap the map out, then close every owner that was in it. */
    method DiscardReplies()
      requires Valid() && run.teardown.Joined?
      modifies this`replies, this`run, this`steps, replies.Values
      ensures Valid() && replies == map[] && run.teardown.Between? && old(steps) + [Drain] <= steps
      ensures HasClosed(old(run).owners, old(replies).Keys)
      ensures forall m :: m in old(replies) ==> old(replies)[m].Contents() == Closed(old(replies[m].Contents()))
    {
      assert AreOwners(replies);
      var drained := SwapOut();
      CloseAll(drained);
    }

    /** Once everything is at rest, the map is empty and each owner's release ran once if one was staged, else never. */
    lemma AtRest()
      requires Valid() && Stuck(run)
      ensures replies == map[]
      ensures forall i :: 0 <= i < |owners| ==> owners[i].once && owners[i].releases == if owners[i].staged then 1 else 0
    {
      EveryRunAtRestReleasedOnce(steps);
      forall i | 0 <= i < |owners|
        ensures owners[i].once && owners[i].releases == if owners[i].staged then 1 else 0
      {
        assert owners[i].Contents() == run.owners[i].token;
      }
    }
  }
}
