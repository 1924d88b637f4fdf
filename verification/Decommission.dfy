/**
 * Ownership of a decommission reply: one token per DECOMMISSION message moves between the handler that
 * sends the ACK, the socket writer, and the teardown of the connection. The three are interleaved here in
 * atomic steps, over any number of connections of one tunnel client.
 */
module Decommission {
  import opened Prelude

  /** Where the handler goroutine of an owner stands. */
  datatype Pc =
    | Handling       // in the message handler
    | Replying       // the handler staged its cleanup; in sendHandlerReply, before the first context check
    | ClosingEarly   // the first check failed
    | Registering    // the first check passed, before taking the lock
    | Registered     // in the map, in SendBlocking
    | Sent           // SendBlocking returned nil, before the second context check
    | Failed         // about to discard its own registration
    | Dropping       // took the owner back out of the map, about to close it
    | Leaving        // sendHandlerReply returned; the deferred discardUnlessQueued is next
    | Gone

  datatype Cleanup = NotBegun | Begun | Ended

  /**
   * The fields of a `decommissionReply`: whether the handler staged `cleanup` and `release`, `queued`, the
   * sync.Once of `close`, and how often `release` ran.
   */
  datatype Token = Token(admitted: bool, queued: bool, once: bool, releases: nat)

  const FRESH: Token := Token(false, false, false, 0)

  /** `close`: the release function runs at most once, and only where one was staged. */
  function Closed(t: Token): Token {
    if t.once then t else t.(once := true, releases := if t.admitted then t.releases + 1 else t.releases)
  }

  /** `acked`: the ACK was written to the socket. */
  datatype Owner = Owner(session: nat, pc: Pc, token: Token, acked: bool, cleanup: Cleanup)

  /** The socket writer. The message of an owner carries the owner's number. */
  datatype Writer =
    | Idle
    | Writing(id: nat)
    | Wrote(id: nat)        // the write succeeded, before takeDecommissionReply
    | WriteFailed(id: nat)
    | Holding(id: nat)      // took the owner, before the context check
    | Cleaning(id: nat)
    | Closing(id: nat)      // the deferred close
    | Discarding(id: nat)   // took the owner after a failed write
    | Exited

  datatype Teardown =
    | Live                        // the connection's loops run
    | Joined                      // both loops have returned and the context is cancelled
    | Draining(owners: set<nat>)  // the map was swapped out; these are still to be closed
    | Between                     // done, possibly about to reconnect

  datatype Event = Ack(id: nat) | Begin(id: nat) | End(id: nat) | Release(id: nat)

  datatype State = State(
    owners: seq<Owner>,
    replies: set<nat>,       // decommissionReplies: the messages that still have an owner
    queue: set<nat>,         // ACKs in the control queue, which outlives a connection
    session: nat,            // the current connection
    cancelled: set<nat>,     // connections whose context is cancelled
    writer: Writer,
    teardown: Teardown,
    log: seq<Event>)

  const INITIAL: State := State([], {}, {}, 0, {}, Idle, Live, [])

  datatype Step =
    | Dispatch
    | Admit(id: nat) | Refuse(id: nat)
    | FirstCheck(id: nat) | CloseEarly(id: nat)
    | Register(id: nat)
    | SendOk(id: nat) | SendError(id: nat)
    | SecondCheck(id: nat)
    | TakeBack(id: nat) | DropClose(id: nat)
    | Leave(id: nat)
    | Dequeue(id: nat) | WriteOk | WriteError | TakeWritten | StartCheck | EndCleanup | WriterClose
    | TakeUnwritten | DiscardClose | WriterExit
    | Cancel | Join | Drain | DrainClose(id: nat) | DrainDone | Reconnect

  predicate Cancelled(s: State, i: nat)
    requires i < |s.owners|
  {
    s.owners[i].session in s.cancelled
  }

  predicate At(s: State, i: nat, pc: Pc) {
    i < |s.owners| && s.owners[i].pc == pc
  }

  predicate Enabled(s: State, step: Step) {
    match step
    case Dispatch => s.teardown.Live?
    case Admit(i) => At(s, i, Handling)
    case Refuse(i) => At(s, i, Handling)
    case FirstCheck(i) => At(s, i, Replying)
    case CloseEarly(i) => At(s, i, ClosingEarly)
    case Register(i) => At(s, i, Registering)
    case SendOk(i) => At(s, i, Registered)
    case SendError(i) => At(s, i, Registered)
    case SecondCheck(i) => At(s, i, Sent)
    case TakeBack(i) => At(s, i, Failed)
    case DropClose(i) => At(s, i, Dropping)
    case Leave(i) => At(s, i, Leaving)
    case Dequeue(i) => s.writer.Idle? && i in s.queue && i < |s.owners|
    case WriteOk => s.writer.Writing? && s.writer.id < |s.owners|
    case WriteError => s.writer.Writing?
    case TakeWritten => s.writer.Wrote?
    case StartCheck => s.writer.Holding? && s.writer.id < |s.owners|
    case EndCleanup => s.writer.Cleaning? && s.writer.id < |s.owners|
    case WriterClose => s.writer.Closing? && s.writer.id < |s.owners|
    case TakeUnwritten => s.writer.WriteFailed?
    case DiscardClose => s.writer.Discarding? && s.writer.id < |s.owners|
    case WriterExit => s.writer.Idle? && s.session in s.cancelled
    case Cancel => s.teardown.Live?
    case Join => s.teardown.Live? && s.writer.Exited?
    case Drain => s.teardown.Joined?
    case DrainClose(i) => s.teardown.Draining? && i in s.teardown.owners && i < |s.owners|
    case DrainDone => s.teardown == Draining({})
    case Reconnect => s.teardown.Between?
  }

  function SetOwner(s: State, i: nat, o: Owner): State
    requires i < |s.owners|
  {
    s.(owners := s.owners[i := o])
  }

  function Goto(s: State, i: nat, pc: Pc): State
    requires i < |s.owners|
  {
    SetOwner(s, i, s.owners[i].(pc := pc))
  }

  function SetToken(s: State, i: nat, token: Token): State
    requires i < |s.owners|
  {
    SetOwner(s, i, s.owners[i].(token := token))
  }

  /** `owner.close()`, with the call of the release function in the log. */
  function Close(s: State, i: nat): State
    requires i < |s.owners|
  {
    var token := s.owners[i].token;
    SetToken(s, i, Closed(token)).(log := if Closed(token).releases > token.releases then s.log + [Release(i)] else s.log)
  }

  function Apply(s: State, step: Step): State
    requires Enabled(s, step)
  {
    match step
    case Dispatch =>
      s.(owners := s.owners + [Owner(s.session, Handling, FRESH, false, NotBegun)])
    case Admit(i) => Goto(SetToken(s, i, s.owners[i].token.(admitted := true)), i, Replying)
    case Refuse(i) => Goto(s, i, Leaving)
    case FirstCheck(i) => Goto(s, i, if Cancelled(s, i) then ClosingEarly else Registering)
    case CloseEarly(i) => Goto(Close(s, i), i, Leaving)
    case Register(i) =>
      Goto(SetToken(s, i, s.owners[i].token.(queued := true)), i, Registered).(replies := s.replies + {i})
    case SendOk(i) => Goto(s, i, Sent).(queue := s.queue + {i})
    case SendError(i) => Goto(s, i, Failed)
    case SecondCheck(i) => Goto(s, i, if Cancelled(s, i) then Failed else Leaving)
    case TakeBack(i) => Goto(s, i, if i in s.replies then Dropping else Leaving).(replies := s.replies - {i})
    case DropClose(i) => Goto(Close(s, i), i, Leaving)
    case Leave(i) => Goto(if s.owners[i].token.queued then s else Close(s, i), i, Gone)
    case Dequeue(i) => s.(queue := s.queue - {i}, writer := Writing(i))
    case WriteOk =>
      var i := s.writer.id;
      SetOwner(s, i, s.owners[i].(acked := true)).(writer := Wrote(i), log := s.log + [Ack(i)])
    case WriteError => s.(writer := WriteFailed(s.writer.id))
    case TakeWritten =>
      s.(writer := if s.writer.id in s.replies then Holding(s.writer.id) else Idle, replies := s.replies - {s.writer.id})
    case StartCheck =>
      var i := s.writer.id;
      if Cancelled(s, i) then s.(writer := Closing(i))
      else SetOwner(s, i, s.owners[i].(cleanup := Begun)).(writer := Cleaning(i), log := s.log + [Begin(i)])
    case EndCleanup =>
      var i := s.writer.id;
      SetOwner(s, i, s.owners[i].(cleanup := Ended)).(writer := Closing(i), log := s.log + [End(i)])
    case WriterClose => Close(s, s.writer.id).(writer := Idle)
    case TakeUnwritten =>
      s.(writer := if s.writer.id in s.replies then Discarding(s.writer.id) else Exited, replies := s.replies - {s.writer.id})
    case DiscardClose => Close(s, s.writer.id).(writer := Exited)
    case WriterExit => s.(writer := Exited)
    case Cancel => s.(cancelled := s.cancelled + {s.session})
    case Join => s.(cancelled := s.cancelled + {s.session}, teardown := Joined)
    case Drain => s.(teardown := Draining(s.replies), replies := {})
    case DrainClose(i) => Close(s, i).(teardown := Draining(s.teardown.owners - {i}))
    case DrainDone => s.(teardown := Between)
    case Reconnect => s.(session := s.session + 1, writer := Idle, teardown := Live)
  }

  // ---- One owner's view of the state ----

  datatype Role = Away | RWriting | RWrote | RWriteFailed | RHolding | RCleaning | RClosing | RDiscarding

  function RoleOf(w: Writer, i: nat): Role {
    if w.Idle? || w.Exited? || w.id != i then Away
    else match w
      case Writing(_) => RWriting
      case Wrote(_) => RWrote
      case WriteFailed(_) => RWriteFailed
      case Holding(_) => RHolding
      case Cleaning(_) => RCleaning
      case Closing(_) => RClosing
      case Discarding(_) => RDiscarding
  }

  /** `live`: the owner's own connection has not been drained yet. */
  datatype View = View(owner: Owner, mapped: bool, enqueued: bool, drained: bool, role: Role, cancelled: bool, live: bool)

  function ViewOf(s: State, i: nat): View
    requires i < |s.owners|
  {
    View(s.owners[i], i in s.replies, i in s.queue, s.teardown.Draining? && i in s.teardown.owners,
         RoleOf(s.writer, i), Cancelled(s, i),
         s.owners[i].session == s.session && (s.teardown.Live? || s.teardown.Joined?))
  }

  predicate TokenWithWriter(v: View) {
    v.role.RHolding? || v.role.RCleaning? || v.role.RClosing? || v.role.RDiscarding?
  }

  predicate MessageWithWriter(v: View) {
    v.role.RWriting? || v.role.RWrote? || v.role.RWriteFailed?
  }

  /** How many of the four holders have the token: the map, the writer, the teardown, the handler. */
  function Holders(v: View): nat {
    (if v.mapped then 1 else 0) + (if TokenWithWriter(v) then 1 else 0)
    + (if v.drained then 1 else 0) + (if v.owner.pc.Dropping? then 1 else 0)
  }

  predicate BeforeRegistration(pc: Pc) {
    pc.Handling? || pc.Replying? || pc.ClosingEarly? || pc.Registering?
  }

  /** Linearity: a registered owner is held by exactly one actor until it is closed, and by none afterwards. */
  predicate TokenInv(v: View) {
    var o := v.owner;
    && Holders(v) == (if o.token.queued && !o.token.once then 1 else 0)
    && (BeforeRegistration(o.pc) ==> !o.token.queued && !o.token.once)
    && (o.pc.Registered? || o.pc.Sent? || o.pc.Failed? || o.pc.Dropping? ==> o.token.queued)
    && (o.pc.Gone? ==> o.token.queued || o.token.once)
    && (o.token.queued || o.pc.Replying? || o.pc.Registering? || o.pc.ClosingEarly? ==> o.token.admitted)
    && o.token.releases == (if o.token.once && o.token.admitted then 1 else 0)
  }

  /** Where the ACK is, and who may have taken the owner away from it. */
  predicate MessageInv(v: View) {
    var o := v.owner;
    && (BeforeRegistration(o.pc) || o.pc.Registered? || !o.token.queued ==> !v.enqueued && v.role.Away? && !o.acked)
    && (v.enqueued ==> v.role.Away? && !o.acked)
    && (v.role.RWriting? || v.role.RWriteFailed? || v.role.RDiscarding? ==> !o.acked)
    && (v.role.RWrote? || v.role.RHolding? || v.role.RCleaning? || v.role.RClosing? ==> o.acked)
    && ((o.pc.Registered? || v.enqueued || MessageWithWriter(v)) && !v.cancelled ==> v.mapped)
    && (o.pc.Failed? && (v.enqueued || MessageWithWriter(v)) ==> v.cancelled)
    && (v.mapped && (o.pc.Sent? || o.pc.Leaving? || o.pc.Gone?) ==> v.enqueued || MessageWithWriter(v))
    && (v.mapped && (o.pc.Leaving? || o.pc.Gone?) ==> v.live)
    && (!v.cancelled ==> v.live)
  }

  predicate CleanupInv(v: View) {
    var o := v.owner;
    && (v.role.RCleaning? <==> o.cleanup.Begun?)
    && (o.cleanup.Ended? ==> o.acked && (o.token.once || v.role.RClosing?))
    && (o.acked && !v.cancelled ==> v.role.RWrote? || v.role.RHolding? || !o.cleanup.NotBegun?)
  }

  predicate ViewInv(v: View) {
    TokenInv(v) && MessageInv(v) && CleanupInv(v)
  }

  ghost predicate WorldInv(s: State) {
    && (forall k: nat :: k < s.session ==> k in s.cancelled)
    && (forall k: nat :: k in s.cancelled ==> k <= s.session)
    && (!s.teardown.Live? ==> s.session in s.cancelled && s.writer.Exited?)
    && (forall i :: i in s.replies ==> i < |s.owners|)
    && (forall i :: i in s.queue ==> i < |s.owners|)
    && (s.teardown.Draining? ==> forall i :: i in s.teardown.owners ==> i < |s.owners|)
    && (!s.writer.Idle? && !s.writer.Exited? ==> s.writer.id < |s.owners|)
    && (forall i: nat :: i < |s.owners| ==> s.owners[i].session <= s.session)
  }

  ghost predicate Inv(s: State) {
    WorldInv(s) && forall i: nat :: i < |s.owners| ==> ViewInv(ViewOf(s, i))
  }

  // ---- Preservation ----

  predicate IsHandlerStep(step: Step) {
    step.Admit? || step.Refuse? || step.FirstCheck? || step.CloseEarly? || step.Register? || step.SendOk?
    || step.SendError? || step.SecondCheck? || step.TakeBack? || step.DropClose? || step.Leave?
  }

  predicate IsWriterStep(step: Step) {
    step.Dequeue? || step.WriteOk? || step.WriteError? || step.TakeWritten? || step.StartCheck? || step.EndCleanup?
    || step.WriterClose? || step.TakeUnwritten? || step.DiscardClose?
  }

  /** The owner a step is about; `None` for steps of the connection itself. */
  function ActsOn(s: State, step: Step): Option<nat>
    requires Enabled(s, step)
  {
    if IsHandlerStep(step) || step.Dequeue? || step.DrainClose? then Some(step.id)
    else if IsWriterStep(step) then Some(s.writer.id)
    else None
  }

  lemma OwnerChangeKeepsWorld(s: State, t: State)
    requires WorldInv(s)
    requires t == s.(owners := t.owners, replies := t.replies, queue := t.queue, log := t.log)
    requires |t.owners| == |s.owners| && forall i: nat :: i < |s.owners| ==> t.owners[i].session == s.owners[i].session
    requires forall i :: i in t.replies ==> i < |s.owners|
    requires forall i :: i in t.queue ==> i < |s.owners|
    ensures WorldInv(t)
  {
  }

  lemma HandlerKeepsWorld(s: State, step: Step)
    requires WorldInv(s) && Enabled(s, step) && IsHandlerStep(step)
    ensures WorldInv(Apply(s, step))
  {
    var t := Apply(s, step);
    assert t == s.(owners := t.owners, replies := t.replies, queue := t.queue, log := t.log);
    assert |t.owners| == |s.owners|;
    assert forall i: nat :: i < |s.owners| ==> t.owners[i].session == s.owners[i].session;
    assert t.replies <= s.replies + {step.id} && t.queue <= s.queue + {step.id};
    OwnerChangeKeepsWorld(s, t);
  }

  lemma WriterKeepsWorld(s: State, step: Step)
    requires WorldInv(s) && Enabled(s, step) && IsWriterStep(step)
    ensures WorldInv(Apply(s, step))
  {
  }

  lemma ConnectionKeepsWorld(s: State, step: Step)
    requires WorldInv(s) && Enabled(s, step) && !IsHandlerStep(step) && !IsWriterStep(step)
    ensures WorldInv(Apply(s, step))
  {
  }

  lemma HandlerKeepsView(s: State, step: Step)
    requires Inv(s) && Enabled(s, step) && IsHandlerStep(step)
    ensures ViewInv(ViewOf(Apply(s, step), step.id))
  {
    assert ViewInv(ViewOf(s, step.id));
  }

  lemma WriterKeepsView(s: State, step: Step)
    requires Inv(s) && Enabled(s, step) && IsWriterStep(step)
    ensures ViewInv(ViewOf(Apply(s, step), ActsOn(s, step).value))
  {
    assert ViewInv(ViewOf(s, ActsOn(s, step).value));
    if step.WriterClose? || step.DiscardClose? {
      WriterCloseKeepsView(s, step);
    } else if step.TakeWritten? || step.TakeUnwritten? {
      WriterTakeKeepsView(s, step);
    } else {
      WriterMoveKeepsView(s, step);
    }
  }

  lemma WriterCloseKeepsView(s: State, step: Step)
    requires Enabled(s, step) && (step.WriterClose? || step.DiscardClose?) && ViewInv(ViewOf(s, s.writer.id))
    ensures ViewInv(ViewOf(Apply(s, step), s.writer.id))
  {
  }

  lemma WriterTakeKeepsView(s: State, step: Step)
    requires Enabled(s, step) && (step.TakeWritten? || step.TakeUnwritten?)
    requires s.writer.id < |s.owners| && ViewInv(ViewOf(s, s.writer.id))
    ensures ViewInv(ViewOf(Apply(s, step), s.writer.id))
  {
  }

  lemma WriterMoveKeepsView(s: State, step: Step)
    requires Enabled(s, step) && IsWriterStep(step)
    requires step.Dequeue? || step.WriteOk? || step.WriteError? || step.StartCheck? || step.EndCleanup?
    requires ActsOn(s, step).value < |s.owners| && ViewInv(ViewOf(s, ActsOn(s, step).value))
    ensures ViewInv(ViewOf(Apply(s, step), ActsOn(s, step).value))
  {
  }

  lemma DrainCloseKeepsView(s: State, i: nat)
    requires Inv(s) && Enabled(s, DrainClose(i))
    ensures ViewInv(ViewOf(Apply(s, DrainClose(i)), i))
  {
    assert ViewInv(ViewOf(s, i));
  }

  /** A handler's step leaves every other owner's view as it is. */
  lemma OthersIgnoreHandler(s: State, step: Step, i: nat)
    requires Enabled(s, step) && IsHandlerStep(step) && i < |s.owners| && i != step.id
    ensures ViewOf(Apply(s, step), i) == ViewOf(s, i)
  {
    assert Apply(s, step).owners[i] == s.owners[i];
  }

  /** So does a step of the writer or of the teardown about one owner. */
  lemma OthersIgnoreWriter(s: State, step: Step, i: nat)
    requires WorldInv(s) && Enabled(s, step) && !IsHandlerStep(step) && i < |s.owners|
    requires ActsOn(s, step).Some? && ActsOn(s, step).value != i
    ensures ViewOf(Apply(s, step), i) == ViewOf(s, i)
  {
    assert Apply(s, step).owners[i] == s.owners[i];
  }

  /** A step of the connection itself keeps every owner's invariant. */
  lemma ConnectionKeepsView(s: State, step: Step, i: nat)
    requires Inv(s) && Enabled(s, step) && i < |s.owners| && ActsOn(s, step).None?
    ensures ViewInv(ViewOf(Apply(s, step), i))
  {
    assert ViewInv(ViewOf(s, i));
    var v, w := ViewOf(s, i), ViewOf(Apply(s, step), i);
    if step.Drain? {
      assert w.drained == v.mapped && !w.mapped && !v.drained;
    }
  }

  lemma StepKeepsViews(s: State, step: Step, i: nat)
    requires Inv(s) && Enabled(s, step) && i < |Apply(s, step).owners|
    ensures ViewInv(ViewOf(Apply(s, step), i))
  {
    if i == |s.owners| {
      var v := ViewOf(Apply(s, step), i);
      assert !v.mapped && !v.enqueued && !v.drained && v.role.Away?;
    } else if ActsOn(s, step).None? {
      ConnectionKeepsView(s, step, i);
    } else if ActsOn(s, step).value != i {
      if IsHandlerStep(step) { OthersIgnoreHandler(s, step, i); } else { OthersIgnoreWriter(s, step, i); }
      assert ViewInv(ViewOf(s, i));
    } else if IsHandlerStep(step) {
      HandlerKeepsView(s, step);
    } else if IsWriterStep(step) {
      WriterKeepsView(s, step);
    } else {
      DrainCloseKeepsView(s, i);
    }
  }

  lemma StepKeepsInv(s: State, step: Step)
    requires Inv(s) && Enabled(s, step)
    ensures Inv(Apply(s, step))
  {
    if IsHandlerStep(step) {
      HandlerKeepsWorld(s, step);
    } else if IsWriterStep(step) {
      WriterKeepsWorld(s, step);
    } else {
      ConnectionKeepsWorld(s, step);
    }
    forall i: nat | i < |Apply(s, step).owners| ensures ViewInv(ViewOf(Apply(s, step), i)) {
      StepKeepsViews(s, step, i);
    }
  }
}
