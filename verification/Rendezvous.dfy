/**
The one-slot rendezvous controller that pairs a child prompt with at most one client
submission (approval_transport.go, user_input_transport.go, cancellation_transport.go).

The three controllers differ in one flag, `strict`: user input and cancellation check the
submitter's context on entry and release the slot when it expires, approval does neither.
Every section under the controller's mutex is one atomic step, and every `select` is a choice
of the step label among the enabled ones. Any number of goroutines take part.
*/
module Rendezvous {
  import opened Outcomes

  type Request = string
  type Answer = string

  datatype Err =
    | NotPending
    | AnswerRejected
    | RequestInvalid
    | AlreadyPending
    | TransportClosed
    | NoLongerAvailable
    | Canceled
    | DeadlineExceeded
    | WriteFault(fault: string)
    | Other(text: string)

  /** What a controller is configured with: the two validators it is given, and the flag. */
  datatype Rules = Rules(valid: Request -> bool, accepts: (Request, Answer) -> bool, strict: bool)

  // ---------------------------------------------------------------------------------------
  // The state under the mutex, and the locked sections
  // ---------------------------------------------------------------------------------------

  /** `awaiter` and `accepted` are history: which goroutine registered it, which delivery claimed it. */
  datatype Pending = Pending(
    request: Request, awaiter: nat, submitted: bool, accepted: Option<nat>,
    failure: Option<Err>, closes: nat)

  /** `closes` counts how often a channel was closed: two would be a panic. */
  datatype Core = Core(pendings: seq<Pending>, slot: Option<nat>, closed: bool, closes: nat)

  const EMPTY_CORE := Core([], None, false, 0)

  predicate Holds(c: Core, p: nat) {
    c.slot == Some(p)
  }

  /** `fail`: the once-guarded close of the failure channel; a nil error is replaced. */
  function Fail(c: Core, p: nat, err: Option<Err>): Core
    requires p < |c.pendings|
  {
    var before := c.pendings[p];
    if before.failure.Some? then c
    else
      var e := if err.Some? then err.value else NoLongerAvailable;
      c.(pendings := c.pendings[p := before.(failure := Some(e), closes := before.closes + 1)])
  }

  function RegisterSection(c: Core, request: Request, awaiter: nat): (Core, Result<nat, Err>) {
    if c.closed then (c, Bad(TransportClosed))
    else if c.slot.Some? then (c, Bad(AlreadyPending))
    else
      var added := Pending(request, awaiter, false, None, None, 0);
      (c.(pendings := c.pendings + [added], slot := Some(|c.pendings|)), Ok(|c.pendings|))
  }

  function AcceptSection(r: Rules, c: Core, answer: Answer, delivery: nat): (Core, Result<nat, Err>)
    requires c.slot.Some? ==> c.slot.value < |c.pendings|
  {
    if c.closed || c.slot.None? || c.pendings[c.slot.value].submitted then (c, Bad(NotPending))
    else if !r.accepts(c.pendings[c.slot.value].request, answer) then (c, Bad(AnswerRejected))
    else
      var p := c.slot.value;
      (c.(pendings := c.pendings[p := c.pendings[p].(submitted := true, accepted := Some(delivery))]), Ok(p))
  }

  function CompleteSection(c: Core, p: nat): Core {
    if Holds(c, p) then c.(slot := None) else c
  }

  function FailSection(c: Core, p: nat, err: Option<Err>): Core
    requires p < |c.pendings|
  {
    if Holds(c, p) then Fail(c.(slot := None), p, err) else c
  }

  function InvalidateSection(c: Core, err: Option<Err>): Core
    requires c.slot.Some? ==> c.slot.value < |c.pendings|
  {
    if c.slot.Some? then Fail(c.(slot := None), c.slot.value, err) else c
  }

  function CloseSection(c: Core, err: Option<Err>): Core
    requires c.slot.Some? ==> c.slot.value < |c.pendings|
  {
    if c.closed then c
    else InvalidateSection(c, err).(closed := true, closes := c.closes + 1)
  }

  function PeekSection(c: Core): Option<Request>
    requires c.slot.Some? ==> c.slot.value < |c.pendings|
  {
    if c.closed || c.slot.None? || c.pendings[c.slot.value].submitted then None
    else Some(c.pendings[c.slot.value].request)
  }

  // ---------------------------------------------------------------------------------------
  // Goroutines
  // ---------------------------------------------------------------------------------------

  /** How far the awaiting side has taken a delivery; the error is the one given to `complete`. */
  datatype Stage = Offered | Held | Tried(err: Option<Err>) | Freed(err: Option<Err>) | Sent(err: Option<Err>)

  /** `ack` is the buffered channel of capacity one; the other fields but `answer` are history. */
  datatype Delivery = Delivery(
    answer: Answer, pending: nat, submitter: nat, stage: Stage, entry: Option<nat>, ack: Option<Option<Err>>)

  /** One attempt to write an answer to the child, `whole` when every byte was taken. */
  datatype Written = Written(pending: nat, delivery: nat, answer: Answer, whole: bool)

  datatype Exit = ByAck | ByFailure | ByClose | ByContext | Refused

  datatype Pc =
    // awaitDecision / awaitResponse / registerScope + awaitRegisteredIntent, then the relay's write and complete
    | AwaitStart(request: Request)
    | AwaitSelect(p: nat)
    | AwaitReleasing(p: nat, cause: Err)
    | Holding(p: nat, d: nat)
    | Completing(p: nat, d: nat, err: Option<Err>)
    | Acking(p: nat, d: nat, err: Option<Err>)
    | AwaitDone(registered: Option<nat>, got: Option<nat>, result: Option<Err>)
    // submit
    | SubmitStart(answer: Answer)
    | SubmitReady(answer: Answer)
    | Offering(d: nat)
    | AwaitingAck(d: nat)
    | SubmitReleasing(d: nat, cause: Err)
    | SubmitDone(sent: Option<nat>, result: Option<Err>, exit: Exit)
    // invalidate, close, pendingRequest
    | InvalidateStart(why: Option<Err>)
    | CloseStart(why: Option<Err>)
    | PeekStart
    | SideDone(seen: Option<Request>)

  /** A goroutine and the error of its context, if that is done. */
  datatype Thread = Thread(pc: Pc, ctx: Option<Err>)

  /** Everything shared: the controller, the deliveries in flight, and what was written to the child. */
  datatype Heap = Heap(core: Core, deliveries: seq<Delivery>, log: seq<Written>)

  datatype State = State(heap: Heap, threads: seq<Thread>)

  const INITIAL := State(Heap(EMPTY_CORE, [], []), [])

  datatype Step =
    | Spawn(pc: Pc)
    | Expire(t: nat, cause: Err)
    | Register(t: nat)
    | Handoff(t: nat, awaiter: nat)
    | AwaitFailed(t: nat)
    | AwaitClosed(t: nat)
    | AwaitExpired(t: nat)
    | AwaitRelease(t: nat)
    | Write(t: nat, fault: Option<Err>)
    | Complete(t: nat)
    | AckSend(t: nat)
    | SubmitEnter(t: nat)
    | Accept(t: nat)
    | SubmitFailed(t: nat)
    | SubmitClosed(t: nat)
    | SubmitExpired(t: nat)
    | SubmitRelease(t: nat)
    | AckReceive(t: nat)
    | Invalidate(t: nat)
    | Close(t: nat)
    | Peek(t: nat)

  predicate StartPc(pc: Pc) {
    pc.AwaitStart? || pc.SubmitStart? || pc.InvalidateStart? || pc.CloseStart? || pc.PeekStart?
  }

  predicate Finished(pc: Pc) {
    pc.AwaitDone? || pc.SubmitDone? || pc.SideDone?
  }

  /** The delivery a submitter waits on in one of its two selects. */
  predicate InSubmitSelect(pc: Pc) {
    pc.Offering? || pc.AwaitingAck?
  }

  // ---------------------------------------------------------------------------------------
  // Steps
  // ---------------------------------------------------------------------------------------

  function PcOf(s: State, t: nat): Pc {
    if t < |s.threads| then s.threads[t].pc else SideDone(None)
  }

  function CtxOf(s: State, t: nat): Option<Err> {
    if t < |s.threads| then s.threads[t].ctx else None
  }

  /** References held by goroutines denote existing objects; the invariant keeps these three true. */
  predicate IsPending(h: Heap, p: nat) {
    p < |h.core.pendings|
  }

  predicate IsDelivery(h: Heap, d: nat) {
    d < |h.deliveries| && IsPending(h, h.deliveries[d].pending)
  }

  predicate SlotOk(c: Core) {
    c.slot.Some? ==> c.slot.value < |c.pendings|
  }

  function PendingOf(h: Heap, d: nat): Pending
    requires IsDelivery(h, d)
  {
    h.core.pendings[h.deliveries[d].pending]
  }

  /** Whether step `x` may happen now. Only `Handoff` needs the cooperation of a second goroutine. */
  predicate Enabled(s: State, x: Step) {
    var h := s.heap;
    match x
    case Spawn(pc) => StartPc(pc)
    case Expire(t, cause) => t < |s.threads| && CtxOf(s, t).None? && (cause.Canceled? || cause.DeadlineExceeded?)
    case Register(t) => PcOf(s, t).AwaitStart?
    case Handoff(t, u) =>
      && PcOf(s, t).Offering? && PcOf(s, u).AwaitSelect?
      && IsDelivery(h, PcOf(s, t).d) && h.deliveries[PcOf(s, t).d].pending == PcOf(s, u).p
    case AwaitFailed(t) =>
      PcOf(s, t).AwaitSelect? && IsPending(h, PcOf(s, t).p) && h.core.pendings[PcOf(s, t).p].failure.Some?
    case AwaitClosed(t) => PcOf(s, t).AwaitSelect? && h.core.closes > 0
    case AwaitExpired(t) => PcOf(s, t).AwaitSelect? && CtxOf(s, t).Some?
    case AwaitRelease(t) => PcOf(s, t).AwaitReleasing? && IsPending(h, PcOf(s, t).p)
    case Write(t, _) => PcOf(s, t).Holding? && IsDelivery(h, PcOf(s, t).d)
    case Complete(t) => PcOf(s, t).Completing? && IsDelivery(h, PcOf(s, t).d) && IsPending(h, PcOf(s, t).p)
    case AckSend(t) => PcOf(s, t).Acking? && IsDelivery(h, PcOf(s, t).d) && h.deliveries[PcOf(s, t).d].ack.None?
    case SubmitEnter(t) => PcOf(s, t).SubmitStart?
    case Accept(t) => PcOf(s, t).SubmitReady? && SlotOk(h.core)
    case SubmitFailed(t) =>
      InSubmitSelect(PcOf(s, t)) && IsDelivery(h, PcOf(s, t).d) && PendingOf(h, PcOf(s, t).d).failure.Some?
    case SubmitClosed(t) => InSubmitSelect(PcOf(s, t)) && h.core.closes > 0
    case SubmitExpired(t) => InSubmitSelect(PcOf(s, t)) && CtxOf(s, t).Some?
    case SubmitRelease(t) => PcOf(s, t).SubmitReleasing? && IsDelivery(h, PcOf(s, t).d)
    case AckReceive(t) => PcOf(s, t).AwaitingAck? && IsDelivery(h, PcOf(s, t).d) && h.deliveries[PcOf(s, t).d].ack.Some?
    case Invalidate(t) => PcOf(s, t).InvalidateStart? && SlotOk(h.core)
    case Close(t) => PcOf(s, t).CloseStart? && SlotOk(h.core)
    case Peek(t) => PcOf(s, t).PeekStart? && SlotOk(h.core)
  }

  // What each step does to the shared objects.

  function HandoffHeap(h: Heap, d: nat): Heap
    requires d < |h.deliveries|
  {
    h.(deliveries := h.deliveries[d := h.deliveries[d].(stage := Held)])
  }

  function AcceptHeap(h: Heap, core: Core, answer: Answer, p: nat, t: nat): Heap {
    h.(core := core, deliveries := h.deliveries + [Delivery(answer, p, t, Offered, None, None)])
  }

  function WriteHeap(h: Heap, p: nat, d: nat, fault: Option<Err>): Heap
    requires d < |h.deliveries|
  {
    h.(log := h.log + [Written(p, d, h.deliveries[d].answer, fault.None?)],
       deliveries := h.deliveries[d := h.deliveries[d].(stage := Tried(fault), entry := Some(|h.log|))])
  }

  /** The locked section inside `complete`. */
  function CompleteHeap(h: Heap, p: nat, d: nat, err: Option<Err>): Heap
    requires d < |h.deliveries| && p < |h.core.pendings|
  {
    h.(core := if err.Some? then FailSection(h.core, p, err) else CompleteSection(h.core, p),
       deliveries := h.deliveries[d := h.deliveries[d].(stage := Freed(err))])
  }

  function AckSendHeap(h: Heap, d: nat, err: Option<Err>): Heap
    requires d < |h.deliveries|
  {
    h.(deliveries := h.deliveries[d := h.deliveries[d].(stage := Sent(err), ack := Some(err))])
  }

  function AckReceiveHeap(h: Heap, d: nat): Heap
    requires d < |h.deliveries|
  {
    h.(deliveries := h.deliveries[d := h.deliveries[d].(ack := None)])
  }

  function ReleaseHeap(h: Heap, p: nat, cause: Err): Heap
    requires p < |h.core.pendings|
  {
    h.(core := FailSection(h.core, p, Some(cause)))
  }

  /** The new heap, and the new program counter of the goroutine that took the step. */
  function Act(r: Rules, s: State, x: Step): (Heap, Pc)
    requires Enabled(s, x) && !x.Spawn? && !x.Expire?
  {
    var h, pc := s.heap, s.threads[x.t].pc;
    match x
    case Register(t) =>
      if !r.valid(pc.request) then (h, AwaitDone(None, None, Some(RequestInvalid)))
      else
        var (core', outcome) := RegisterSection(h.core, pc.request, t);
        if outcome.Ok? then (h.(core := core'), AwaitSelect(outcome.value))
        else (h, AwaitDone(None, None, Some(outcome.error)))
    case Handoff(t, u) => (HandoffHeap(h, pc.d), AwaitingAck(pc.d))
    case AwaitFailed(t) => (h, AwaitDone(Some(pc.p), None, h.core.pendings[pc.p].failure))
    case AwaitClosed(t) => (h, AwaitDone(Some(pc.p), None, Some(TransportClosed)))
    case AwaitExpired(t) => (h, AwaitReleasing(pc.p, s.threads[t].ctx.value))
    case AwaitRelease(t) => (ReleaseHeap(h, pc.p, pc.cause), AwaitDone(Some(pc.p), None, Some(pc.cause)))
    case Write(t, fault) => (WriteHeap(h, pc.p, pc.d, fault), Completing(pc.p, pc.d, fault))
    case Complete(t) => (CompleteHeap(h, pc.p, pc.d, pc.err), Acking(pc.p, pc.d, pc.err))
    case AckSend(t) => (AckSendHeap(h, pc.d, pc.err), AwaitDone(Some(pc.p), Some(pc.d), pc.err))
    case SubmitEnter(t) =>
      if r.strict && s.threads[t].ctx.Some? then (h, SubmitDone(None, s.threads[t].ctx, Refused))
      else (h, SubmitReady(pc.answer))
    case Accept(t) =>
      var (core', outcome) := AcceptSection(r, h.core, pc.answer, |h.deliveries|);
      if outcome.Ok? then (AcceptHeap(h, core', pc.answer, outcome.value, t), Offering(|h.deliveries|))
      else (h, SubmitDone(None, Some(outcome.error), Refused))
    case SubmitFailed(t) => (h, SubmitDone(Some(pc.d), PendingOf(h, pc.d).failure, ByFailure))
    case SubmitClosed(t) => (h, SubmitDone(Some(pc.d), Some(TransportClosed), ByClose))
    case SubmitExpired(t) =>
      var cause := s.threads[t].ctx.value;
      if r.strict then (h, SubmitReleasing(pc.d, cause)) else (h, SubmitDone(Some(pc.d), Some(cause), ByContext))
    case SubmitRelease(t) =>
      (ReleaseHeap(h, h.deliveries[pc.d].pending, pc.cause), SubmitDone(Some(pc.d), Some(pc.cause), ByContext))
    case AckReceive(t) => (AckReceiveHeap(h, pc.d), SubmitDone(Some(pc.d), h.deliveries[pc.d].ack.value, ByAck))
    case Invalidate(t) => (h.(core := InvalidateSection(h.core, pc.why)), SideDone(None))
    case Close(t) => (h.(core := CloseSection(h.core, pc.why)), SideDone(None))
    case Peek(t) => (h, SideDone(PeekSection(h.core)))
  }

  function At(threads: seq<Thread>, t: nat, pc: Pc): seq<Thread>
    requires t < |threads|
  {
    threads[t := threads[t].(pc := pc)]
  }

  function Apply(r: Rules, s: State, x: Step): State
    requires Enabled(s, x)
  {
    if x.Spawn? then s.(threads := s.threads + [Thread(x.pc, None)])
    else if x.Expire? then s.(threads := s.threads[x.t := s.threads[x.t].(ctx := Some(x.cause))])
    else
      var (h', pc') := Act(r, s, x);
      var moved := At(s.threads, x.t, pc');
      // the unbuffered channel: sender and receiver move together
      State(h', if x.Handoff? then At(moved, x.awaiter, Holding(s.threads[x.awaiter].pc.p, s.threads[x.t].pc.d)) else moved)
  }

  // ---------------------------------------------------------------------------------------
  // Runs
  // ---------------------------------------------------------------------------------------

  /** `ss` are the states visited by taking the steps `xs` in order. */
  ghost predicate IsPath(r: Rules, ss: seq<State>, xs: seq<Step>) {
    && |ss| == |xs| + 1
    && forall k :: 0 <= k < |xs| ==> Enabled(ss[k], xs[k]) && ss[k + 1] == Apply(r, ss[k], xs[k])
  }

  /** A path from the freshly made controller. */
  ghost predicate IsRun(r: Rules, ss: seq<State>, xs: seq<Step>) {
    IsPath(r, ss, xs) && ss[0] == INITIAL
  }
}
