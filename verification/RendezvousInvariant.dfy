/** The inductive invariant of the rendezvous controller, and what no step ever undoes. */
module RendezvousInvariant {
  import opened Outcomes
  import opened Rendezvous

  // ---------------------------------------------------------------------------------------
  // The invariant
  // ---------------------------------------------------------------------------------------

  predicate PendingOk(r: Rules, p: Pending) {
    && r.valid(p.request)
    && p.submitted == p.accepted.Some?
    && p.closes == (if p.failure.Some? then 1 else 0)
  }

  /** A closed controller has an empty slot, a failed pending is never in it, no channel closes twice. */
  predicate CoreOk(r: Rules, c: Core) {
    && (c.slot.Some? ==> c.slot.value < |c.pendings| && c.pendings[c.slot.value].failure.None? && !c.closed)
    && c.closes == (if c.closed then 1 else 0)
    && forall p :: 0 <= p < |c.pendings| ==> PendingOk(r, c.pendings[p])
  }

  predicate Attempted(stage: Stage) {
    stage.Tried? || stage.Freed? || stage.Sent?
  }

  predicate DeliveryOk(r: Rules, h: Heap, d: nat)
    requires d < |h.deliveries|
  {
    var x := h.deliveries[d];
    && x.pending < |h.core.pendings|
    && h.core.pendings[x.pending].accepted == Some(d)
    && r.accepts(h.core.pendings[x.pending].request, x.answer)
    && (x.ack.Some? ==> x.stage == Sent(x.ack.value))
    && (x.stage.Freed? || x.stage.Sent? ==> !Holds(h.core, x.pending))
    && (Attempted(x.stage) <==> x.entry.Some?)
    && (x.entry.Some? ==> x.entry.value < |h.log| && h.log[x.entry.value].delivery == d)
  }

  predicate AcceptedOk(h: Heap, p: nat)
    requires p < |h.core.pendings|
  {
    var a := h.core.pendings[p].accepted;
    a.Some? ==> a.value < |h.deliveries| && h.deliveries[a.value].pending == p
  }

  predicate EntryOk(h: Heap, k: nat)
    requires k < |h.log|
  {
    var w := h.log[k];
    && w.delivery < |h.deliveries|
    && h.deliveries[w.delivery].entry == Some(k)
    && h.deliveries[w.delivery].pending == w.pending
    && h.deliveries[w.delivery].answer == w.answer
    && Attempted(h.deliveries[w.delivery].stage)
    && w.whole == h.deliveries[w.delivery].stage.err.None?
  }

  predicate HeapOk(r: Rules, h: Heap) {
    && CoreOk(r, h.core)
    && (forall d :: 0 <= d < |h.deliveries| ==> DeliveryOk(r, h, d))
    && (forall p :: 0 <= p < |h.core.pendings| ==> AcceptedOk(h, p))
    && (forall k :: 0 <= k < |h.log| ==> EntryOk(h, k))
  }

  predicate Awaits(h: Heap, t: nat, p: nat) {
    p < |h.core.pendings| && h.core.pendings[p].awaiter == t
  }

  predicate Carries(h: Heap, t: nat, p: nat, d: nat, stage: Stage) {
    && Awaits(h, t, p)
    && d < |h.deliveries|
    && h.deliveries[d].pending == p
    && h.deliveries[d].stage == stage
  }

  predicate Submits(h: Heap, t: nat, d: nat) {
    IsDelivery(h, d) && h.deliveries[d].submitter == t
  }

  /** An exited submission no longer occupies the slot, but for approval's context exit. */
  predicate Released(r: Rules, h: Heap, d: nat, exit: Exit) {
    d < |h.deliveries| && (Holds(h.core, h.deliveries[d].pending) ==> !r.strict && exit.ByContext?)
  }

  predicate ThreadOk(r: Rules, h: Heap, t: nat, pc: Pc) {
    match pc
    case AwaitSelect(p) => Awaits(h, t, p)
    case AwaitReleasing(p, _) => Awaits(h, t, p)
    case Holding(p, d) => Carries(h, t, p, d, Held)
    case Completing(p, d, err) => Carries(h, t, p, d, Tried(err))
    case Acking(p, d, err) => Carries(h, t, p, d, Freed(err))
    case AwaitDone(registered, got, result) =>
      && (registered.Some? ==> Awaits(h, t, registered.value) && !Holds(h.core, registered.value))
      && (got.Some? ==> registered.Some? && Carries(h, t, registered.value, got.value, Sent(result)))
      && (got.None? ==> result.Some?)
    case Offering(d) => Submits(h, t, d) && h.deliveries[d].stage.Offered?
    case AwaitingAck(d) => Submits(h, t, d) && !h.deliveries[d].stage.Offered?
    case SubmitReleasing(d, _) => r.strict && Submits(h, t, d)
    case SubmitDone(sent, result, exit) =>
      && (sent.Some? ==> Submits(h, t, sent.value) && Released(r, h, sent.value, exit))
      && (result.None? ==> exit.ByAck?)
      && (exit.ByAck? ==> sent.Some? && sent.value < |h.deliveries| && h.deliveries[sent.value].stage == Sent(result))
    case _ => true
  }

  predicate Inv(r: Rules, s: State) {
    && HeapOk(r, s.heap)
    && forall t :: 0 <= t < |s.threads| ==> ThreadOk(r, s.heap, t, s.threads[t].pc)
  }

  // ---------------------------------------------------------------------------------------
  // What never goes back
  // ---------------------------------------------------------------------------------------

  predicate PendingKept(p: Pending, p': Pending) {
    && p'.request == p.request
    && p'.awaiter == p.awaiter
    && (p.accepted.Some? ==> p'.accepted == p.accepted)
    && (p.failure.Some? ==> p'.failure == p.failure)
  }

  predicate DeliveryKept(d: Delivery, d': Delivery) {
    && d'.answer == d.answer
    && d'.pending == d.pending
    && d'.submitter == d.submitter
    && (d'.stage.Offered? ==> d.stage.Offered?)
    && (d.stage.Sent? ==> d'.stage == d.stage)
  }

  /**
   Requests, answers, accepted deliveries and failure errors are fixed once set; the log of writes
   only grows; a closed controller stays closed; a pending that left the slot never returns to it.
   */
  predicate HeapKept(h: Heap, h': Heap) {
    && |h.core.pendings| <= |h'.core.pendings|
    && (forall p :: 0 <= p < |h.core.pendings| ==> PendingKept(h.core.pendings[p], h'.core.pendings[p]))
    && |h.deliveries| <= |h'.deliveries|
    && (forall d :: 0 <= d < |h.deliveries| ==> DeliveryKept(h.deliveries[d], h'.deliveries[d]))
    && h.log <= h'.log
    && (h.core.closed ==> h'.core.closed)
    && (h'.core.slot.Some? && h'.core.slot != h.core.slot ==> |h.core.pendings| <= h'.core.slot.value)
  }

  /** A stage changes only at the hands of the goroutine that awaits the pending (`a`), or in a hand-off by `b`. */
  predicate StageLocal(h: Heap, h': Heap, a: nat, b: nat) {
    forall d :: 0 <= d < |h.deliveries| && d < |h'.deliveries| && h'.deliveries[d].stage != h.deliveries[d].stage ==>
      && IsDelivery(h, d) && PendingOf(h, d).awaiter == a
      && (h.deliveries[d].stage.Offered? ==> h.deliveries[d].submitter == b)
  }

  /** A goroutine that takes no part in a step stays well placed. */
  lemma Undisturbed(r: Rules, h: Heap, h': Heap, a: nat, b: nat, u: nat, pc: Pc)
    requires ThreadOk(r, h, u, pc) && HeapKept(h, h') && StageLocal(h, h', a, b) && u != a && u != b
    ensures ThreadOk(r, h', u, pc)
  {
  }

  // ---------------------------------------------------------------------------------------
  // Each change of the shared objects keeps the invariant
  // ---------------------------------------------------------------------------------------

  ghost predicate GoodChange(r: Rules, h: Heap, h': Heap, a: nat, b: nat) {
    HeapOk(r, h') && HeapKept(h, h') && StageLocal(h, h', a, b)
  }

  lemma GoodRegister(r: Rules, h: Heap, request: Request, t: nat)
    requires HeapOk(r, h) && r.valid(request)
    ensures GoodChange(r, h, h.(core := RegisterSection(h.core, request, t).0), t, t)
  {
    var h' := h.(core := RegisterSection(h.core, request, t).0);
    forall d | 0 <= d < |h'.deliveries| ensures DeliveryOk(r, h', d) { assert DeliveryOk(r, h, d); }
    forall p | 0 <= p < |h'.core.pendings| ensures AcceptedOk(h', p) {
      if p < |h.core.pendings| { assert AcceptedOk(h, p); }
    }
    forall k | 0 <= k < |h'.log| ensures EntryOk(h', k) { assert EntryOk(h, k); }
  }

  /** Any change that only empties the slot and fails pendings that are out of it. */
  lemma GoodCore(r: Rules, h: Heap, core': Core, t: nat)
    requires HeapOk(r, h) && CoreOk(r, core')
    requires |core'.pendings| == |h.core.pendings|
    requires forall p :: 0 <= p < |core'.pendings| ==>
      PendingKept(h.core.pendings[p], core'.pendings[p]) && core'.pendings[p].accepted == h.core.pendings[p].accepted
    requires core'.slot.None? || core'.slot == h.core.slot
    requires h.core.closed ==> core'.closed
    ensures GoodChange(r, h, h.(core := core'), t, t)
  {
    var h' := h.(core := core');
    forall d | 0 <= d < |h'.deliveries| ensures DeliveryOk(r, h', d) { assert DeliveryOk(r, h, d); }
    forall p | 0 <= p < |h'.core.pendings| ensures AcceptedOk(h', p) { assert AcceptedOk(h, p); }
    forall k | 0 <= k < |h'.log| ensures EntryOk(h', k) { assert EntryOk(h, k); }
  }

  lemma GoodRelease(r: Rules, h: Heap, p: nat, err: Option<Err>, t: nat)
    requires HeapOk(r, h) && IsPending(h, p)
    ensures GoodChange(r, h, h.(core := FailSection(h.core, p, err)), t, t)
    ensures !Holds(FailSection(h.core, p, err), p)
  {
    assert PendingOk(r, h.core.pendings[p]);
    GoodCore(r, h, FailSection(h.core, p, err), t);
  }

  lemma GoodInvalidate(r: Rules, h: Heap, err: Option<Err>, t: nat)
    requires HeapOk(r, h)
    ensures GoodChange(r, h, h.(core := InvalidateSection(h.core, err)), t, t)
  {
    if h.core.slot.Some? { assert PendingOk(r, h.core.pendings[h.core.slot.value]); }
    GoodCore(r, h, InvalidateSection(h.core, err), t);
  }

  lemma GoodClose(r: Rules, h: Heap, err: Option<Err>, t: nat)
    requires HeapOk(r, h)
    ensures GoodChange(r, h, h.(core := CloseSection(h.core, err)), t, t)
  {
    if h.core.slot.Some? { assert PendingOk(r, h.core.pendings[h.core.slot.value]); }
    GoodCore(r, h, CloseSection(h.core, err), t);
  }

  lemma GoodAccept(r: Rules, h: Heap, answer: Answer, t: nat)
    requires HeapOk(r, h) && AcceptSection(r, h.core, answer, |h.deliveries|).1.Ok?
    ensures
      var (core', outcome) := AcceptSection(r, h.core, answer, |h.deliveries|);
      GoodChange(r, h, AcceptHeap(h, core', answer, outcome.value, t), t, t)
  {
    var (core', outcome) := AcceptSection(r, h.core, answer, |h.deliveries|);
    var p := outcome.value;
    var h' := AcceptHeap(h, core', answer, p, t);
    assert PendingOk(r, h.core.pendings[p]) && AcceptedOk(h, p);
    forall d | 0 <= d < |h'.deliveries| ensures DeliveryOk(r, h', d) {
      if d < |h.deliveries| { assert DeliveryOk(r, h, d); }
    }
    forall q | 0 <= q < |h'.core.pendings| ensures AcceptedOk(h', q) { assert AcceptedOk(h, q); }
    forall k | 0 <= k < |h'.log| ensures EntryOk(h', k) { assert EntryOk(h, k); }
    assert CoreOk(r, core');
  }

  /** A change of one delivery's stage, entry or ack that keeps every clause about that delivery. */
  lemma GoodDelivery(r: Rules, h: Heap, d: nat, x: Delivery, t: nat, b: nat)
    requires HeapOk(r, h) && d < |h.deliveries|
    requires DeliveryKept(h.deliveries[d], x)
    requires x.entry == h.deliveries[d].entry
    requires Attempted(x.stage) <==> Attempted(h.deliveries[d].stage)
    requires Attempted(x.stage) ==> x.stage.err == h.deliveries[d].stage.err
    requires x.ack.Some? ==> x.stage == Sent(x.ack.value)
    requires x.stage.Freed? || x.stage.Sent? ==> !Holds(h.core, x.pending)
    requires x.stage != h.deliveries[d].stage ==>
      IsDelivery(h, d) && PendingOf(h, d).awaiter == t && (h.deliveries[d].stage.Offered? ==> x.submitter == b)
    ensures GoodChange(r, h, h.(deliveries := h.deliveries[d := x]), t, b)
  {
    var h' := h.(deliveries := h.deliveries[d := x]);
    forall e | 0 <= e < |h'.deliveries| ensures DeliveryOk(r, h', e) { assert DeliveryOk(r, h, e); }
    forall p | 0 <= p < |h'.core.pendings| ensures AcceptedOk(h', p) { assert AcceptedOk(h, p); }
    forall k | 0 <= k < |h'.log| ensures EntryOk(h', k) { assert EntryOk(h, k); }
  }

  lemma GoodWrite(r: Rules, h: Heap, p: nat, d: nat, fault: Option<Err>, t: nat)
    requires HeapOk(r, h) && Carries(h, t, p, d, Held)
    ensures GoodChange(r, h, WriteHeap(h, p, d, fault), t, t)
  {
    var h' := WriteHeap(h, p, d, fault);
    forall e | 0 <= e < |h'.deliveries| ensures DeliveryOk(r, h', e) { assert DeliveryOk(r, h, e); }
    forall q | 0 <= q < |h'.core.pendings| ensures AcceptedOk(h', q) { assert AcceptedOk(h, q); }
    forall k | 0 <= k < |h'.log| ensures EntryOk(h', k) {
      if k < |h.log| { assert EntryOk(h, k); }
    }
  }

  lemma GoodComplete(r: Rules, h: Heap, p: nat, d: nat, err: Option<Err>, t: nat)
    requires HeapOk(r, h) && Carries(h, t, p, d, Tried(err))
    ensures GoodChange(r, h, CompleteHeap(h, p, d, err), t, t)
  {
    var core' := if err.Some? then FailSection(h.core, p, err) else CompleteSection(h.core, p);
    var h1 := h.(core := core');
    if err.Some? { GoodRelease(r, h, p, err, t); } else { GoodCore(r, h, core', t); }
    assert DeliveryOk(r, h1, d);
    GoodDelivery(r, h1, d, h1.deliveries[d].(stage := Freed(err)), t, t);
    assert CompleteHeap(h, p, d, err) == h1.(deliveries := h1.deliveries[d := h1.deliveries[d].(stage := Freed(err))]);
  }

  // ---------------------------------------------------------------------------------------
  // Every step keeps the invariant
  // ---------------------------------------------------------------------------------------

  /** The goroutine whose stage privileges a step uses: the awaiting one in a hand-off. */
  function Actor(x: Step): nat
    requires !x.Spawn? && !x.Expire?
  {
    if x.Handoff? then x.awaiter else x.t
  }

  ghost predicate GoodAct(r: Rules, s: State, x: Step)
    requires Enabled(s, x) && !x.Spawn? && !x.Expire?
  {
    var (h', pc') := Act(r, s, x);
    GoodChange(r, s.heap, h', Actor(x), x.t) && ThreadOk(r, h', x.t, pc')
  }

  lemma SameHeap(r: Rules, h: Heap, a: nat, b: nat)
    requires HeapOk(r, h)
    ensures GoodChange(r, h, h, a, b)
  {
  }

  lemma AwaitSideActs(r: Rules, s: State, x: Step)
    requires Inv(r, s) && Enabled(s, x)
    requires x.Register? || x.AwaitFailed? || x.AwaitClosed? || x.AwaitExpired? || x.AwaitRelease?
    ensures GoodAct(r, s, x)
  {
    var h, pc := s.heap, s.threads[x.t].pc;
    assert ThreadOk(r, h, x.t, pc);
    SameHeap(r, h, x.t, x.t);
    match x
    case Register(t) => if r.valid(pc.request) { GoodRegister(r, h, pc.request, t); }
    case AwaitRelease(t) => GoodRelease(r, h, pc.p, Some(pc.cause), t);
    case _ =>
  }

  lemma WritingActs(r: Rules, s: State, x: Step)
    requires Inv(r, s) && Enabled(s, x)
    requires x.Write? || x.Complete? || x.AckSend?
    ensures GoodAct(r, s, x)
  {
    var h, pc := s.heap, s.threads[x.t].pc;
    assert ThreadOk(r, h, x.t, pc);
    match x
    case Write(t, fault) => GoodWrite(r, h, pc.p, pc.d, fault, t);
    case Complete(t) => GoodComplete(r, h, pc.p, pc.d, pc.err, t);
    case AckSend(t) =>
      assert DeliveryOk(r, h, pc.d);
      GoodDelivery(r, h, pc.d, h.deliveries[pc.d].(stage := Sent(pc.err), ack := Some(pc.err)), t, t);
  }

  lemma SubmitSideActs(r: Rules, s: State, x: Step)
    requires Inv(r, s) && Enabled(s, x)
    requires x.SubmitEnter? || x.Accept? || x.SubmitFailed? || x.SubmitClosed? || x.SubmitExpired? || x.SubmitRelease?
    ensures GoodAct(r, s, x)
  {
    var h, pc := s.heap, s.threads[x.t].pc;
    assert ThreadOk(r, h, x.t, pc);
    SameHeap(r, h, x.t, x.t);
    match x
    case Accept(t) =>
      if AcceptSection(r, h.core, pc.answer, |h.deliveries|).1.Ok? { GoodAccept(r, h, pc.answer, t); }
    case SubmitRelease(t) => GoodRelease(r, h, h.deliveries[pc.d].pending, Some(pc.cause), t);
    case _ =>
  }

  lemma ChannelActs(r: Rules, s: State, x: Step)
    requires Inv(r, s) && Enabled(s, x)
    requires x.Handoff? || x.AckReceive?
    ensures GoodAct(r, s, x)
  {
    var h, pc := s.heap, s.threads[x.t].pc;
    assert ThreadOk(r, h, x.t, pc);
    assert DeliveryOk(r, h, pc.d);
    match x
    case Handoff(t, u) =>
      assert ThreadOk(r, h, u, s.threads[u].pc);
      GoodDelivery(r, h, pc.d, h.deliveries[pc.d].(stage := Held), u, t);
    case AckReceive(t) => GoodDelivery(r, h, pc.d, h.deliveries[pc.d].(ack := None), t, t);
  }

  lemma OtherActs(r: Rules, s: State, x: Step)
    requires Inv(r, s) && Enabled(s, x)
    requires x.Invalidate? || x.Close? || x.Peek?
    ensures GoodAct(r, s, x)
  {
    var h, pc := s.heap, s.threads[x.t].pc;
    match x
    case Invalidate(t) => GoodInvalidate(r, h, pc.why, t);
    case Close(t) => GoodClose(r, h, pc.why, t);
    case Peek(t) => SameHeap(r, h, t, t);
  }

  lemma Acts(r: Rules, s: State, x: Step)
    requires Inv(r, s) && Enabled(s, x) && !x.Spawn? && !x.Expire?
    ensures GoodAct(r, s, x)
  {
    if x.Register? || x.AwaitFailed? || x.AwaitClosed? || x.AwaitExpired? || x.AwaitRelease? {
      AwaitSideActs(r, s, x);
    } else if x.Write? || x.Complete? || x.AckSend? {
      WritingActs(r, s, x);
    } else if x.Handoff? || x.AckReceive? {
      ChannelActs(r, s, x);
    } else if x.Invalidate? || x.Close? || x.Peek? {
      OtherActs(r, s, x);
    } else {
      SubmitSideActs(r, s, x);
    }
  }

  lemma InvStep(r: Rules, s: State, x: Step)
    requires Inv(r, s) && Enabled(s, x)
    ensures Inv(r, Apply(r, s, x))
    ensures HeapKept(s.heap, Apply(r, s, x).heap)
  {
    var s' := Apply(r, s, x);
    if x.Spawn? || x.Expire? {
      SameHeap(r, s.heap, 0, 0);
      forall u | 0 <= u < |s'.threads| ensures ThreadOk(r, s'.heap, u, s'.threads[u].pc) {
        if u < |s.threads| { assert ThreadOk(r, s.heap, u, s.threads[u].pc); }
      }
    } else {
      Acts(r, s, x);
      forall u | 0 <= u < |s'.threads| ensures ThreadOk(r, s'.heap, u, s'.threads[u].pc) {
        assert ThreadOk(r, s.heap, u, s.threads[u].pc);
        if u != x.t && u != Actor(x) {
          Undisturbed(r, s.heap, s'.heap, Actor(x), x.t, u, s.threads[u].pc);
        }
      }
    }
  }

  // ---------------------------------------------------------------------------------------
  // Who occupies the slot
  // ---------------------------------------------------------------------------------------

  /** Goroutine `pc` is between registering `p` and leaving the section that frees it. */
  predicate Minds(pc: Pc, p: nat) {
    match pc
    case AwaitSelect(q) => q == p
    case AwaitReleasing(q, _) => q == p
    case Holding(q, _) => q == p
    case Completing(q, _, _) => q == p
    case _ => false
  }

  /** Whatever is in the slot, the goroutine that registered it is still minding it. */
  predicate SlotMinded(s: State) {
    var c := s.heap.core;
    c.slot.Some? ==>
      && c.slot.value < |c.pendings|
      && c.pendings[c.slot.value].awaiter < |s.threads|
      && Minds(s.threads[c.pendings[c.slot.value].awaiter].pc, c.slot.value)
  }

  lemma SlotMindedStep(r: Rules, s: State, x: Step)
    requires Inv(r, s) && SlotMinded(s) && Enabled(s, x)
    ensures SlotMinded(Apply(r, s, x))
  {
    var s' := Apply(r, s, x);
    InvStep(r, s, x);
    if s'.heap.core.slot.Some? && s'.heap.core.slot == s.heap.core.slot {
      var p := s.heap.core.slot.value;
      assert PendingKept(s.heap.core.pendings[p], s'.heap.core.pendings[p]);
      var a := s.heap.core.pendings[p].awaiter;
      assert ThreadOk(r, s'.heap, a, s'.threads[a].pc);
      MinderStays(r, s, x, p);
    }
  }

  lemma MinderStays(r: Rules, s: State, x: Step, p: nat)
    requires Inv(r, s) && Enabled(s, x) && p < |s.heap.core.pendings|
    requires s.heap.core.pendings[p].awaiter < |s.threads| && Minds(s.threads[s.heap.core.pendings[p].awaiter].pc, p)
    requires Holds(s.heap.core, p) && Holds(Apply(r, s, x).heap.core, p)
    ensures Minds(Apply(r, s, x).threads[s.heap.core.pendings[p].awaiter].pc, p)
  {
    var a := s.heap.core.pendings[p].awaiter;
    assert ThreadOk(r, s.heap, a, s.threads[a].pc);
  }
}
