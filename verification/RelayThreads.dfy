/** What the relay has to know about one step of one of its controllers. */
module RelayThreads {
  import opened Outcomes
  import opened Rendezvous
  import RendezvousInvariant

  /** A goroutine of the awaiting side; when it has ended without an error, it had an answer. */
  predicate AwaitPc(pc: Pc) {
    match pc
    case AwaitStart(_) => true
    case AwaitSelect(_) => true
    case AwaitReleasing(_, _) => true
    case Holding(_, _) => true
    case Completing(_, _, _) => true
    case Acking(_, _, _) => true
    case AwaitDone(registered, got, result) => (got.None? ==> result.Some?) && (got.Some? ==> registered.Some?)
    case _ => false
  }

  /** Whether the goroutine has tried to write its answer, and if so with which result. */
  datatype Track = Before | After(p: nat, d: nat, err: Option<Err>)

  function TrackOf(pc: Pc): Track {
    match pc
    case Completing(p, d, err) => After(p, d, err)
    case Acking(p, d, err) => After(p, d, err)
    case AwaitDone(Some(p), Some(d), err) => After(p, d, err)
    case _ => Before
  }

  predicate RequestIs(h: Heap, p: nat, request: Request) {
    p < |h.core.pendings| && h.core.pendings[p].request == request
  }

  /** The goroutine awaits an answer to `request` and to nothing else. */
  predicate AwaitsFor(h: Heap, pc: Pc, request: Request) {
    match pc
    case AwaitStart(q) => q == request
    case AwaitSelect(p) => RequestIs(h, p, request)
    case AwaitReleasing(p, _) => RequestIs(h, p, request)
    case Holding(p, _) => RequestIs(h, p, request)
    case Completing(p, _, _) => RequestIs(h, p, request)
    case Acking(p, _, _) => RequestIs(h, p, request)
    case AwaitDone(registered, _, _) => registered.Some? ==> RequestIs(h, registered.value, request)
    case _ => false
  }

  /** How goroutine `t` may change in one step, when `w` is the goroutine that wrote in it. */
  ghost predicate Follows(c: State, c': State, t: nat, w: Option<nat>)
    requires t < |c.threads| <= |c'.threads|
  {
    var pc, pc' := c.threads[t].pc, c'.threads[t].pc;
    AwaitPc(pc) ==>
      && AwaitPc(pc')
      && (pc.AwaitDone? ==> pc' == pc)
      && (w != Some(t) || TrackOf(pc).After? ==> TrackOf(pc') == TrackOf(pc))
      && forall q :: AwaitsFor(c.heap, pc, q) ==> AwaitsFor(c'.heap, pc', q)
  }

  ghost predicate Advances(c: State, c': State, w: Option<nat>) {
    && |c.threads| <= |c'.threads|
    && (forall t :: 0 <= t < |c.threads| ==> Follows(c, c', t, w))
    && |c.heap.deliveries| <= |c'.heap.deliveries|
    && (forall d :: 0 <= d < |c.heap.deliveries| ==> c'.heap.deliveries[d].answer == c.heap.deliveries[d].answer)
  }

  function Writer(x: Step): Option<nat> {
    if x.Write? then Some(x.t) else None
  }

  ghost predicate RequestsKept(h: Heap, h': Heap) {
    && |h.core.pendings| <= |h'.core.pendings|
    && forall p :: 0 <= p < |h.core.pendings| ==> h'.core.pendings[p].request == h.core.pendings[p].request
  }

  lemma StepKeepsRequests(r: Rules, s: State, x: Step)
    requires RendezvousInvariant.Inv(r, s) && Enabled(s, x)
    ensures RequestsKept(s.heap, Apply(r, s, x).heap)
  {
    RendezvousInvariant.InvStep(r, s, x);
    var s' := Apply(r, s, x);
    forall p | 0 <= p < |s.heap.core.pendings| ensures s'.heap.core.pendings[p].request == s.heap.core.pendings[p].request {
      assert RendezvousInvariant.PendingKept(s.heap.core.pendings[p], s'.heap.core.pendings[p]);
    }
  }

  lemma StillAwaits(h: Heap, h': Heap, pc: Pc, q: Request)
    requires RequestsKept(h, h') && AwaitsFor(h, pc, q)
    ensures AwaitsFor(h', pc, q)
  {
  }

  /** The steps an awaiting goroutine takes itself. */
  lemma ActorFollows(r: Rules, s: State, x: Step, t: nat)
    requires Enabled(s, x) && !x.Spawn? && !x.Expire? && !x.Handoff? && x.t == t && AwaitPc(s.threads[t].pc)
    requires RequestsKept(s.heap, Apply(r, s, x).heap)
    ensures Follows(s, Apply(r, s, x), t, Writer(x))
  {
    var s' := Apply(r, s, x);
    var pc, pc' := s.threads[t].pc, s'.threads[t].pc;
    forall q | AwaitsFor(s.heap, pc, q) ensures AwaitsFor(s'.heap, pc', q) {
      StillAwaits(s.heap, s'.heap, pc, q);
    }
  }

  lemma ThreadFollows(r: Rules, s: State, x: Step, t: nat)
    requires RendezvousInvariant.Inv(r, s) && Enabled(s, x) && t < |s.threads|
    ensures |s.threads| <= |Apply(r, s, x).threads|
    ensures Follows(s, Apply(r, s, x), t, Writer(x))
  {
    var s' := Apply(r, s, x);
    StepKeepsRequests(r, s, x);
    var pc := s.threads[t].pc;
    if AwaitPc(pc) {
      if !x.Spawn? && !x.Expire? && !x.Handoff? && x.t == t {
        ActorFollows(r, s, x, t);
      } else if !(x.Handoff? && x.awaiter == t) {
        assert s'.threads[t].pc == pc;
        forall q | AwaitsFor(s.heap, pc, q) ensures AwaitsFor(s'.heap, pc, q) { StillAwaits(s.heap, s'.heap, pc, q); }
      } else {
        forall q | AwaitsFor(s.heap, pc, q) ensures AwaitsFor(s'.heap, pc, q) { StillAwaits(s.heap, s'.heap, pc, q); }
      }
    }
  }

  lemma StepAdvances(r: Rules, s: State, x: Step)
    requires RendezvousInvariant.Inv(r, s) && Enabled(s, x)
    ensures Advances(s, Apply(r, s, x), Writer(x))
  {
    var s' := Apply(r, s, x);
    forall t | 0 <= t < |s.threads| ensures Follows(s, s', t, Writer(x)) { ThreadFollows(r, s, x, t); }
    RendezvousInvariant.InvStep(r, s, x);
    forall d | 0 <= d < |s.heap.deliveries| ensures s'.heap.deliveries[d].answer == s.heap.deliveries[d].answer {
      assert RendezvousInvariant.DeliveryKept(s.heap.deliveries[d], s'.heap.deliveries[d]);
    }
  }
}
