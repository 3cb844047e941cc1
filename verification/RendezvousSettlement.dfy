/** How every request and every call of a controller is settled, over all runs. */
module RendezvousSettlement {
  import opened Outcomes
  import opened Rendezvous
  import opened RendezvousInvariant
  import opened RendezvousTheorems
  import opened RendezvousReports

  // ---------------------------------------------------------------------------------------
  // Requests
  // ---------------------------------------------------------------------------------------

  /** The answer to `p` was written and its completion took `p` out of the slot. */
  predicate Answered(h: Heap, p: nat)
    requires IsPending(h, p)
  {
    var a := h.core.pendings[p].accepted;
    a.Some? && a.value < |h.deliveries| && (h.deliveries[a.value].stage == Freed(None) || h.deliveries[a.value].stage == Sent(None))
  }

  /** A request is in the slot, or has failed, or was answered. */
  predicate Settled(h: Heap, p: nat)
    requires IsPending(h, p)
  {
    Holds(h.core, p) || h.core.pendings[p].failure.Some? || Answered(h, p)
  }

  /** A delivery that was acknowledged has its acknowledgement waiting as long as its submitter waits for it. */
  predicate AckWaits(s: State, d: nat)
    requires d < |s.heap.deliveries|
  {
    s.heap.deliveries[d].stage.Sent? && PcOf(s, s.heap.deliveries[d].submitter) == AwaitingAck(d) ==> s.heap.deliveries[d].ack.Some?
  }

  ghost predicate AllSettled(s: State) {
    && (forall p :: 0 <= p < |s.heap.core.pendings| ==> Settled(s.heap, p))
    && (forall d :: 0 <= d < |s.heap.deliveries| ==> InHand(s, d))
    && (forall d :: 0 <= d < |s.heap.deliveries| ==> AckWaits(s, d))
  }

  lemma AnsweredKept(r: Rules, s: State, x: Step, p: nat)
    requires Inv(r, s) && Enabled(s, x) && HeapKept(s.heap, Apply(r, s, x).heap) && IsPending(s.heap, p) && Answered(s.heap, p)
    ensures IsPending(Apply(r, s, x).heap, p) && Answered(Apply(r, s, x).heap, p)
  {
    var d := s.heap.core.pendings[p].accepted.value;
    assert PendingKept(s.heap.core.pendings[p], Apply(r, s, x).heap.core.pendings[p]);
    if !x.Spawn? && !x.Expire? { assert ThreadOk(r, s.heap, x.t, s.threads[x.t].pc); }
  }

  /** Whatever leaves the slot has failed or was answered. */
  lemma LeavesSettled(r: Rules, s: State, x: Step, p: nat)
    requires Inv(r, s) && Enabled(s, x) && IsPending(s.heap, p) && Holds(s.heap.core, p)
    requires !Holds(Apply(r, s, x).heap.core, p)
    ensures IsPending(Apply(r, s, x).heap, p) && Settled(Apply(r, s, x).heap, p)
  {
    var pc := s.threads[x.t].pc;
    assert ThreadOk(r, s.heap, x.t, pc);
    if x.Complete? { assert DeliveryOk(r, s.heap, pc.d); }
  }

  lemma SettledStep(r: Rules, s: State, x: Step, p: nat)
    requires Inv(r, s) && Enabled(s, x) && HeapKept(s.heap, Apply(r, s, x).heap) && IsPending(s.heap, p) && Settled(s.heap, p)
    ensures IsPending(Apply(r, s, x).heap, p) && Settled(Apply(r, s, x).heap, p)
  {
    var s' := Apply(r, s, x);
    assert PendingKept(s.heap.core.pendings[p], s'.heap.core.pendings[p]);
    if Answered(s.heap, p) {
      AnsweredKept(r, s, x, p);
    } else if Holds(s.heap.core, p) && !Holds(s'.heap.core, p) {
      LeavesSettled(r, s, x, p);
    }
  }

  lemma NewIsHeld(r: Rules, s: State, x: Step, p: nat)
    requires Enabled(s, x) && |s.heap.core.pendings| <= p < |Apply(r, s, x).heap.core.pendings|
    ensures Holds(Apply(r, s, x).heap.core, p)
  {
  }

  /** Only its submitter receives a waiting acknowledgement. */
  lemma AckKept(r: Rules, s: State, x: Step, d: nat)
    requires Inv(r, s) && Enabled(s, x) && d < |s.heap.deliveries| && s.heap.deliveries[d].ack.Some?
    ensures d < |Apply(r, s, x).heap.deliveries|
    ensures Apply(r, s, x).heap.deliveries[d].ack.Some? || (x.AckReceive? && PcOf(s, x.t) == AwaitingAck(d))
  {
    if !x.Spawn? && !x.Expire? { assert ThreadOk(r, s.heap, x.t, s.threads[x.t].pc); }
  }

  /** Sending the outcome fills the acknowledgement. */
  lemma SendFillsAck(r: Rules, s: State, x: Step, d: nat)
    requires Inv(r, s) && Enabled(s, x) && d < |s.heap.deliveries| && !s.heap.deliveries[d].stage.Sent?
    ensures d < |Apply(r, s, x).heap.deliveries|
    ensures Apply(r, s, x).heap.deliveries[d].stage.Sent? ==> Apply(r, s, x).heap.deliveries[d].ack.Some?
  {
    if !x.Spawn? && !x.Expire? { assert ThreadOk(r, s.heap, x.t, s.threads[x.t].pc); }
  }

  /** A submitter waits for the acknowledgement only from its own offer on. */
  lemma StartsToWait(r: Rules, s: State, x: Step, d: nat, u: nat)
    requires Inv(r, s) && Enabled(s, x) && PcOf(Apply(r, s, x), u) == AwaitingAck(d) && PcOf(s, u) != AwaitingAck(d)
    ensures d < |s.heap.deliveries| && s.heap.deliveries[d].stage.Offered?
    ensures d < |Apply(r, s, x).heap.deliveries| && !Apply(r, s, x).heap.deliveries[d].stage.Sent?
  {
    if u < |s.threads| { assert ThreadOk(r, s.heap, u, s.threads[u].pc); }
    if !x.Spawn? && !x.Expire? { assert ThreadOk(r, s.heap, x.t, s.threads[x.t].pc); }
  }

  /** Whoever receives the acknowledgement of `d` is its submitter, and no longer waits for it. */
  lemma OwnAck(r: Rules, s: State, x: Step, d: nat)
    requires Inv(r, s) && Enabled(s, x) && d < |s.heap.deliveries| && x.AckReceive? && PcOf(s, x.t) == AwaitingAck(d)
    ensures x.t == s.heap.deliveries[d].submitter && PcOf(Apply(r, s, x), x.t) != AwaitingAck(d)
  {
    assert ThreadOk(r, s.heap, x.t, s.threads[x.t].pc);
  }

  lemma AckWaitsStep(r: Rules, s: State, x: Step, d: nat)
    requires Inv(r, s) && Enabled(s, x) && d < |s.heap.deliveries| && AckWaits(s, d)
    ensures d < |Apply(r, s, x).heap.deliveries| && AckWaits(Apply(r, s, x), d)
  {
    var s' := Apply(r, s, x);
    var u := s.heap.deliveries[d].submitter;
    assert d < |s'.heap.deliveries| && s'.heap.deliveries[d].submitter == u;
    if PcOf(s', u) == AwaitingAck(d) {
      if PcOf(s, u) != AwaitingAck(d) {
        StartsToWait(r, s, x, d, u);
      } else if !s.heap.deliveries[d].stage.Sent? {
        SendFillsAck(r, s, x, d);
      } else {
        AckKept(r, s, x, d);
        if x.AckReceive? && PcOf(s, x.t) == AwaitingAck(d) { OwnAck(r, s, x, d); }
      }
    }
  }

  lemma AllSettledStep(r: Rules, s: State, x: Step)
    requires Inv(r, s) && AllSettled(s) && Enabled(s, x)
    ensures AllSettled(Apply(r, s, x))
  {
    var s' := Apply(r, s, x);
    InvStep(r, s, x);
    forall p | 0 <= p < |s'.heap.core.pendings| ensures Settled(s'.heap, p) {
      if p < |s.heap.core.pendings| { SettledStep(r, s, x, p); } else { NewIsHeld(r, s, x, p); }
    }
    forall d | 0 <= d < |s'.heap.deliveries| ensures InHand(s', d) && AckWaits(s', d) {
      if d < |s.heap.deliveries| {
        InHandStep(r, s, x, d);
        AckWaitsStep(r, s, x, d);
      } else {
        NewDelivery(r, s, x, d);
      }
    }
  }

  lemma NewDelivery(r: Rules, s: State, x: Step, d: nat)
    requires Inv(r, s) && Enabled(s, x) && |s.heap.deliveries| <= d < |Apply(r, s, x).heap.deliveries|
    ensures InHand(Apply(r, s, x), d) && AckWaits(Apply(r, s, x), d)
  {
  }

  /** In every run, a request leaves the slot only by failing or by being answered. */
  lemma {:induction false} RequestsSettle(r: Rules, ss: seq<State>, xs: seq<Step>, n: nat)
    requires IsRun(r, ss, xs) && n < |ss|
    ensures AllSettled(ss[n])
  {
    if n > 0 {
      RequestsSettle(r, ss, xs, n - 1);
      RunInv(r, ss, xs, n - 1);
      AllSettledStep(r, ss[n - 1], xs[n - 1]);
    }
  }

  // ---------------------------------------------------------------------------------------
  // Nobody is left alone
  // ---------------------------------------------------------------------------------------

  /** An await that waits for an answer can still get one: its request is in the slot, or it has failed and the await can leave. */
  lemma AwaitIsReachable(r: Rules, ss: seq<State>, xs: seq<Step>, n: nat, t: nat)
    requires IsRun(r, ss, xs) && n < |ss| && PcOf(ss[n], t).AwaitSelect?
    ensures Holds(ss[n].heap.core, PcOf(ss[n], t).p) || Enabled(ss[n], AwaitFailed(t))
  {
    RunInv(r, ss, xs, n);
    RequestsSettle(r, ss, xs, n);
    var s, p := ss[n], PcOf(ss[n], t).p;
    assert ThreadOk(r, s.heap, t, s.threads[t].pc);
    assert Settled(s.heap, p) && AcceptedOk(s.heap, p);
    var a := s.heap.core.pendings[p].accepted;
    if a.Some? { assert InHand(s, a.value); }
  }

  /** A submitter whose counterpart has returned can return too: by the acknowledgement or by the failure. */
  lemma SubmitterNotOrphaned(r: Rules, ss: seq<State>, xs: seq<Step>, n: nat, t: nat)
    requires IsRun(r, ss, xs) && n < |ss| && InSubmitSelect(PcOf(ss[n], t))
    requires IsDelivery(ss[n].heap, PcOf(ss[n], t).d) && PcOf(ss[n], PendingOf(ss[n].heap, PcOf(ss[n], t).d).awaiter).AwaitDone?
    requires PcOf(ss[n], PendingOf(ss[n].heap, PcOf(ss[n], t).d).awaiter).registered == Some(ss[n].heap.deliveries[PcOf(ss[n], t).d].pending)
    ensures Enabled(ss[n], SubmitFailed(t)) || Enabled(ss[n], AckReceive(t))
  {
    RunInv(r, ss, xs, n);
    RequestsSettle(r, ss, xs, n);
    var s, d := ss[n], PcOf(ss[n], t).d;
    var p := s.heap.deliveries[d].pending;
    var a := s.heap.core.pendings[p].awaiter;
    assert ThreadOk(r, s.heap, t, s.threads[t].pc) && ThreadOk(r, s.heap, a, s.threads[a].pc);
    assert DeliveryOk(r, s.heap, d) && InHand(s, d) && AckWaits(s, d) && Settled(s.heap, p);
  }

  // ---------------------------------------------------------------------------------------
  // With which error a request fails
  // ---------------------------------------------------------------------------------------

  function Replaced(why: Option<Err>): Err {
    if why.Some? then why.value else NoLongerAvailable
  }

  /** A request fails only while it is in the slot, and the step that fails it gives it that step's own error. */
  lemma FailureHasItsCause(r: Rules, s: State, x: Step, p: nat)
    requires Inv(r, s) && Enabled(s, x) && IsPending(s.heap, p) && s.heap.core.pendings[p].failure.None?
    requires IsPending(Apply(r, s, x).heap, p) && Apply(r, s, x).heap.core.pendings[p].failure.Some?
    ensures Holds(s.heap.core, p) && !Holds(Apply(r, s, x).heap.core, p)
    ensures
      var e := Apply(r, s, x).heap.core.pendings[p].failure.value;
      match x
      case Invalidate(t) => PcOf(s, t).InvalidateStart? && e == Replaced(PcOf(s, t).why)
      case Close(t) => PcOf(s, t).CloseStart? && e == Replaced(PcOf(s, t).why)
      case AwaitRelease(t) => PcOf(s, t).AwaitReleasing? && PcOf(s, t).p == p && e == PcOf(s, t).cause
      case SubmitRelease(t) => PcOf(s, t).SubmitReleasing? && e == PcOf(s, t).cause
      case Complete(t) => PcOf(s, t).Completing? && PcOf(s, t).p == p && PcOf(s, t).err == Some(e)
      case _ => false
  {
  }

  // ---------------------------------------------------------------------------------------
  // What the calls answer
  // ---------------------------------------------------------------------------------------

  /** `p` is open to a submission. */
  ghost predicate Open(s: State, p: nat) {
    !s.heap.core.closed && IsPending(s.heap, p) && Holds(s.heap.core, p) && s.heap.core.pendings[p].accepted.None?
  }

  /** The pending request is shown exactly while it is in the slot of an open controller and nobody has claimed it. */
  lemma PeekShowsOpenRequest(r: Rules, s: State, t: nat, q: Request)
    requires Inv(r, s) && Enabled(s, Peek(t))
    ensures PcOf(Apply(r, s, Peek(t)), t) == SideDone(Some(q)) <==> exists p: nat :: Open(s, p) && s.heap.core.pendings[p].request == q
    ensures Apply(r, s, Peek(t)).heap == s.heap
  {
    if s.heap.core.slot.Some? { assert PendingOk(r, s.heap.core.pendings[s.heap.core.slot.value]); }
    if PcOf(Apply(r, s, Peek(t)), t) == SideDone(Some(q)) { assert Open(s, s.heap.core.slot.value); }
  }

  /** A submission is taken exactly when some request is open and accepts it; it is turned away with the reason otherwise. */
  lemma SubmitAnswers(r: Rules, s: State, t: nat)
    requires Inv(r, s) && Enabled(s, Accept(t))
    ensures
      var pc' := PcOf(Apply(r, s, Accept(t)), t);
      && (forall p: nat :: Open(s, p) && r.accepts(s.heap.core.pendings[p].request, PcOf(s, t).answer) ==> pc' == Offering(|s.heap.deliveries|))
      && (forall p: nat :: Open(s, p) && !r.accepts(s.heap.core.pendings[p].request, PcOf(s, t).answer) ==>
           pc' == SubmitDone(None, Some(AnswerRejected), Refused))
      && ((forall p: nat :: !Open(s, p)) ==> pc' == SubmitDone(None, Some(NotPending), Refused))
  {
    if s.heap.core.slot.Some? {
      var p := s.heap.core.slot.value;
      assert PendingOk(r, s.heap.core.pendings[p]);
      assert s.heap.core.pendings[p].accepted.None? ==> Open(s, p);
    }
  }

  /** A valid request is registered exactly when the controller is open and its slot free; it is turned away with the reason otherwise. */
  lemma AwaitAnswers(r: Rules, s: State, t: nat)
    requires Inv(r, s) && Enabled(s, Register(t))
    ensures
      var q, core, s' := PcOf(s, t).request, s.heap.core, Apply(r, s, Register(t));
      PcOf(s', t) ==
      if !r.valid(q) then AwaitDone(None, None, Some(RequestInvalid))
      else if core.closed then AwaitDone(None, None, Some(TransportClosed))
      else if core.slot.Some? then AwaitDone(None, None, Some(AlreadyPending))
      else AwaitSelect(|core.pendings|)
    ensures PcOf(Apply(r, s, Register(t)), t).AwaitSelect? ==>
      var p, s' := |s.heap.core.pendings|, Apply(r, s, Register(t));
      IsPending(s'.heap, p) && Holds(s'.heap.core, p) && s'.heap.core.pendings[p].request == PcOf(s, t).request && Open(s', p)
  {
  }

  /** In the strict controllers, whoever got past the entry did so before its context expired, and nobody else is ever accepted. */
  lemma {:induction false} StrictEntry(r: Rules, ss: seq<State>, xs: seq<Step>, n: nat, t: nat) returns (a: nat)
    requires IsRun(r, ss, xs) && n < |ss| && r.strict && PcOf(ss[n], t).SubmitReady?
    ensures a < n && a < |xs| && xs[a] == SubmitEnter(t) && CtxOf(ss[a], t).None?
  {
    a := n - 1;
    if PcOf(ss[n - 1], t).SubmitReady? { a := StrictEntry(r, ss, xs, n - 1, t); } else { EnterNow(r, ss[n - 1], xs[n - 1], t); }
  }

  lemma EnterNow(r: Rules, s: State, x: Step, t: nat)
    requires Enabled(s, x) && r.strict && PcOf(Apply(r, s, x), t).SubmitReady? && !PcOf(s, t).SubmitReady?
    ensures x == SubmitEnter(t) && CtxOf(s, t).None?
  {
  }

  /** Where the context is not checked on entry, or has not expired, a submission always gets past it. */
  lemma EntryAnswers(r: Rules, s: State, t: nat)
    requires Enabled(s, SubmitEnter(t))
    ensures
      PcOf(Apply(r, s, SubmitEnter(t)), t) ==
      if r.strict && CtxOf(s, t).Some? then SubmitDone(None, CtxOf(s, t), Refused) else SubmitReady(PcOf(s, t).answer)
  {
  }
}
