/** When a submitter learns that its answer was delivered. */
module RendezvousReports {
  import opened Outcomes
  import opened Rendezvous
  import opened RendezvousInvariant
  import opened RendezvousTheorems

  /** The child was sent the whole answer of delivery `d`. */
  ghost predicate WroteWhole(h: Heap, d: nat) {
    exists k :: WroteAt(h, d, k)
  }

  predicate WroteAt(h: Heap, d: nat, k: nat) {
    k < |h.log| && h.log[k].delivery == d && h.log[k].whole
  }

  /** If goroutine `t` is back from a submission that was delivered in full, it was told nil. */
  ghost predicate Reported(s: State, t: nat) {
    t < |s.threads| && s.threads[t].pc.SubmitDone? && s.threads[t].pc.sent.Some? && WroteWhole(s.heap, s.threads[t].pc.sent.value) ==>
      s.threads[t].pc.result.None?
  }

  // ---------------------------------------------------------------------------------------
  // How a submission exits
  // ---------------------------------------------------------------------------------------

  predicate ExitOk(s: State, t: nat)
    requires t < |s.threads|
  {
    match s.threads[t].pc
    case SubmitReleasing(_, cause) => s.threads[t].ctx == Some(cause)
    case SubmitDone(sent, result, exit) =>
      sent.Some? ==>
        && !exit.Refused?
        && (exit.ByClose? ==> s.heap.core.closed && result == Some(TransportClosed))
        && (exit.ByFailure? ==>
             IsDelivery(s.heap, sent.value) && result.Some? && result == PendingOf(s.heap, sent.value).failure)
        && (exit.ByContext? ==> result.Some? && result == s.threads[t].ctx)
    case AwaitReleasing(_, cause) => s.threads[t].ctx == Some(cause)
    case AwaitDone(registered, got, result) =>
      registered.Some? && got.None? ==>
        || (IsPending(s.heap, registered.value) && result.Some? && result == s.heap.core.pendings[registered.value].failure)
        || (s.heap.core.closed && result == Some(TransportClosed))
        || (result.Some? && result == s.threads[t].ctx)
    case _ => true
  }

  ghost predicate ExitsOk(s: State) {
    forall t :: 0 <= t < |s.threads| ==> ExitOk(s, t)
  }

  lemma ExitMover(r: Rules, s: State, x: Step)
    requires Inv(r, s) && Enabled(s, x) && !x.Spawn? && !x.Expire? && ExitOk(s, x.t)
    ensures ExitOk(Apply(r, s, x), x.t)
  {
    assert ThreadOk(r, s.heap, x.t, s.threads[x.t].pc);
  }

  lemma ExitOther(r: Rules, s: State, x: Step, u: nat)
    requires Inv(r, s) && Enabled(s, x) && HeapKept(s.heap, Apply(r, s, x).heap)
    requires u < |s.threads| && ExitOk(s, u) && (x.Spawn? || x.Expire? || x.t != u)
    ensures ExitOk(Apply(r, s, x), u)
  {
    var pc := s.threads[u].pc;
    assert ThreadOk(r, s.heap, u, pc);
    if pc.AwaitDone? && pc.registered.Some? && IsPending(s.heap, pc.registered.value) {
      assert PendingKept(s.heap.core.pendings[pc.registered.value], Apply(r, s, x).heap.core.pendings[pc.registered.value]);
    }
    if pc.SubmitDone? && pc.sent.Some? {
      var p := s.heap.deliveries[pc.sent.value].pending;
      assert DeliveryKept(s.heap.deliveries[pc.sent.value], Apply(r, s, x).heap.deliveries[pc.sent.value]);
      assert PendingKept(s.heap.core.pendings[p], Apply(r, s, x).heap.core.pendings[p]);
    }
  }

  lemma ExitsStep(r: Rules, s: State, x: Step)
    requires Inv(r, s) && Enabled(s, x) && ExitsOk(s)
    ensures ExitsOk(Apply(r, s, x))
  {
    InvStep(r, s, x);
    var s' := Apply(r, s, x);
    forall u | 0 <= u < |s'.threads| ensures ExitOk(s', u) {
      if u < |s.threads| {
        assert ExitOk(s, u);
        if !x.Spawn? && !x.Expire? && x.t == u { ExitMover(r, s, x); } else { ExitOther(r, s, x, u); }
      }
    }
  }

  // ---------------------------------------------------------------------------------------
  // Where a delivery is, and why a pending has failed
  // ---------------------------------------------------------------------------------------

  /** The goroutine at `pc` has received delivery `d` of pending `p`. */
  predicate Received(pc: Pc, p: nat, d: nat) {
    match pc
    case Holding(q, e) => q == p && e == d
    case Completing(q, e, _) => q == p && e == d
    case Acking(q, e, _) => q == p && e == d
    case AwaitDone(registered, got, _) => registered == Some(p) && got == Some(d)
    case _ => false
  }

  /** A delivery that was handed over is in the hands of the goroutine that awaits its pending. */
  predicate InHand(s: State, d: nat)
    requires d < |s.heap.deliveries|
  {
    !s.heap.deliveries[d].stage.Offered? ==>
      && IsDelivery(s.heap, d)
      && PendingOf(s.heap, d).awaiter < |s.threads|
      && Received(s.threads[PendingOf(s.heap, d).awaiter].pc, s.heap.deliveries[d].pending, d)
  }

  /** The awaiting goroutine gave up before anything was handed over. */
  predicate GaveUp(s: State, p: nat)
    requires IsPending(s.heap, p)
  {
    var a := s.heap.core.pendings[p].awaiter;
    a < |s.threads| && s.threads[a].pc.AwaitDone? && s.threads[a].pc.registered == Some(p) && s.threads[a].pc.got.None?
  }

  /** The accepted delivery of `p` was tried, and the write did not go through. */
  predicate WriteFailed(h: Heap, p: nat)
    requires IsPending(h, p)
  {
    var a := h.core.pendings[p].accepted;
    a.Some? && a.value < |h.deliveries| && Attempted(h.deliveries[a.value].stage) && h.deliveries[a.value].stage.err.Some?
  }

  /** The submitter of the accepted delivery of `p` has an expired context. */
  predicate SubmitterExpired(s: State, p: nat)
    requires IsPending(s.heap, p)
  {
    var a := s.heap.core.pendings[p].accepted;
    a.Some? && a.value < |s.heap.deliveries| && CtxOf(s, s.heap.deliveries[a.value].submitter).Some?
  }

  predicate Explained(s: State, p: nat)
    requires IsPending(s.heap, p)
  {
    s.heap.core.pendings[p].failure.Some? ==> GaveUp(s, p) || WriteFailed(s.heap, p) || SubmitterExpired(s, p)
  }

  /** What holds as long as nobody invalidates or closes. */
  ghost predicate Undisrupted(s: State) {
    && !s.heap.core.closed
    && (forall d :: 0 <= d < |s.heap.deliveries| ==> InHand(s, d))
    && (forall p :: 0 <= p < |s.heap.core.pendings| ==> Explained(s, p))
  }

  lemma InHandStep(r: Rules, s: State, x: Step, d: nat)
    requires Inv(r, s) && Enabled(s, x) && HeapKept(s.heap, Apply(r, s, x).heap)
    requires d < |s.heap.deliveries| && InHand(s, d)
    ensures InHand(Apply(r, s, x), d)
  {
    var s' := Apply(r, s, x);
    assert DeliveryOk(r, s.heap, d);
    var p := s.heap.deliveries[d].pending;
    assert DeliveryKept(s.heap.deliveries[d], s'.heap.deliveries[d]) && PendingKept(s.heap.core.pendings[p], s'.heap.core.pendings[p]);
    if !x.Spawn? && !x.Expire? {
      assert ThreadOk(r, s.heap, x.t, s.threads[x.t].pc);
      if x.Handoff? { assert ThreadOk(r, s.heap, x.awaiter, s.threads[x.awaiter].pc); }
    }
  }

  /** A step by another goroutine, or one that is none of a controller's, keeps every explanation. */
  lemma ExplainedKept(r: Rules, s: State, x: Step, p: nat)
    requires Inv(r, s) && Enabled(s, x) && HeapKept(s.heap, Apply(r, s, x).heap)
    requires IsPending(s.heap, p) && Explained(s, p) && s.heap.core.pendings[p].failure.Some?
    ensures IsPending(Apply(r, s, x).heap, p) && Explained(Apply(r, s, x), p)
  {
    var s' := Apply(r, s, x);
    var h, h' := s.heap, s'.heap;
    assert PendingKept(h.core.pendings[p], h'.core.pendings[p]);
    if GaveUp(s, p) {
      DoneStays(r, s, x, h.core.pendings[p].awaiter);
    } else if WriteFailed(h, p) {
      StageKept(r, s, x, h.core.pendings[p].accepted.value);
    } else if SubmitterExpired(s, p) {
      var d := h.core.pendings[p].accepted.value;
      assert DeliveryKept(h.deliveries[d], h'.deliveries[d]);
      ContextStays(r, s, x, h.deliveries[d].submitter);
    }
  }

  lemma DoneStays(r: Rules, s: State, x: Step, t: nat)
    requires Enabled(s, x) && t < |s.threads| && s.threads[t].pc.AwaitDone?
    ensures t < |Apply(r, s, x).threads| && Apply(r, s, x).threads[t].pc == s.threads[t].pc
  {
  }

  lemma ContextStays(r: Rules, s: State, x: Step, t: nat)
    requires Enabled(s, x) && CtxOf(s, t).Some?
    ensures CtxOf(Apply(r, s, x), t) == CtxOf(s, t)
  {
  }

  /** A write attempt's outcome stays. */
  lemma StageKept(r: Rules, s: State, x: Step, d: nat)
    requires Inv(r, s) && Enabled(s, x) && d < |s.heap.deliveries| && Attempted(s.heap.deliveries[d].stage)
    ensures d < |Apply(r, s, x).heap.deliveries|
    ensures Attempted(Apply(r, s, x).heap.deliveries[d].stage)
    ensures Apply(r, s, x).heap.deliveries[d].stage.err == s.heap.deliveries[d].stage.err
  {
    if !x.Spawn? && !x.Expire? { assert ThreadOk(r, s.heap, x.t, s.threads[x.t].pc); }
  }

  /** The steps that fail a pending, apart from invalidate and close, leave its explanation behind. */
  lemma NewFailureExplained(r: Rules, s: State, x: Step, p: nat)
    requires Inv(r, s) && ExitsOk(s) && Enabled(s, x) && !x.Invalidate? && !x.Close?
    requires IsPending(s.heap, p) && s.heap.core.pendings[p].failure.None?
    requires IsPending(Apply(r, s, x).heap, p) && Apply(r, s, x).heap.core.pendings[p].failure.Some?
    ensures Explained(Apply(r, s, x), p)
  {
    var pc := s.threads[x.t].pc;
    assert ThreadOk(r, s.heap, x.t, pc) && ExitOk(s, x.t);
    if x.Complete? {
      assert DeliveryOk(r, s.heap, pc.d);
    } else if x.SubmitRelease? {
      assert DeliveryOk(r, s.heap, pc.d);
    }
  }

  lemma UndisruptedStep(r: Rules, s: State, x: Step)
    requires Inv(r, s) && ExitsOk(s) && Undisrupted(s) && Enabled(s, x) && !x.Invalidate? && !x.Close?
    ensures Undisrupted(Apply(r, s, x))
  {
    var s' := Apply(r, s, x);
    InvStep(r, s, x);
    forall d | 0 <= d < |s'.heap.deliveries| ensures InHand(s', d) {
      if d < |s.heap.deliveries| { InHandStep(r, s, x, d); } else { DeliveriesGrowByAccept(r, s, x, d); }
    }
    forall p | 0 <= p < |s'.heap.core.pendings| ensures Explained(s', p) {
      if p < |s.heap.core.pendings| && s.heap.core.pendings[p].failure.Some? {
        ExplainedKept(r, s, x, p);
      } else if p < |s.heap.core.pendings| && s'.heap.core.pendings[p].failure.Some? {
        NewFailureExplained(r, s, x, p);
      }
    }
  }

  // ---------------------------------------------------------------------------------------
  // The theorem
  // ---------------------------------------------------------------------------------------

  /** The three ways in which goroutine `t` can be kept from the news: close, invalidate, its own context. */
  predicate Disrupts(x: Step, t: nat) {
    x.Close? || x.Invalidate? || (x.Expire? && x.t == t)
  }

  lemma {:induction false} ExitsAlways(r: Rules, ss: seq<State>, xs: seq<Step>, n: nat)
    requires IsRun(r, ss, xs) && n < |ss|
    ensures ExitsOk(ss[n])
  {
    if n > 0 {
      ExitsAlways(r, ss, xs, n - 1);
      RunInv(r, ss, xs, n - 1);
      ExitsStep(r, ss[n - 1], xs[n - 1]);
    }
  }

  lemma {:induction false} QuietRun(r: Rules, ss: seq<State>, xs: seq<Step>, n: nat, t: nat)
    requires IsRun(r, ss, xs) && n < |ss| && forall a :: 0 <= a < n ==> !Disrupts(xs[a], t)
    ensures Undisrupted(ss[n]) && CtxOf(ss[n], t).None?
  {
    if n > 0 {
      QuietRun(r, ss, xs, n - 1, t);
      RunInv(r, ss, xs, n - 1);
      ExitsAlways(r, ss, xs, n - 1);
      assert !Disrupts(xs[n - 1], t);
      UndisruptedStep(r, ss[n - 1], xs[n - 1]);
    }
  }

  /** In a state that nobody disrupted, a delivered answer was reported. */
  lemma QuietReports(r: Rules, s: State, t: nat)
    requires Inv(r, s) && ExitsOk(s) && Undisrupted(s) && CtxOf(s, t).None?
    ensures Reported(s, t)
  {
    if t < |s.threads| && s.threads[t].pc.SubmitDone? && s.threads[t].pc.sent.Some? && WroteWhole(s.heap, s.threads[t].pc.sent.value) {
      var pc := s.threads[t].pc;
      var d := pc.sent.value;
      assert ThreadOk(r, s.heap, t, pc) && ExitOk(s, t);
      var k :| WroteAt(s.heap, d, k);
      assert EntryOk(s.heap, k) && DeliveryOk(r, s.heap, d) && InHand(s, d);
      assert Explained(s, s.heap.deliveries[d].pending);
    }
  }

  /**
   In every run: a submitter whose answer was written in full and who was told anything but nil had its own
   context expire, or somebody invalidated or closed the controller, before it returned.
   */
  lemma UnreportedHasACause(r: Rules, ss: seq<State>, xs: seq<Step>, n: nat, t: nat)
    requires IsRun(r, ss, xs) && n < |ss| && !Reported(ss[n], t)
    ensures exists a :: 0 <= a < n && Disrupts(xs[a], t)
  {
    if forall a :: 0 <= a < n ==> !Disrupts(xs[a], t) {
      QuietRunReports(r, ss, xs, n, t);
    }
  }

  lemma QuietRunReports(r: Rules, ss: seq<State>, xs: seq<Step>, n: nat, t: nat)
    requires IsRun(r, ss, xs) && n < |ss| && forall a :: 0 <= a < n ==> !Disrupts(xs[a], t)
    ensures Reported(ss[n], t)
  {
    QuietRun(r, ss, xs, n, t);
    RunInv(r, ss, xs, n);
    ExitsAlways(r, ss, xs, n);
    QuietReports(r, ss[n], t);
  }

  /** The state a delivered submitter returned in shows why it was not told nil. */
  lemma UnreportedExit(r: Rules, ss: seq<State>, xs: seq<Step>, n: nat, t: nat)
    requires IsRun(r, ss, xs) && n < |ss| && !Reported(ss[n], t)
    ensures
      var s, pc := ss[n], ss[n].threads[t].pc;
      match pc.exit
      case ByClose => s.heap.core.closed && pc.result == Some(TransportClosed)
      case ByFailure => IsDelivery(s.heap, pc.sent.value) && pc.result.Some? && pc.result == PendingOf(s.heap, pc.sent.value).failure
      case ByContext => pc.result.Some? && pc.result == s.threads[t].ctx
      case _ => false
  {
    RunInv(r, ss, xs, n);
    ExitsAlways(r, ss, xs, n);
    var s := ss[n];
    var pc := s.threads[t].pc;
    assert ThreadOk(r, s.heap, t, pc) && ExitOk(s, t);
    var k :| WroteAt(s.heap, pc.sent.value, k);
    assert EntryOk(s.heap, k);
  }
}
