/** What every run of the rendezvous controller guarantees. */
module RendezvousTheorems {
  import opened Outcomes
  import opened Rendezvous
  import opened RendezvousInvariant

  // ---------------------------------------------------------------------------------------
  // Whole runs
  // ---------------------------------------------------------------------------------------

  lemma {:induction false} PathInv(r: Rules, ss: seq<State>, xs: seq<Step>, n: nat)
    requires IsPath(r, ss, xs) && Inv(r, ss[0]) && n < |ss|
    ensures Inv(r, ss[n])
  {
    if n > 0 {
      PathInv(r, ss, xs, n - 1);
      InvStep(r, ss[n - 1], xs[n - 1]);
    }
  }

  /** In every interleaving of any number of goroutines, the invariant holds in every state. */
  lemma RunInv(r: Rules, ss: seq<State>, xs: seq<Step>, n: nat)
    requires IsRun(r, ss, xs) && n < |ss|
    ensures Inv(r, ss[n])
  {
    PathInv(r, ss, xs, n);
  }

  lemma KeptTransitive(a: Heap, b: Heap, c: Heap)
    requires HeapKept(a, b) && HeapKept(b, c)
    ensures HeapKept(a, c)
  {
    forall p | 0 <= p < |a.core.pendings| ensures PendingKept(a.core.pendings[p], c.core.pendings[p]) {
      assert PendingKept(a.core.pendings[p], b.core.pendings[p]);
      assert PendingKept(b.core.pendings[p], c.core.pendings[p]);
    }
    forall d | 0 <= d < |a.deliveries| ensures DeliveryKept(a.deliveries[d], c.deliveries[d]) {
      assert DeliveryKept(a.deliveries[d], b.deliveries[d]);
      assert DeliveryKept(b.deliveries[d], c.deliveries[d]);
    }
  }

  ghost predicate KeptNext(ss: seq<State>, n: nat) {
    n + 1 < |ss| && HeapKept(ss[n].heap, ss[n + 1].heap)
  }

  lemma {:induction false} ChainKept(ss: seq<State>, i: nat, j: nat)
    requires i <= j < |ss| && forall n :: i <= n < j ==> KeptNext(ss, n)
    ensures HeapKept(ss[i].heap, ss[j].heap)
    decreases j
  {
    if i < j {
      ChainKept(ss, i, j - 1);
      assert KeptNext(ss, j - 1);
      KeptTransitive(ss[i].heap, ss[j - 1].heap, ss[j].heap);
    }
  }

  /** Nothing set is ever unset: between any two moments of a run the objects only develop forward. */
  lemma RunKeeps(r: Rules, ss: seq<State>, xs: seq<Step>, i: nat, j: nat)
    requires IsRun(r, ss, xs) && i <= j < |ss|
    ensures HeapKept(ss[i].heap, ss[j].heap)
  {
    forall n | i <= n < j ensures KeptNext(ss, n) { StepOfRunKeeps(r, ss, xs, n); }
    ChainKept(ss, i, j);
  }

  lemma StepOfRunKeeps(r: Rules, ss: seq<State>, xs: seq<Step>, n: nat)
    requires IsRun(r, ss, xs) && n < |xs|
    ensures HeapKept(ss[n].heap, ss[n + 1].heap)
  {
    RunInv(r, ss, xs, n);
    InvStep(r, ss[n], xs[n]);
  }

  // ---------------------------------------------------------------------------------------
  // Exactly-once delivery
  // ---------------------------------------------------------------------------------------

  /** At moment `a` of the run, goroutine `t` submitted `answer` while `p` was pending and unclaimed. */
  ghost predicate AcceptedAt(r: Rules, ss: seq<State>, xs: seq<Step>, a: nat, t: nat, p: nat, answer: Answer) {
    && a < |xs| && a < |ss|
    && xs[a] == Accept(t)
    && PcOf(ss[a], t) == SubmitReady(answer)
    && Holds(ss[a].heap.core, p) && IsPending(ss[a].heap, p)
    && !ss[a].heap.core.pendings[p].submitted
    && r.accepts(ss[a].heap.core.pendings[p].request, answer)
  }

  lemma DeliveriesGrowByAccept(r: Rules, s: State, x: Step, d: nat)
    requires Inv(r, s) && Enabled(s, x) && |s.heap.deliveries| <= d < |Apply(r, s, x).heap.deliveries|
    ensures d == |s.heap.deliveries| && x.Accept?
    ensures
      var y := Apply(r, s, x).heap.deliveries[d];
      && PcOf(s, x.t) == SubmitReady(y.answer) && y.submitter == x.t
      && Holds(s.heap.core, y.pending) && IsPending(s.heap, y.pending)
      && !s.heap.core.pendings[y.pending].submitted
      && r.accepts(s.heap.core.pendings[y.pending].request, y.answer)
  {
  }

  /** Every delivery goes back to one submission, made while its request was in the slot. */
  lemma {:induction false} DeliveryOrigin(r: Rules, ss: seq<State>, xs: seq<Step>, n: nat, d: nat)
    requires IsRun(r, ss, xs) && n < |ss| && d < |ss[n].heap.deliveries|
    ensures
      var y := ss[n].heap.deliveries[d];
      exists a :: 0 <= a < n && AcceptedAt(r, ss, xs, a, y.submitter, y.pending, y.answer)
  {
    RunInv(r, ss, xs, n - 1);
    if d < |ss[n - 1].heap.deliveries| {
      DeliveryOrigin(r, ss, xs, n - 1, d);
      RunKeeps(r, ss, xs, n - 1, n);
      assert DeliveryKept(ss[n - 1].heap.deliveries[d], ss[n].heap.deliveries[d]);
    } else {
      DeliveriesGrowByAccept(r, ss[n - 1], xs[n - 1], d);
      var y := ss[n].heap.deliveries[d];
      assert AcceptedAt(r, ss, xs, n - 1, y.submitter, y.pending, y.answer);
    }
  }

  /** Every answer ever written was accepted for its request, and no request gets two writes. */
  lemma WritesAreValidatedAndUnique(r: Rules, ss: seq<State>, xs: seq<Step>, n: nat, k: nat)
    requires IsRun(r, ss, xs) && n < |ss| && k < |ss[n].heap.log|
    ensures
      var h := ss[n].heap;
      && IsPending(h, h.log[k].pending)
      && r.valid(h.core.pendings[h.log[k].pending].request)
      && r.accepts(h.core.pendings[h.log[k].pending].request, h.log[k].answer)
      && forall m :: 0 <= m < |h.log| && h.log[m].pending == h.log[k].pending ==> m == k
  {
    RunInv(r, ss, xs, n);
    var h := ss[n].heap;
    assert EntryOk(h, k);
    assert DeliveryOk(r, h, h.log[k].delivery);
    forall m | 0 <= m < |h.log| && h.log[m].pending == h.log[k].pending ensures m == k {
      assert EntryOk(h, m);
      assert DeliveryOk(r, h, h.log[m].delivery);
    }
  }

  /**
   When `submit` returns nil: the answer it was called with was accepted for the request then in the
   slot, that answer was written in full for exactly that request, and neither before nor ever after
   is anything else written for that request.
   */
  lemma NilMeansDeliveredExactlyOnce(r: Rules, ss: seq<State>, xs: seq<Step>, n: nat, t: nat)
    requires IsRun(r, ss, xs) && n < |ss| && t < |ss[n].threads|
    requires ss[n].threads[t].pc.SubmitDone? && ss[n].threads[t].pc.result.None?
    ensures exists a, p, d, answer, k ::
      && 0 <= a < n && AcceptedAt(r, ss, xs, a, t, p, answer)
      && 0 <= k < |ss[n].heap.log| && ss[n].heap.log[k] == Written(p, d, answer, true)
      && forall j, m :: n <= j < |ss| && 0 <= m < |ss[j].heap.log| && ss[j].heap.log[m].pending == p ==> m == k
  {
    RunInv(r, ss, xs, n);
    var h := ss[n].heap;
    assert ThreadOk(r, h, t, ss[n].threads[t].pc);
    var d := ss[n].threads[t].pc.sent.value;
    var y := h.deliveries[d];
    assert DeliveryOk(r, h, d);
    var k := y.entry.value;
    assert EntryOk(h, k);
    DeliveryOrigin(r, ss, xs, n, d);
    var a :| 0 <= a < n && AcceptedAt(r, ss, xs, a, y.submitter, y.pending, y.answer);
    forall j, m | n <= j < |ss| && 0 <= m < |ss[j].heap.log| && ss[j].heap.log[m].pending == y.pending ensures m == k {
      RunKeeps(r, ss, xs, n, j);
      assert ss[j].heap.log[k] == h.log[k];
      WritesAreValidatedAndUnique(r, ss, xs, j, k);
    }
    assert h.log[k] == Written(y.pending, d, y.answer, true);
  }

  // ---------------------------------------------------------------------------------------
  // The slot
  // ---------------------------------------------------------------------------------------

  /**
   An accepted submission that has returned does not occupy the slot, then or ever after; in the
   approval controller that fails only for an exit by the submitter's own context.
   */
  lemma ReturnedSubmitFreesSlot(r: Rules, ss: seq<State>, xs: seq<Step>, n: nat, j: nat, t: nat)
    requires IsRun(r, ss, xs) && n <= j < |ss| && t < |ss[n].threads|
    requires ss[n].threads[t].pc.SubmitDone? && ss[n].threads[t].pc.sent.Some?
    requires r.strict || !ss[n].threads[t].pc.exit.ByContext?
    ensures IsDelivery(ss[n].heap, ss[n].threads[t].pc.sent.value)
    ensures !Holds(ss[j].heap.core, ss[n].heap.deliveries[ss[n].threads[t].pc.sent.value].pending)
  {
    RunInv(r, ss, xs, n);
    assert ThreadOk(r, ss[n].heap, t, ss[n].threads[t].pc);
    RunKeeps(r, ss, xs, n, j);
  }

  /** The awaiting side leaves nothing behind on any exit, in all three controllers. */
  lemma ReturnedAwaitFreesSlot(r: Rules, ss: seq<State>, xs: seq<Step>, n: nat, j: nat, t: nat)
    requires IsRun(r, ss, xs) && n <= j < |ss| && t < |ss[n].threads|
    requires ss[n].threads[t].pc.AwaitDone? && ss[n].threads[t].pc.registered.Some?
    ensures !Holds(ss[j].heap.core, ss[n].threads[t].pc.registered.value)
  {
    RunInv(r, ss, xs, n);
    assert ThreadOk(r, ss[n].heap, t, ss[n].threads[t].pc);
    RunKeeps(r, ss, xs, n, j);
  }

  /** Whether step `x` acts for pending `p`, on its awaiting or its submitting side. */
  predicate ActsFor(s: State, x: Step, p: nat) {
    match x
    case AwaitRelease(t) => PcOf(s, t).AwaitReleasing? && PcOf(s, t).p == p
    case Complete(t) => PcOf(s, t).Completing? && PcOf(s, t).p == p
    case SubmitRelease(t) =>
      PcOf(s, t).SubmitReleasing? && IsDelivery(s.heap, PcOf(s, t).d) && s.heap.deliveries[PcOf(s, t).d].pending == p
    case Invalidate(_) => true
    case Close(_) => true
    case _ => false
  }

  /** A pending leaves the slot only by its own completion or failure, or by invalidate or close: a late one never evicts a newer. */
  lemma NoForeignEviction(r: Rules, s: State, x: Step, p: nat)
    requires Inv(r, s) && Enabled(s, x) && Holds(s.heap.core, p) && !Holds(Apply(r, s, x).heap.core, p)
    ensures ActsFor(s, x, p)
  {
  }

  /** What a closed controller, a failed pending and a closed channel look like in every run. */
  lemma ClosedAndFailedStates(r: Rules, ss: seq<State>, xs: seq<Step>, i: nat, j: nat, p: nat)
    requires IsRun(r, ss, xs) && i <= j < |ss| && IsPending(ss[i].heap, p)
    ensures ss[i].heap.core.closed ==> ss[j].heap.core.closed && ss[j].heap.core.slot.None?
    ensures ss[i].heap.core.pendings[p].failure.Some? ==>
      && IsPending(ss[j].heap, p) && !Holds(ss[j].heap.core, p)
      && ss[j].heap.core.pendings[p].failure == ss[i].heap.core.pendings[p].failure
    ensures ss[j].heap.core.closes <= 1 && IsPending(ss[j].heap, p) && ss[j].heap.core.pendings[p].closes <= 1
  {
    RunInv(r, ss, xs, j);
    RunKeeps(r, ss, xs, i, j);
    assert PendingKept(ss[i].heap.core.pendings[p], ss[j].heap.core.pendings[p]);
    assert PendingOk(r, ss[j].heap.core.pendings[p]);
  }

  // ---------------------------------------------------------------------------------------
  // Nobody stays blocked after close
  // ---------------------------------------------------------------------------------------

  /** A bound on the steps a goroutine still has to take. */
  function Rank(pc: Pc): nat {
    match pc
    case AwaitStart(_) => 6
    case AwaitSelect(_) => 5
    case Holding(_, _) => 4
    case Completing(_, _, _) => 3
    case Acking(_, _, _) => 2
    case AwaitReleasing(_, _) => 1
    case SubmitStart(_) => 5
    case SubmitReady(_) => 4
    case Offering(_) => 3
    case AwaitingAck(_) => 2
    case SubmitReleasing(_, _) => 1
    case InvalidateStart(_) => 1
    case CloseStart(_) => 1
    case PeekStart => 1
    case AwaitDone(_, _, _) => 0
    case SubmitDone(_, _, _) => 0
    case SideDone(_) => 0
  }

  /** Whether goroutine `t` takes part in step `x`; starting goroutines and expiring contexts are the environment's. */
  predicate TakesPart(x: Step, t: nat) {
    !x.Spawn? && !x.Expire? && (x.t == t || (x.Handoff? && x.awaiter == t))
  }

  lemma RankFalls(r: Rules, s: State, x: Step, t: nat)
    requires Enabled(s, x) && t < |s.threads|
    ensures t < |Apply(r, s, x).threads|
    ensures
      var before, after := Rank(s.threads[t].pc), Rank(Apply(r, s, x).threads[t].pc);
      if TakesPart(x, t) then after < before else after == before
  {
    if TakesPart(x, t) { MoverRankFalls(r, s, x, t); } else { OthersStay(r, s, x, t); }
  }

  lemma MoverRankFalls(r: Rules, s: State, x: Step, t: nat)
    requires Enabled(s, x) && t < |s.threads| && TakesPart(x, t)
    ensures t < |Apply(r, s, x).threads| && Rank(Apply(r, s, x).threads[t].pc) < Rank(s.threads[t].pc)
  {
  }

  lemma OthersStay(r: Rules, s: State, x: Step, t: nat)
    requires Enabled(s, x) && t < |s.threads| && !TakesPart(x, t)
    ensures t < |Apply(r, s, x).threads| && Apply(r, s, x).threads[t].pc == s.threads[t].pc
  {
  }

  function StepsOf(xs: seq<Step>, t: nat): nat {
    if xs == [] then 0 else StepsOf(xs[..|xs| - 1], t) + (if TakesPart(xs[|xs| - 1], t) then 1 else 0)
  }

  /** In any run a goroutine takes at most six steps, however the others behave. */
  lemma {:induction false} StepsBounded(r: Rules, ss: seq<State>, xs: seq<Step>, t: nat)
    requires IsPath(r, ss, xs) && t < |ss[0].threads|
    ensures t < |ss[|xs|].threads|
    ensures StepsOf(xs, t) + Rank(ss[|xs|].threads[t].pc) <= Rank(ss[0].threads[t].pc) <= 6
  {
    if xs != [] {
      var n := |xs| - 1;
      StepsBounded(r, ss[..n + 1], xs[..n], t);
      RankFalls(r, ss[n], xs[n], t);
    }
  }

  /** The step an unfinished goroutine can always take alone once the controller is closed. */
  function Unblock(pc: Pc, t: nat): Step {
    match pc
    case AwaitStart(_) => Register(t)
    case AwaitSelect(_) => AwaitClosed(t)
    case AwaitReleasing(_, _) => AwaitRelease(t)
    case Holding(_, _) => Write(t, None)
    case Completing(_, _, _) => Complete(t)
    case Acking(_, _, _) => AckSend(t)
    case SubmitStart(_) => SubmitEnter(t)
    case SubmitReady(_) => Accept(t)
    case Offering(_) => SubmitClosed(t)
    case AwaitingAck(_) => SubmitClosed(t)
    case SubmitReleasing(_, _) => SubmitRelease(t)
    case InvalidateStart(_) => Invalidate(t)
    case CloseStart(_) => Close(t)
    case _ => Peek(t)
  }

  /** After close no goroutine is blocked: each unfinished one has an enabled step of its own. */
  lemma ClosedNeverBlocks(r: Rules, s: State, t: nat)
    requires Inv(r, s) && s.heap.core.closed && t < |s.threads| && !Finished(s.threads[t].pc)
    ensures Enabled(s, Unblock(s.threads[t].pc, t)) && TakesPart(Unblock(s.threads[t].pc, t), t)
  {
    var h, pc := s.heap, s.threads[t].pc;
    assert ThreadOk(r, h, t, pc);
    if pc.Holding? || pc.Completing? || pc.Acking? { assert DeliveryOk(r, h, pc.d); }
  }

  /** Open or closed, the only places a goroutine can wait are the three selects, with none of their other branches ready. */
  lemma BlockedOnlyInSelect(r: Rules, s: State, t: nat)
    requires Inv(r, s) && t < |s.threads|
    requires forall x :: TakesPart(x, t) && !x.Handoff? ==> !Enabled(s, x)
    ensures
      var h, pc := s.heap, s.threads[t].pc;
      || Finished(pc)
      || (pc.AwaitSelect? && !h.core.closed && s.threads[t].ctx.None? && IsPending(h, pc.p) && h.core.pendings[pc.p].failure.None?)
      || (InSubmitSelect(pc) && !h.core.closed && s.threads[t].ctx.None? && IsDelivery(h, pc.d) && PendingOf(h, pc.d).failure.None?)
  {
    var h, pc := s.heap, s.threads[t].pc;
    assert ThreadOk(r, h, t, pc);
    if pc.AwaitSelect? {
      assert !Enabled(s, AwaitFailed(t)) && !Enabled(s, AwaitClosed(t)) && !Enabled(s, AwaitExpired(t));
    } else if InSubmitSelect(pc) {
      assert !Enabled(s, SubmitFailed(t)) && !Enabled(s, SubmitClosed(t)) && !Enabled(s, SubmitExpired(t));
    } else if !Finished(pc) {
      if pc.Holding? || pc.Completing? || pc.Acking? { assert DeliveryOk(r, h, pc.d); }
      assert TakesPart(Unblock(pc, t), t) && !Unblock(pc, t).Handoff?;
      assert Enabled(s, Unblock(pc, t));
    }
  }

  /** The send on the buffered ack channel always finds room. */
  lemma AckNeverBlocks(r: Rules, s: State, t: nat)
    requires Inv(r, s) && PcOf(s, t).Acking?
    ensures Enabled(s, AckSend(t))
  {
    assert ThreadOk(r, s.heap, t, s.threads[t].pc);
    assert DeliveryOk(r, s.heap, s.threads[t].pc.d);
  }

  /** Calls made after close are turned away in their first locked section. */
  lemma LateCallsReturn(r: Rules, s: State, t: nat)
    requires Inv(r, s) && s.heap.core.closed
    ensures PcOf(s, t).AwaitStart? ==> Act(r, s, Register(t)).1.AwaitDone? && Act(r, s, Register(t)).1.result.Some?
    ensures PcOf(s, t).SubmitReady? ==> Act(r, s, Accept(t)).1 == SubmitDone(None, Some(NotPending), Refused)
    ensures PcOf(s, t).PeekStart? ==> Act(r, s, Peek(t)).1 == SideDone(None)
  {
  }

  function TotalRank(threads: seq<Thread>): nat {
    if threads == [] then 0 else Rank(threads[0].pc) + TotalRank(threads[1..])
  }

  lemma {:induction false} TotalRankMonotone(a: seq<Thread>, b: seq<Thread>, t: nat)
    requires |a| == |b| && t < |a| && Rank(b[t].pc) < Rank(a[t].pc)
    requires forall u :: 0 <= u < |a| ==> Rank(b[u].pc) <= Rank(a[u].pc)
    ensures TotalRank(b) < TotalRank(a)
  {
    if t == 0 { TotalRankWeak(a[1..], b[1..]); } else { TotalRankMonotone(a[1..], b[1..], t - 1); }
  }

  lemma {:induction false} TotalRankWeak(a: seq<Thread>, b: seq<Thread>)
    requires |a| == |b|
    requires forall u :: 0 <= u < |a| ==> Rank(b[u].pc) <= Rank(a[u].pc)
    ensures TotalRank(b) <= TotalRank(a)
  {
    if a != [] { TotalRankWeak(a[1..], b[1..]); }
  }

  /** The environment starts no goroutine and expires no context on this path. */
  ghost predicate Undriven(xs: seq<Step>) {
    forall k :: 0 <= k < |xs| ==> !xs[k].Spawn? && !xs[k].Expire?
  }

  lemma {:induction false} PathLengthBounded(r: Rules, ss: seq<State>, xs: seq<Step>)
    requires IsPath(r, ss, xs) && Undriven(xs)
    ensures |ss[|xs|].threads| == |ss[0].threads|
    ensures |xs| + TotalRank(ss[|xs|].threads) <= TotalRank(ss[0].threads)
  {
    if xs != [] {
      var n := |xs| - 1;
      PathLengthBounded(r, ss[..n + 1], xs[..n]);
      forall u | 0 <= u < |ss[n].threads| ensures Rank(ss[n + 1].threads[u].pc) <= Rank(ss[n].threads[u].pc) {
        RankFalls(r, ss[n], xs[n], u);
      }
      RankFalls(r, ss[n], xs[n], xs[n].t);
      TotalRankMonotone(ss[n].threads, ss[n + 1].threads, xs[n].t);
    }
  }

  /**
   Once closed, left to itself, the system comes to rest within the total rank of its goroutines,
   and when it rests every goroutine has returned.
   */
  lemma ClosedComesToRest(r: Rules, ss: seq<State>, xs: seq<Step>)
    requires IsPath(r, ss, xs) && Undriven(xs) && Inv(r, ss[0]) && ss[0].heap.core.closed
    ensures |xs| <= TotalRank(ss[0].threads)
    ensures (forall x :: Enabled(ss[|xs|], x) ==> x.Spawn? || x.Expire?) ==>
      forall t :: 0 <= t < |ss[|xs|].threads| ==> Finished(ss[|xs|].threads[t].pc)
  {
    PathLengthBounded(r, ss, xs);
    PathInv(r, ss, xs, |xs|);
    ClosedStays(r, ss, xs);
    var last := ss[|xs|];
    if forall x :: Enabled(last, x) ==> x.Spawn? || x.Expire? {
      forall t | 0 <= t < |last.threads| ensures Finished(last.threads[t].pc) {
        if !Finished(last.threads[t].pc) {
          ClosedNeverBlocks(r, last, t);
        }
      }
    }
  }

  lemma {:induction false} ClosedStays(r: Rules, ss: seq<State>, xs: seq<Step>)
    requires IsPath(r, ss, xs) && Inv(r, ss[0]) && ss[0].heap.core.closed
    ensures ss[|xs|].heap.core.closed
  {
    if xs != [] {
      var n := |xs| - 1;
      ClosedStays(r, ss[..n + 1], xs[..n]);
      PathInv(r, ss, xs, n);
      InvStep(r, ss[n], xs[n]);
    }
  }
}
