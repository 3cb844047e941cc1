/** Concrete runs that mark the limits of what the rendezvous controller promises. */
module RendezvousWitnesses {
  import opened Outcomes
  import opened Rendezvous
  import opened RendezvousInvariant
  import opened RendezvousTheorems
  import opened RendezvousReports

  /** Which disruptions of goroutine `t` a run may contain. */
  datatype Kinds = Kinds(closes: bool, invalidates: bool, expires: bool)

  const QUIET := Kinds(false, false, false)
  const ANY := Kinds(true, true, true)

  predicate Permits(kinds: Kinds, x: Step, t: nat) {
    && (x.Close? ==> kinds.closes)
    && (x.Invalidate? ==> kinds.invalidates)
    && (x.Expire? && x.t == t ==> kinds.expires)
  }

  ghost predicate IsRunOf(r: Rules, kinds: Kinds, t: nat, ss: seq<State>, xs: seq<Step>) {
    IsRun(r, ss, xs) && forall a :: 0 <= a < |xs| ==> Permits(kinds, xs[a], t)
  }

  ghost predicate Reachable(r: Rules, kinds: Kinds, t: nat, s: State) {
    exists ss: seq<State>, xs: seq<Step> :: IsRunOf(r, kinds, t, ss, xs) && ss[|xs|] == s
  }

  lemma Extend(r: Rules, kinds: Kinds, t: nat, s: State, x: Step) returns (s': State)
    requires Reachable(r, kinds, t, s) && Enabled(s, x) && Permits(kinds, x, t)
    ensures s' == Apply(r, s, x) && Reachable(r, kinds, t, s')
  {
    var ss: seq<State>, xs: seq<Step> :| IsRunOf(r, kinds, t, ss, xs) && ss[|xs|] == s;
    s' := Apply(r, s, x);
    var ss', xs' := ss + [s'], xs + [x];
    assert IsRunOf(r, kinds, t, ss', xs') && ss'[|xs'|] == s';
  }

  /** Goroutine 0 awaits `request` and goroutine 1 offers `answer` for it. */
  function OfferedState(request: Request, answer: Answer): State {
    State(Heap(Core([Pending(request, 0, true, Some(0), None, 0)], Some(0), false, 0),
               [Delivery(answer, 0, 1, Offered, None, None)], []),
          [Thread(AwaitSelect(0), None), Thread(Offering(0), None)])
  }

  lemma OfferedReachable(r: Rules, kinds: Kinds, request: Request, answer: Answer)
    requires r.valid(request) && r.accepts(request, answer)
    ensures Reachable(r, kinds, 1, OfferedState(request, answer))
  {
    AwaitingReachable(r, kinds, request);
    var s := Extend(r, kinds, 1, AwaitingState(request), Spawn(SubmitStart(answer)));
    s := Extend(r, kinds, 1, s, SubmitEnter(1));
    s := Extend(r, kinds, 1, s, Accept(1));
    assert s.threads == OfferedState(request, answer).threads;
  }

  /** Goroutine 0 awaits `request`. */
  function AwaitingState(request: Request): State {
    State(Heap(Core([Pending(request, 0, false, None, None, 0)], Some(0), false, 0), [], []), [Thread(AwaitSelect(0), None)])
  }

  lemma AwaitingReachable(r: Rules, kinds: Kinds, request: Request)
    requires r.valid(request)
    ensures Reachable(r, kinds, 1, AwaitingState(request))
  {
    var ss: seq<State>, xs: seq<Step> := [INITIAL], [];
    assert IsRunOf(r, kinds, 1, ss, xs) && ss[|xs|] == INITIAL;
    var s := Extend(r, kinds, 1, INITIAL, Spawn(AwaitStart(request)));
    s := Extend(r, kinds, 1, s, Register(0));
    assert s.threads == AwaitingState(request).threads;
  }

  /**
   The approval controller: for every request and acceptable decision there is a run in which an
   accepted submission has returned by its context and its request still occupies the slot.
   */
  lemma ApprovalContextExitKeepsSlot(r: Rules, request: Request, answer: Answer) returns (s: State)
    requires !r.strict && r.valid(request) && r.accepts(request, answer)
    ensures Reachable(r, ANY, 1, s)
    ensures |s.threads| == 2 && s.threads[1].pc == SubmitDone(Some(0), Some(Canceled), ByContext)
    ensures |s.heap.deliveries| == 1 && Holds(s.heap.core, s.heap.deliveries[0].pending)
  {
    OfferedReachable(r, ANY, request, answer);
    s := Extend(r, ANY, 1, OfferedState(request, answer), Expire(1, Canceled));
    s := Extend(r, ANY, 1, s, SubmitExpired(1));
  }

  /** Goroutine 0 has written the answer in full and has yet to acknowledge it. */
  function WrittenState(request: Request, answer: Answer): State {
    State(Heap(Core([Pending(request, 0, true, Some(0), None, 0)], Some(0), false, 0),
               [Delivery(answer, 0, 1, Tried(None), Some(0), None)], [Written(0, 0, answer, true)]),
          [Thread(Completing(0, 0, None), None), Thread(AwaitingAck(0), None)])
  }

  lemma HandedOver(r: Rules, kinds: Kinds, request: Request, answer: Answer) returns (s: State)
    requires r.valid(request) && r.accepts(request, answer)
    ensures Reachable(r, kinds, 1, s) && Enabled(OfferedState(request, answer), Handoff(1, 0))
    ensures s == Apply(r, OfferedState(request, answer), Handoff(1, 0))
  {
    OfferedReachable(r, kinds, request, answer);
    s := Extend(r, kinds, 1, OfferedState(request, answer), Handoff(1, 0));
  }

  lemma WrittenReachable(r: Rules, kinds: Kinds, request: Request, answer: Answer)
    requires r.valid(request) && r.accepts(request, answer)
    ensures Reachable(r, kinds, 1, WrittenState(request, answer))
  {
    var s := HandedOver(r, kinds, request, answer);
    s := Extend(r, kinds, 1, s, Write(0, None));
    assert s.threads == WrittenState(request, answer).threads;
  }

  /** Goroutine 1 is back with `result`, and the whole answer was written for its delivery. */
  ghost predicate ToldAfterWrite(s: State, answer: Answer, result: Err, exit: Exit) {
    |s.threads| >= 2 && s.threads[1].pc == SubmitDone(Some(0), Some(result), exit) && s.heap.log == [Written(0, 0, answer, true)]
  }

  lemma ToldIsUnreported(s: State, answer: Answer, result: Err, exit: Exit)
    requires ToldAfterWrite(s, answer, result, exit)
    ensures !Reported(s, 1)
  {
    assert WroteAt(s.heap, 0, 0);
  }

  /** A run with one close and no other disruption: delivered, and told that the transport is closed. */
  lemma DeliveredYetReportedClosed(r: Rules, request: Request, answer: Answer) returns (s: State)
    requires r.valid(request) && r.accepts(request, answer)
    ensures Reachable(r, QUIET.(closes := true), 1, s) && ToldAfterWrite(s, answer, TransportClosed, ByClose)
  {
    var kinds := QUIET.(closes := true);
    WrittenReachable(r, kinds, request, answer);
    s := Extend(r, kinds, 1, WrittenState(request, answer), Spawn(CloseStart(None)));
    s := Extend(r, kinds, 1, s, Close(2));
    s := Extend(r, kinds, 1, s, SubmitClosed(1));
  }

  /** A run with one invalidation and no other disruption: delivered, and told of the invalidation. */
  lemma DeliveredYetReportedFailed(r: Rules, request: Request, answer: Answer) returns (s: State)
    requires r.valid(request) && r.accepts(request, answer)
    ensures Reachable(r, QUIET.(invalidates := true), 1, s) && ToldAfterWrite(s, answer, NoLongerAvailable, ByFailure)
  {
    var kinds := QUIET.(invalidates := true);
    WrittenReachable(r, kinds, request, answer);
    s := Extend(r, kinds, 1, WrittenState(request, answer), Spawn(InvalidateStart(None)));
    s := Extend(r, kinds, 1, s, Invalidate(2));
    s := Extend(r, kinds, 1, s, SubmitFailed(1));
  }

  /** A run in which only the submitter's own context expires: delivered, and told of the expiry. */
  lemma DeliveredYetReportedExpired(r: Rules, request: Request, answer: Answer) returns (s: State)
    requires r.valid(request) && r.accepts(request, answer)
    ensures Reachable(r, QUIET.(expires := true), 1, s) && ToldAfterWrite(s, answer, Canceled, ByContext)
  {
    var kinds := QUIET.(expires := true);
    WrittenReachable(r, kinds, request, answer);
    s := Extend(r, kinds, 1, WrittenState(request, answer), Expire(1, Canceled));
    s := Extend(r, kinds, 1, s, SubmitExpired(1));
    if r.strict { s := Extend(r, kinds, 1, s, SubmitRelease(1)); }
  }

  /** Whatever the others do within `kinds`, a delivered answer is reported as nil. */
  ghost predicate AlwaysReports(r: Rules, kinds: Kinds) {
    forall ss: seq<State>, xs: seq<Step>, n: nat, t: nat :: IsRunOf(r, kinds, t, ss, xs) && n < |ss| ==> Reported(ss[n], t)
  }

  /**
   Delivered answers are always reported as nil exactly when nobody closes, nobody invalidates and the
   submitter's own context does not expire (or when nothing can be accepted at all).
   */
  lemma AlwaysReportsIffQuiet(r: Rules, kinds: Kinds)
    ensures AlwaysReports(r, kinds) <==> kinds == QUIET || forall request, answer :: !Acceptable(r, request, answer)
  {
    if kinds != QUIET && exists request, answer :: Acceptable(r, request, answer) {
      var request, answer :| Acceptable(r, request, answer);
      UnreportedRun(r, kinds, request, answer);
    } else {
      forall ss: seq<State>, xs: seq<Step>, n: nat, t: nat | IsRunOf(r, kinds, t, ss, xs) && n < |ss| ensures Reported(ss[n], t) {
        if kinds == QUIET {
          assert forall a :: 0 <= a < n ==> Permits(QUIET, xs[a], t);
          QuietRunReports(r, ss, xs, n, t);
        } else if !Reported(ss[n], t) {
          NothingAccepted(r, ss, xs, n, t);
        }
      }
    }
  }

  lemma UnreportedRun(r: Rules, kinds: Kinds, request: Request, answer: Answer)
    requires kinds != QUIET && Acceptable(r, request, answer)
    ensures !AlwaysReports(r, kinds)
  {
    if kinds.closes {
      var s := DeliveredYetReportedClosed(r, request, answer);
      Refutes(r, QUIET.(closes := true), kinds, s, answer, TransportClosed, ByClose);
    } else if kinds.invalidates {
      var s := DeliveredYetReportedFailed(r, request, answer);
      Refutes(r, QUIET.(invalidates := true), kinds, s, answer, NoLongerAvailable, ByFailure);
    } else {
      var s := DeliveredYetReportedExpired(r, request, answer);
      Refutes(r, QUIET.(expires := true), kinds, s, answer, Canceled, ByContext);
    }
  }

  lemma Refutes(r: Rules, less: Kinds, kinds: Kinds, s: State, answer: Answer, result: Err, exit: Exit)
    requires Reachable(r, less, 1, s) && ToldAfterWrite(s, answer, result, exit)
    requires forall x :: Permits(less, x, 1) ==> Permits(kinds, x, 1)
    ensures !AlwaysReports(r, kinds)
  {
    var ss: seq<State>, xs: seq<Step> :| IsRunOf(r, less, 1, ss, xs) && ss[|xs|] == s;
    ToldIsUnreported(s, answer, result, exit);
    assert IsRunOf(r, kinds, 1, ss, xs) && !Reported(ss[|xs|], 1);
  }

  /** Goroutine `t`, back from an accepted submission, has left its request out of the slot. */
  ghost predicate FreedBy(s: State, t: nat) {
    t < |s.threads| && s.threads[t].pc.SubmitDone? && s.threads[t].pc.sent.Some? ==>
      && IsDelivery(s.heap, s.threads[t].pc.sent.value)
      && !Holds(s.heap.core, s.heap.deliveries[s.threads[t].pc.sent.value].pending)
  }

  ghost predicate AlwaysFrees(r: Rules) {
    forall ss: seq<State>, xs: seq<Step>, n: nat, t: nat :: IsRun(r, ss, xs) && n < |ss| ==> FreedBy(ss[n], t)
  }

  ghost predicate Acceptable(r: Rules, request: Request, answer: Answer) {
    r.valid(request) && r.accepts(request, answer)
  }

  /** Every accepted submission frees the slot, however it returns, exactly in the controllers that release on their own context. */
  lemma AlwaysFreesIffStrict(r: Rules)
    ensures AlwaysFrees(r) <==> r.strict || forall request, answer :: !Acceptable(r, request, answer)
  {
    if !r.strict && exists request, answer :: Acceptable(r, request, answer) {
      var request, answer :| Acceptable(r, request, answer);
      var s := ApprovalContextExitKeepsSlot(r, request, answer);
      var ss: seq<State>, xs: seq<Step> :| IsRunOf(r, ANY, 1, ss, xs) && ss[|xs|] == s;
      assert !FreedBy(ss[|xs|], 1);
    } else {
      forall ss: seq<State>, xs: seq<Step>, n: nat, t: nat | IsRun(r, ss, xs) && n < |ss| ensures FreedBy(ss[n], t) {
        AcceptedFrees(r, ss, xs, n, t);
      }
    }
  }

  lemma AcceptedFrees(r: Rules, ss: seq<State>, xs: seq<Step>, n: nat, t: nat)
    requires IsRun(r, ss, xs) && n < |ss| && (r.strict || forall request, answer :: !Acceptable(r, request, answer))
    ensures FreedBy(ss[n], t)
  {
    if t < |ss[n].threads| && ss[n].threads[t].pc.SubmitDone? && ss[n].threads[t].pc.sent.Some? {
      if r.strict {
        ReturnedSubmitFreesSlot(r, ss, xs, n, n, t);
      } else {
        NothingAccepted(r, ss, xs, n, t);
      }
    }
  }

  lemma NothingAccepted(r: Rules, ss: seq<State>, xs: seq<Step>, n: nat, t: nat)
    requires IsRun(r, ss, xs) && n < |ss| && t < |ss[n].threads|
    requires ss[n].threads[t].pc.SubmitDone? && ss[n].threads[t].pc.sent.Some?
    ensures exists request, answer :: Acceptable(r, request, answer)
  {
    RunInv(r, ss, xs, n);
    var h := ss[n].heap;
    assert ThreadOk(r, h, t, ss[n].threads[t].pc);
    var d := ss[n].threads[t].pc.sent.value;
    assert DeliveryOk(r, h, d);
    assert PendingOk(r, h.core.pendings[h.deliveries[d].pending]);
    assert Acceptable(r, h.core.pendings[h.deliveries[d].pending].request, h.deliveries[d].answer);
  }
}
