/** What begin, cancel-and-wait and an expired submission do, over every run of the chat server. */
module ChatServerOutcomes {
  import opened Outcomes
  import opened ChatServer
  import opened ChatServerTheorems

  ghost predicate StepAt(ss: seq<State>, xs: seq<Step>, n: nat) {
    n < |xs| && n + 1 < |ss| && Inv(ss[n]) && Enabled(ss[n], xs[n]) && ss[n + 1] == Apply(ss[n], xs[n])
  }

  /** A run, with its invariant at every step. */
  ghost predicate Watched(ss: seq<State>, xs: seq<Step>) {
    |ss| == |xs| + 1 && ss[0] == INITIAL && forall n :: 0 <= n < |xs| ==> StepAt(ss, xs, n)
  }

  lemma RunIsWatched(ss: seq<State>, xs: seq<Step>)
    requires IsRun(ss, xs)
    ensures Watched(ss, xs)
  {
    forall n | 0 <= n < |xs| ensures StepAt(ss, xs, n) { RunInv(ss, xs, n); }
  }

  /** `t` takes step `x`. */
  predicate Moves(x: Step, t: nat) {
    x.Move? && x.t == t
  }

  /** Goroutines are the only ones to move themselves. */
  lemma OthersStand(s: State, x: Step, t: nat)
    requires Enabled(s, x) && t < |s.threads| && !Moves(x, t)
    ensures t < |Apply(s, x).threads| && Apply(s, x).threads[t] == s.threads[t]
  {
  }

  /** While a goroutine holds the server mutex, nobody else changes which chat is active. */
  lemma ActiveHeld(s: State, x: Step, t: nat)
    requires Inv(s) && Enabled(s, x) && t < |s.threads| && HoldsServer(s.threads[t]) && !Moves(x, t)
    ensures Apply(s, x).active == s.active
  {
    if x.Move? { assert ThreadOk(s, x.t, s.threads[x.t]); }
  }

  // ---------------------------------------------------------------------------------------
  // Cancel-and-wait
  // ---------------------------------------------------------------------------------------

  /** `t` is on its way to cancel chat `k`, or has done so. */
  predicate Cancelling(s: State, t: nat, k: nat) {
    t < |s.threads| &&
    match s.threads[t]
    case CancelIn => s.active == Some(k)
    case CancelClosing(j, _) => j == k
    case CancelCtl(j, _) => j == k
    case CancelEnd(j) => j == k
    case CancelWait(j) => j == k
    case CancelGone(seen) => seen == Some(k)
    case _ => false
  }

  lemma CancellingStep(s: State, x: Step, t: nat, k: nat)
    requires Inv(s) && Enabled(s, x) && Cancelling(s, t, k)
    ensures Cancelling(Apply(s, x), t, k)
  {
    if !Moves(x, t) {
      OthersStand(s, x, t);
      if s.threads[t].CancelIn? { ActiveHeld(s, x, t); }
    }
  }

  lemma {:induction false} CancellingStays(ss: seq<State>, xs: seq<Step>, n: nat, m: nat, t: nat, k: nat)
    requires Watched(ss, xs) && n <= m < |ss| && Cancelling(ss[n], t, k)
    ensures Cancelling(ss[m], t, k)
    decreases m
  {
    if n < m {
      CancellingStays(ss, xs, n, m - 1, t, k);
      assert StepAt(ss, xs, m - 1);
      CancellingStep(ss[m - 1], xs[m - 1], t, k);
    }
  }

  /**
   Cancel-and-wait that finds chat `k` active when it holds the server mutex comes to rest only with that chat
   finished and its controllers closed.
   */
  lemma CancelReachesTheActiveChat(ss: seq<State>, xs: seq<Step>, n: nat, m: nat, t: nat, k: nat)
    requires IsRun(ss, xs) && n <= m < |ss| && PcOf(ss[n], t) == CancelIn && ss[n].active == Some(k)
    requires AtRest(PcOf(ss[m], t))
    ensures PcOf(ss[m], t) == CancelGone(Some(k))
    ensures k < |ss[m].chats| && ss[m].chats[k].doneCloses == 1 && ss[m].chats[k].closed == [true, true, true]
  {
    RunIsWatched(ss, xs);
    CancellingStays(ss, xs, n, m, t, k);
    WaitersSeeAFinishedChat(ss, xs, m, t, k);
  }

  /** It returns without a chat only if none was active when it held the mutex. */
  lemma {:induction false} CancelFindsNone(ss: seq<State>, xs: seq<Step>, n: nat, t: nat) returns (a: nat)
    requires Watched(ss, xs) && n < |ss| && PcOf(ss[n], t) == CancelGone(None)
    ensures a < n && a < |xs| && Moves(xs[a], t) && PcOf(ss[a], t) == CancelIn && ss[a].active.None?
  {
    a := n - 1;
    assert StepAt(ss, xs, n - 1);
    if PcOf(ss[n - 1], t) == CancelGone(None) {
      a := CancelFindsNone(ss, xs, n - 1, t);
    } else {
      CancelGoneNow(ss[n - 1], xs[n - 1], t);
    }
  }

  lemma CancelGoneNow(s: State, x: Step, t: nat)
    requires Enabled(s, x) && PcOf(Apply(s, x), t) == CancelGone(None) && PcOf(s, t) != CancelGone(None)
    ensures Moves(x, t) && PcOf(s, t) == CancelIn && s.active.None?
  {
  }

  lemma CancelGoneWithoutChat(ss: seq<State>, xs: seq<Step>, n: nat, t: nat)
    requires IsRun(ss, xs) && n < |ss| && PcOf(ss[n], t) == CancelGone(None)
    ensures exists a :: 0 <= a < n && Moves(xs[a], t) && PcOf(ss[a], t) == CancelIn && ss[a].active.None?
  {
    RunIsWatched(ss, xs);
    var a := CancelFindsNone(ss, xs, n, t);
  }

  // ---------------------------------------------------------------------------------------
  // A submission whose own context expires
  // ---------------------------------------------------------------------------------------

  /** `t` submits to chat `k`, was cut off by its context, and is cancelling the chat. */
  predicate CutOff(s: State, t: nat, k: nat) {
    t < |s.threads| &&
    match s.threads[t]
    case SubmitClosing(j, _) => j == k
    case SubmitCtl(j, _) => j == k
    case SubmitWait(j) => j == k
    case SubmitGone(joined) => joined == Some(k)
    case _ => false
  }

  lemma {:induction false} CutOffStays(ss: seq<State>, xs: seq<Step>, n: nat, m: nat, t: nat, k: nat)
    requires Watched(ss, xs) && n <= m < |ss| && CutOff(ss[n], t, k)
    ensures CutOff(ss[m], t, k)
    decreases m
  {
    if n < m {
      CutOffStays(ss, xs, n, m - 1, t, k);
      assert StepAt(ss, xs, m - 1);
      CutOffStep(ss[m - 1], xs[m - 1], t, k);
    }
  }

  lemma CutOffStep(s: State, x: Step, t: nat, k: nat)
    requires Enabled(s, x) && CutOff(s, t, k)
    ensures CutOff(Apply(s, x), t, k)
  {
    if !Moves(x, t) { OthersStand(s, x, t); }
  }

  lemma CutOffNow(s: State, t: nat, k: nat)
    requires Enabled(s, Move(t, true)) && PcOf(s, t) == SubmitRun(k)
    ensures CutOff(Apply(s, Move(t, true)), t, k)
  {
  }

  /** A submission cut off by its own context comes to rest only with its chat finished and the controllers closed. */
  lemma ExpiredSubmissionCancelsChat(ss: seq<State>, xs: seq<Step>, n: nat, m: nat, t: nat, k: nat)
    requires IsRun(ss, xs) && n < m < |ss| && PcOf(ss[n], t) == SubmitRun(k) && xs[n] == Move(t, true)
    requires AtRest(PcOf(ss[m], t))
    ensures PcOf(ss[m], t) == SubmitGone(Some(k))
    ensures k < |ss[m].chats| && ss[m].chats[k].doneCloses == 1 && ss[m].chats[k].closed == [true, true, true]
  {
    RunIsWatched(ss, xs);
    assert StepAt(ss, xs, n);
    CutOffNow(ss[n], t, k);
    CutOffStays(ss, xs, n + 1, m, t, k);
    WaitersSeeAFinishedChat(ss, xs, m, t, k);
  }

  /** A submission goes to the chat that is active when it holds the mutex, and to none only if none is. */
  lemma SubmitGoesToActive(s: State, t: nat, expired: bool)
    requires Inv(s) && Enabled(s, Move(t, expired)) && PcOf(s, t) == SubmitIn
    ensures s.active.Some? ==> PcOf(Apply(s, Move(t, expired)), t) == SubmitRun(s.active.value)
    ensures s.active.None? ==> PcOf(Apply(s, Move(t, expired)), t) == SubmitGone(None)
  {
  }

  lemma SubmitGoneNow(s: State, x: Step, t: nat)
    requires Enabled(s, x) && PcOf(Apply(s, x), t) == SubmitGone(None) && PcOf(s, t) != SubmitGone(None)
    ensures Moves(x, t) && ((PcOf(s, t) == SubmitIn && s.active.None?) || (PcOf(s, t).SubmitRun? && !x.expired))
  {
  }

  /** It leaves without having cancelled anything only if no chat was active, or its context was not what ended it. */
  lemma {:induction false} SubmitGoneUnjoined(ss: seq<State>, xs: seq<Step>, n: nat, t: nat) returns (a: nat)
    requires Watched(ss, xs) && n < |ss| && PcOf(ss[n], t) == SubmitGone(None)
    ensures a < n && a < |xs| && Moves(xs[a], t)
    ensures (PcOf(ss[a], t) == SubmitIn && ss[a].active.None?) || (PcOf(ss[a], t).SubmitRun? && !xs[a].expired)
  {
    a := n - 1;
    assert StepAt(ss, xs, n - 1);
    if PcOf(ss[n - 1], t) == SubmitGone(None) {
      a := SubmitGoneUnjoined(ss, xs, n - 1, t);
    } else {
      SubmitGoneNow(ss[n - 1], xs[n - 1], t);
    }
  }

  // ---------------------------------------------------------------------------------------
  // Begin
  // ---------------------------------------------------------------------------------------

  lemma BeginNow(s: State, x: Step, t: nat)
    requires Inv(s) && Enabled(s, x) && PcOf(s, t) == BeginIn && Moves(x, t)
    ensures s.active.Some? ==> PcOf(Apply(s, x), t) == Refused && Apply(s, x).active == s.active
    ensures s.active.None? ==>
      && PcOf(Apply(s, x), t) == Run(|s.chats|) && Apply(s, x).active == Some(|s.chats|)
      && |Apply(s, x).chats| == |s.chats| + 1
      && Apply(s, x).chats[|s.chats|].closed == [false, false, false] && Apply(s, x).chats[|s.chats|].doneCloses == 0
  {
  }

  lemma RefusedNow(s: State, x: Step, t: nat)
    requires Enabled(s, x) && PcOf(Apply(s, x), t) == Refused && PcOf(s, t) != Refused
    ensures Moves(x, t) && PcOf(s, t) == BeginIn && s.active.Some?
  {
  }

  /** A chat is refused only if another one was active when the request held the mutex. */
  lemma {:induction false} RefusedWhileActive(ss: seq<State>, xs: seq<Step>, n: nat, t: nat) returns (a: nat)
    requires Watched(ss, xs) && n < |ss| && PcOf(ss[n], t) == Refused
    ensures a < n && a < |xs| && Moves(xs[a], t) && PcOf(ss[a], t) == BeginIn && ss[a].active.Some?
  {
    a := n - 1;
    assert StepAt(ss, xs, n - 1);
    if PcOf(ss[n - 1], t) == Refused {
      a := RefusedWhileActive(ss, xs, n - 1, t);
    } else {
      RefusedNow(ss[n - 1], xs[n - 1], t);
    }
  }

  /** Every request to begin either runs its own chat to the end or was refused. */
  predicate Beginning(pc: Pc) {
    pc.BeginWant? || pc.BeginIn? || pc.Run? || pc.FinishWant? || pc.FinishIn? || pc.FinishClosing? || pc.FinishCtl? || pc.FinishEnd?
    || pc.Finished? || pc.Refused?
  }

  lemma {:induction false} BegunFinishesOrRefused(ss: seq<State>, xs: seq<Step>, n: nat, m: nat, t: nat)
    requires Watched(ss, xs) && n <= m < |ss| && t < |ss[n].threads| && Beginning(ss[n].threads[t])
    ensures t < |ss[m].threads| && Beginning(ss[m].threads[t])
    ensures AtRest(ss[m].threads[t]) ==> ss[m].threads[t].Finished? || ss[m].threads[t].Refused?
    decreases m
  {
    if n < m {
      BegunFinishesOrRefused(ss, xs, n, m - 1, t);
      assert StepAt(ss, xs, m - 1);
      if !Moves(xs[m - 1], t) { OthersStand(ss[m - 1], xs[m - 1], t); }
    }
  }

  // ---------------------------------------------------------------------------------------
  // Who closes controllers
  // ---------------------------------------------------------------------------------------

  /** Which controllers of its chat a goroutine that cancels the chat has behind it, and up to where. */
  predicate ClosedBehind(s: State, pc: Pc) {
    match pc
    case CancelClosing(k, i) => ClosedUpTo(s, k, i)
    case CancelCtl(k, i) => ClosedUpTo(s, k, i)
    case CancelEnd(k) => ClosedUpTo(s, k, CONTROLLERS)
    case CancelWait(k) => ClosedUpTo(s, k, CONTROLLERS)
    case SubmitClosing(k, i) => ClosedUpTo(s, k, i)
    case SubmitCtl(k, i) => ClosedUpTo(s, k, i)
    case SubmitWait(k) => ClosedUpTo(s, k, CONTROLLERS)
    case _ => true
  }

  lemma StaysClosed(s: State, x: Step, k: nat, i: nat)
    requires Inv(s) && Enabled(s, x) && ClosedUpTo(s, k, i)
    ensures ClosedUpTo(Apply(s, x), k, i)
  {
  }

  lemma OwnClosing(s: State, t: nat, expired: bool)
    requires Inv(s) && Enabled(s, Move(t, expired)) && ClosedBehind(s, s.threads[t])
    ensures t < |Apply(s, Move(t, expired)).threads| && ClosedBehind(Apply(s, Move(t, expired)), Apply(s, Move(t, expired)).threads[t])
  {
    assert ThreadOk(s, t, s.threads[t]);
    if s.active.Some? { assert ChatOk(s, s.active.value); }
  }

  lemma OthersClosing(s: State, x: Step, pc: Pc)
    requires Inv(s) && Enabled(s, x) && ClosedBehind(s, pc)
    ensures ClosedBehind(Apply(s, x), pc)
  {
    match pc
    case CancelClosing(k, i) => StaysClosed(s, x, k, i);
    case CancelCtl(k, i) => StaysClosed(s, x, k, i);
    case CancelEnd(k) => StaysClosed(s, x, k, CONTROLLERS);
    case CancelWait(k) => StaysClosed(s, x, k, CONTROLLERS);
    case SubmitClosing(k, i) => StaysClosed(s, x, k, i);
    case SubmitCtl(k, i) => StaysClosed(s, x, k, i);
    case SubmitWait(k) => StaysClosed(s, x, k, CONTROLLERS);
    case _ =>
  }

  /** Whoever cancels a chat has closed all its controllers itself before it waits for the chat to finish. */
  lemma {:induction false} ClosesBeforeWaiting(ss: seq<State>, xs: seq<Step>, n: nat, t: nat)
    requires Watched(ss, xs) && n < |ss| && t < |ss[n].threads|
    ensures ClosedBehind(ss[n], ss[n].threads[t])
  {
    if n > 0 {
      assert StepAt(ss, xs, n - 1);
      if t < |ss[n - 1].threads| {
        ClosesBeforeWaiting(ss, xs, n - 1, t);
        if Moves(xs[n - 1], t) {
          OwnClosing(ss[n - 1], t, xs[n - 1].expired);
        } else {
          OthersStand(ss[n - 1], xs[n - 1], t);
          OthersClosing(ss[n - 1], xs[n - 1], ss[n - 1].threads[t]);
        }
      }
    }
  }

  predicate IsClosed(s: State, k: nat, i: nat) {
    k < |s.chats| && i < |s.chats[k].closed| && s.chats[k].closed[i]
  }

  /** A goroutine about to leave controller `i` of chat `k` having closed it. */
  predicate Closes(pc: Pc, k: nat, i: nat) {
    pc == FinishCtl(k, i) || pc == CancelCtl(k, i) || pc == SubmitCtl(k, i)
  }

  lemma ClosedNow(s: State, x: Step, k: nat, i: nat)
    requires Inv(s) && Enabled(s, x) && IsClosed(Apply(s, x), k, i) && !IsClosed(s, k, i)
    ensures x.Move? && Closes(PcOf(s, x.t), k, i)
  {
    if x.Move? { assert ThreadOk(s, x.t, s.threads[x.t]); }
  }

  /** A controller is closed only by the end of its chat, by cancel-and-wait, or by a submission cut off by its context; never by another section. */
  lemma {:induction false} ClosedBySomebody(ss: seq<State>, xs: seq<Step>, n: nat, k: nat, i: nat) returns (a: nat)
    requires Watched(ss, xs) && n < |ss| && IsClosed(ss[n], k, i)
    ensures a < n && a < |xs| && xs[a].Move? && Closes(PcOf(ss[a], xs[a].t), k, i)
  {
    a := n - 1;
    assert StepAt(ss, xs, n - 1);
    if IsClosed(ss[n - 1], k, i) {
      a := ClosedBySomebody(ss, xs, n - 1, k, i);
    } else {
      ClosedNow(ss[n - 1], xs[n - 1], k, i);
    }
  }

  // ---------------------------------------------------------------------------------------
  // Everybody comes to rest
  // ---------------------------------------------------------------------------------------

  /** How many steps of its own a goroutine has still to take at most. */
  function StepsLeft(pc: Pc): nat {
    match pc
    case BeginWant => 12
    case BeginIn => 11
    case Run(_) => 10
    case FinishWant(_) => 9
    case FinishIn(_) => 8
    case FinishClosing(_, i) => if i < CONTROLLERS then 7 - 2 * i else 1
    case FinishCtl(_, i) => if i < CONTROLLERS then 6 - 2 * i else 1
    case FinishEnd(_) => 1
    case CancelWant => 10
    case CancelIn => 9
    case CancelClosing(_, i) => if i < CONTROLLERS then 8 - 2 * i else 1
    case CancelCtl(_, i) => if i < CONTROLLERS then 7 - 2 * i else 1
    case CancelEnd(_) => 2
    case CancelWait(_) => 1
    case SubmitWant => 10
    case SubmitIn => 9
    case SubmitRun(_) => 8
    case SubmitClosing(_, i) => if i < CONTROLLERS then 7 - 2 * i else 1
    case SubmitCtl(_, i) => if i < CONTROLLERS then 6 - 2 * i else 1
    case SubmitWait(_) => 1
    case SectionWant(_, _) => 2
    case SectionIn(_, _) => 1
    case _ => 0
  }

  lemma StepsLeftFalls(s: State, t: nat, expired: bool)
    requires Inv(s) && Enabled(s, Move(t, expired))
    ensures t < |Apply(s, Move(t, expired)).threads| && StepsLeft(Apply(s, Move(t, expired)).threads[t]) < StepsLeft(s.threads[t])
  {
    assert ThreadOk(s, t, s.threads[t]);
  }

  /** How often `t` moves from step `n` on, up to step `m`. */
  function OwnMoves(xs: seq<Step>, t: nat, n: nat, m: nat): nat
    requires n <= m <= |xs|
    decreases m
  {
    if n == m then 0 else OwnMoves(xs, t, n, m - 1) + if Moves(xs[m - 1], t) then 1 else 0
  }

  /** Between any two moments of a run a goroutine has taken no more steps than it had left, whatever the others do; at rest it has none left. */
  lemma {:induction false} FewOwnMoves(ss: seq<State>, xs: seq<Step>, n: nat, m: nat, t: nat)
    requires Watched(ss, xs) && n <= m < |ss| && t < |ss[n].threads|
    ensures t < |ss[m].threads| && OwnMoves(xs, t, n, m) + StepsLeft(ss[m].threads[t]) <= StepsLeft(ss[n].threads[t]) <= 12
    ensures StepsLeft(ss[m].threads[t]) == 0 <==> AtRest(ss[m].threads[t])
    decreases m
  {
    if n < m {
      FewOwnMoves(ss, xs, n, m - 1, t);
      assert StepAt(ss, xs, m - 1);
      if Moves(xs[m - 1], t) { StepsLeftFalls(ss[m - 1], t, xs[m - 1].expired); } else { OthersStand(ss[m - 1], xs[m - 1], t); }
    }
    RestIsNoSteps(ss[m].threads[t]);
  }

  lemma RestIsNoSteps(pc: Pc)
    ensures StepsLeft(pc) == 0 <==> AtRest(pc)
  {
  }
}
