/** What every run of the chat server guarantees. */
module ChatServerTheorems {
  import opened Outcomes
  import opened ChatServer

  /** What no step undoes: chats keep their owner, closed controllers and closed done channels. */
  ghost predicate ChatsKept(s: State, s': State) {
    && |s.chats| <= |s'.chats|
    && forall k :: 0 <= k < |s.chats| ==>
      && s'.chats[k].owner == s.chats[k].owner
      && |s'.chats[k].closed| == |s.chats[k].closed|
      && (forall i :: 0 <= i < |s.chats[k].closed| && s.chats[k].closed[i] ==> s'.chats[k].closed[i])
      && s.chats[k].doneCloses <= s'.chats[k].doneCloses
  }

  lemma KeptReflexive(s: State)
    ensures ChatsKept(s, s)
  {
  }

  lemma ActKeeps(s: State, t: nat, expired: bool)
    requires Inv(s) && Enabled(s, Move(t, expired))
    ensures ChatsKept(s, Apply(s, Move(t, expired)))
  {
    assert ThreadOk(s, t, s.threads[t]);
  }

  /** A goroutine's facts survive any change that keeps the chats and what its phase depends on. */
  lemma Undisturbed(s: State, s': State, u: nat, pc: Pc)
    requires ThreadOk(s, u, pc) && ChatsKept(s, s')
    requires forall k :: 0 <= k < |s.chats| ==> s'.chats[k].doneCloses <= 1
    requires pc.Run? || pc.FinishWant? || pc.FinishIn? || pc.FinishClosing? || pc.FinishCtl? || pc.FinishEnd? ==> s'.active == s.active
    requires pc.FinishClosing? || pc.FinishCtl? || pc.FinishEnd? ==>
      pc.k < |s.chats| && s'.chats[pc.k].doneCloses == s.chats[pc.k].doneCloses
    ensures ThreadOk(s', u, pc)
  {
  }

  /** Only the holder of the server mutex changes `active`, and never under another chat's owner. */
  lemma ActiveStays(s: State, t: nat, expired: bool, u: nat)
    requires Inv(s) && Enabled(s, Move(t, expired)) && u < |s.threads| && u != t
    requires
      var pc := s.threads[u];
      pc.Run? || pc.FinishWant? || pc.FinishIn? || pc.FinishClosing? || pc.FinishCtl? || pc.FinishEnd?
    ensures Act(s, t, expired).0.active == s.active
  {
    assert ThreadOk(s, t, s.threads[t]) && ThreadOk(s, u, s.threads[u]);
  }

  lemma DoneStays(s: State, t: nat, expired: bool, u: nat)
    requires Inv(s) && Enabled(s, Move(t, expired)) && u < |s.threads| && u != t
    requires s.threads[u].FinishClosing? || s.threads[u].FinishCtl? || s.threads[u].FinishEnd?
    ensures s.threads[u].k < |s.chats|
    ensures Act(s, t, expired).0.chats[s.threads[u].k].doneCloses == s.chats[s.threads[u].k].doneCloses
  {
    assert ThreadOk(s, t, s.threads[t]) && ThreadOk(s, u, s.threads[u]);
  }

  lemma DoneAtMostOnce(s: State, t: nat, expired: bool)
    requires Inv(s) && Enabled(s, Move(t, expired))
    ensures forall k :: 0 <= k < |Act(s, t, expired).0.chats| ==> ChatShape(Act(s, t, expired).0.chats[k])
  {
    assert ThreadOk(s, t, s.threads[t]);
    forall k | 0 <= k < |Act(s, t, expired).0.chats| ensures ChatShape(Act(s, t, expired).0.chats[k]) {
      if k < |s.chats| { assert ChatOk(s, k); }
    }
  }

  lemma OtherOk(s: State, t: nat, expired: bool, u: nat)
    requires Inv(s) && Enabled(s, Move(t, expired)) && u < |s.threads| && u != t
    ensures ThreadOk(Apply(s, Move(t, expired)), u, s.threads[u])
  {
    var s' := Apply(s, Move(t, expired));
    var pc := s.threads[u];
    assert ThreadOk(s, u, pc);
    ActKeeps(s, t, expired);
    DoneAtMostOnce(s, t, expired);
    if pc.FinishClosing? || pc.FinishCtl? || pc.FinishEnd? {
      ActiveStays(s, t, expired, u);
      DoneStays(s, t, expired, u);
    } else if pc.Run? || pc.FinishWant? || pc.FinishIn? {
      ActiveStays(s, t, expired, u);
    }
    Undisturbed(s, s', u, pc);
  }

  lemma FinisherOk(s: State, t: nat, expired: bool)
    requires Inv(s) && Enabled(s, Move(t, expired))
    requires
      var pc := s.threads[t];
      pc.BeginIn? || pc.Run? || pc.FinishWant? || pc.FinishIn? || pc.FinishClosing? || pc.FinishCtl? || pc.FinishEnd?
    ensures ThreadOk(Apply(s, Move(t, expired)), t, Act(s, t, expired).1)
  {
    var pc := s.threads[t];
    assert ThreadOk(s, t, pc);
    if !pc.BeginIn? { assert ChatOk(s, pc.k); }
  }

  lemma MoverOk(s: State, t: nat, expired: bool)
    requires Inv(s) && Enabled(s, Move(t, expired))
    ensures ThreadOk(Apply(s, Move(t, expired)), t, Act(s, t, expired).1)
  {
    var pc := s.threads[t];
    assert ThreadOk(s, t, pc);
    if pc.BeginIn? || pc.Run? || pc.FinishWant? || pc.FinishIn? || pc.FinishClosing? || pc.FinishCtl? || pc.FinishEnd? {
      FinisherOk(s, t, expired);
    } else if pc.CancelIn? || pc.CancelClosing? || pc.CancelCtl? || pc.CancelEnd? || pc.CancelWait? {
      CancellerOk(s, t, expired);
    } else {
      SubmitterOk(s, t, expired);
    }
  }

  lemma CancellerOk(s: State, t: nat, expired: bool)
    requires Inv(s) && Enabled(s, Move(t, expired))
    requires
      var pc := s.threads[t];
      pc.CancelIn? || pc.CancelClosing? || pc.CancelCtl? || pc.CancelEnd? || pc.CancelWait?
    ensures ThreadOk(Apply(s, Move(t, expired)), t, Act(s, t, expired).1)
  {
    var pc := s.threads[t];
    assert ThreadOk(s, t, pc);
    if pc.CancelWait? { assert ChatOk(s, pc.k); }
  }

  lemma SubmitterOk(s: State, t: nat, expired: bool)
    requires Inv(s) && Enabled(s, Move(t, expired))
    requires
      var pc := s.threads[t];
      pc.BeginWant? || pc.CancelWant? || pc.SubmitWant? || pc.SubmitIn? || pc.SubmitRun? || pc.SubmitClosing? || pc.SubmitCtl?
      || pc.SubmitWait? || pc.SectionWant? || pc.SectionIn?
    ensures ThreadOk(Apply(s, Move(t, expired)), t, Act(s, t, expired).1)
  {
    var pc := s.threads[t];
    assert ThreadOk(s, t, pc);
    if pc.SubmitWait? { assert ChatOk(s, pc.k); }
  }

  // ---------------------------------------------------------------------------------------
  // Locks
  // ---------------------------------------------------------------------------------------

  lemma ServerLockKept(s: State, t: nat, expired: bool)
    requires Inv(s) && Enabled(s, Move(t, expired))
    ensures
      var (s', pc') := Act(s, t, expired);
      && (if HoldsServer(pc') then s'.server == Some(t) else s'.server != Some(t))
      && (s'.server != s.server ==> s.server.None? || s.server == Some(t))
      && (s'.server.Some? && s'.server != s.server ==> s'.server == Some(t))
  {
    assert ThreadOk(s, t, s.threads[t]);
  }

  function LockAfter(s: State, t: nat, pc': Pc, k: nat, i: nat): Option<nat>
    requires t < |s.threads| && IsCtl(s, k, i)
  {
    if HoldsCtl(pc') == Some(CtlLock(k, i)) then Some(t)
    else if HoldsCtl(s.threads[t]) == Some(CtlLock(k, i)) then None
    else s.chats[k].locks[i]
  }

  predicate Touches(pc: Pc) {
    pc.FinishClosing? || pc.CancelClosing? || pc.SubmitClosing? || pc.SectionWant? || HoldsCtl(pc).Some?
  }

  lemma UntouchedLocks(s: State, t: nat, expired: bool, k: nat, i: nat)
    requires Enabled(s, Move(t, expired)) && IsCtl(s, k, i) && !Touches(s.threads[t])
    ensures
      var (s', pc') := Act(s, t, expired);
      IsCtl(s', k, i) && s'.chats[k].locks[i] == s.chats[k].locks[i] && LockAfter(s, t, pc', k, i) == s.chats[k].locks[i]
  {
  }

  lemma TouchedLocks(s: State, t: nat, expired: bool, k: nat, i: nat)
    requires Enabled(s, Move(t, expired)) && IsCtl(s, k, i) && Touches(s.threads[t])
    ensures
      var (s', pc') := Act(s, t, expired);
      IsCtl(s', k, i) && s'.chats[k].locks[i] == LockAfter(s, t, pc', k, i)
  {
  }

  /** A controller's mutex changes only in the hands of the goroutine that moves. */
  lemma CtlLockKept(s: State, t: nat, expired: bool, k: nat, i: nat)
    requires Inv(s) && Enabled(s, Move(t, expired)) && k < |s.chats| && i < CONTROLLERS
    ensures IsCtl(s, k, i)
    ensures
      var (s', pc') := Act(s, t, expired);
      IsCtl(s', k, i) && s'.chats[k].locks[i] == LockAfter(s, t, pc', k, i)
  {
    assert ChatOk(s, k);
    if Touches(s.threads[t]) { TouchedLocks(s, t, expired, k, i); } else { UntouchedLocks(s, t, expired, k, i); }
  }

  lemma HeldExists(s: State, t: nat)
    requires Inv(s) && t < |s.threads| && HoldsCtl(s.threads[t]).Some?
    ensures s.threads[t].k < |s.chats| && s.threads[t].i < CONTROLLERS
    ensures HoldsCtl(s.threads[t]) == Some(CtlLock(s.threads[t].k, s.threads[t].i))
  {
    assert ThreadOk(s, t, s.threads[t]);
  }

  lemma LocksKept(s: State, t: nat, expired: bool)
    requires Inv(s) && Enabled(s, Move(t, expired))
    ensures LocksOk(Apply(s, Move(t, expired)))
  {
    var s' := Apply(s, Move(t, expired));
    ServerLockKept(s, t, expired);
    forall u | 0 <= u < |s'.threads| && HoldsCtl(s'.threads[u]).Some?
      ensures OwnerOf(s', HoldsCtl(s'.threads[u]).value) == Some(u)
    {
      CtlLockHeld(s, t, expired, u);
    }
  }

  lemma CtlLockHeld(s: State, t: nat, expired: bool, u: nat)
    requires Inv(s) && Enabled(s, Move(t, expired))
    requires u < |s.threads| && HoldsCtl(Apply(s, Move(t, expired)).threads[u]).Some?
    ensures OwnerOf(Apply(s, Move(t, expired)), HoldsCtl(Apply(s, Move(t, expired)).threads[u]).value) == Some(u)
  {
    if u == t {
      assert ThreadOk(s, t, s.threads[t]);
      CtlLockKept(s, t, expired, s.threads[t].k, s.threads[t].i);
    } else {
      HeldExists(s, u);
      var k, i := s.threads[u].k, s.threads[u].i;
      CtlLockKept(s, t, expired, k, i);
      assert OwnerOf(s, CtlLock(k, i)) == Some(u);
      if HoldsCtl(Act(s, t, expired).1) == Some(CtlLock(k, i)) { TakerFindsFree(s, t, expired, k, i); }
    }
  }

  lemma TakerFindsFree(s: State, t: nat, expired: bool, k: nat, i: nat)
    requires Inv(s) && Enabled(s, Move(t, expired)) && HoldsCtl(Act(s, t, expired).1) == Some(CtlLock(k, i))
    ensures OwnerOf(s, CtlLock(k, i)).None?
  {
  }

  // ---------------------------------------------------------------------------------------
  // Chats
  // ---------------------------------------------------------------------------------------

  lemma OwnerPhase(s: State, t: nat, expired: bool, k: nat)
    requires Inv(s) && Enabled(s, Move(t, expired)) && k < |s.chats|
    ensures
      var s' := Apply(s, Move(t, expired));
      if s'.chats[k].doneCloses == 0 then InChat(PcOf(s', s'.chats[k].owner), k)
      else PcOf(s', s'.chats[k].owner) == Finished(k) && ClosedUpTo(s', k, CONTROLLERS)
  {
    var s' := Apply(s, Move(t, expired));
    assert ChatOk(s, k);
    assert ThreadOk(s, t, s.threads[t]);
    ActKeeps(s, t, expired);
  }

  lemma CtlOwnersKept(s: State, t: nat, expired: bool, k: nat, i: nat)
    requires Inv(s) && Enabled(s, Move(t, expired)) && k < |s.chats| && i < CONTROLLERS
    ensures
      var s' := Apply(s, Move(t, expired));
      k < |s'.chats| && IsCtl(s', k, i) &&
      (s'.chats[k].locks[i].Some? ==> HoldsCtl(PcOf(s', s'.chats[k].locks[i].value)) == Some(CtlLock(k, i)))
  {
    CtlLockKept(s, t, expired, k, i);
    assert ChatOk(s, k);
  }

  lemma ChatKept(s: State, t: nat, expired: bool, k: nat)
    requires Inv(s) && Enabled(s, Move(t, expired)) && k < |Apply(s, Move(t, expired)).chats|
    ensures ChatOk(Apply(s, Move(t, expired)), k)
  {
    var s' := Apply(s, Move(t, expired));
    DoneAtMostOnce(s, t, expired);
    if k < |s.chats| {
      OwnerPhase(s, t, expired, k);
      forall i | 0 <= i < CONTROLLERS && s'.chats[k].locks[i].Some?
        ensures HoldsCtl(PcOf(s', s'.chats[k].locks[i].value)) == Some(CtlLock(k, i))
      {
        CtlOwnersKept(s, t, expired, k, i);
      }
    }
  }

  lemma ActiveKept(s: State, t: nat, expired: bool)
    requires Inv(s) && Enabled(s, Move(t, expired))
    ensures
      var s' := Apply(s, Move(t, expired));
      s'.active.Some? ==> s'.active.value < |s'.chats| && s'.chats[s'.active.value].doneCloses == 0
  {
    assert ThreadOk(s, t, s.threads[t]);
  }

  lemma InvStep(s: State, x: Step)
    requires Inv(s) && Enabled(s, x)
    ensures Inv(Apply(s, x)) && ChatsKept(s, Apply(s, x))
  {
    var s' := Apply(s, x);
    match x
    case Spawn(pc) =>
      KeptReflexive(s);
      SpawnOk(s, pc);
    case Move(t, expired) =>
      ActKeeps(s, t, expired);
      forall u | 0 <= u < |s'.threads| ensures ThreadOk(s', u, s'.threads[u]) {
        if u == t { MoverOk(s, t, expired); } else { OtherOk(s, t, expired, u); }
      }
      forall k | 0 <= k < |s'.chats| ensures ChatOk(s', k) { ChatKept(s, t, expired, k); }
      LocksKept(s, t, expired);
      ActiveKept(s, t, expired);
  }

  lemma SpawnOk(s: State, pc: Pc)
    requires Inv(s) && Enabled(s, Spawn(pc))
    ensures Inv(Apply(s, Spawn(pc)))
  {
    var s' := Apply(s, Spawn(pc));
    forall u | 0 <= u < |s'.threads| ensures ThreadOk(s', u, s'.threads[u]) {
      if u < |s.threads| { assert ThreadOk(s, u, s.threads[u]); }
    }
    forall k | 0 <= k < |s'.chats| ensures ChatOk(s', k) { assert ChatOk(s, k); }
  }

  // ---------------------------------------------------------------------------------------
  // Theorems
  // ---------------------------------------------------------------------------------------

  lemma {:induction false} RunInv(ss: seq<State>, xs: seq<Step>, n: nat)
    requires IsRun(ss, xs) && n < |ss|
    ensures Inv(ss[n])
  {
    if n > 0 {
      RunInv(ss, xs, n - 1);
      InvStep(ss[n - 1], xs[n - 1]);
    }
  }

  /** At most one chat is unfinished at any time, and no done channel is closed twice. */
  lemma AtMostOneUnfinishedChat(ss: seq<State>, xs: seq<Step>, n: nat, j: nat, k: nat)
    requires IsRun(ss, xs) && n < |ss| && j < |ss[n].chats| && k < |ss[n].chats|
    ensures ss[n].chats[j].doneCloses <= 1
    ensures ss[n].chats[j].doneCloses == 0 && ss[n].chats[k].doneCloses == 0 ==> j == k
  {
    RunInv(ss, xs, n);
    var s := ss[n];
    assert ChatOk(s, j) && ChatOk(s, k);
    if s.chats[j].doneCloses == 0 && s.chats[k].doneCloses == 0 {
      assert ThreadOk(s, s.chats[j].owner, PcOf(s, s.chats[j].owner));
      assert ThreadOk(s, s.chats[k].owner, PcOf(s, s.chats[k].owner));
    }
  }

  /**
   Cancel-and-wait, and a submission that cancelled the chat, return only when the chat they saw is
   finished with all three controllers closed.
   */
  lemma WaitersSeeAFinishedChat(ss: seq<State>, xs: seq<Step>, n: nat, t: nat, k: nat)
    requires IsRun(ss, xs) && n < |ss|
    requires PcOf(ss[n], t) == CancelGone(Some(k)) || PcOf(ss[n], t) == SubmitGone(Some(k))
    ensures k < |ss[n].chats| && ss[n].chats[k].doneCloses == 1 && ss[n].chats[k].closed == [true, true, true]
    ensures PcOf(ss[n], ss[n].chats[k].owner) == Finished(k)
  {
    RunInv(ss, xs, n);
    assert ThreadOk(ss[n], t, ss[n].threads[t]);
    assert ChatOk(ss[n], k);
  }

  /** `t` asks for a lock that `u` holds. */
  predicate WaitsFor(s: State, t: nat, u: nat) {
    Wants(PcOf(s, t)).Some? && OwnerOf(s, Wants(PcOf(s, t)).value) == Some(u)
  }

  /** The lock order: whoever holds a controller's mutex asks for nothing; whoever holds the server mutex asks for a controller's only. */
  lemma LockOrder(s: State, t: nat, u: nat)
    requires Inv(s) && WaitsFor(s, t, u)
    ensures Wants(PcOf(s, t)).value.CtlLock? ==> Wants(PcOf(s, u)).None?
    ensures Wants(PcOf(s, t)).value.ServerLock? && Wants(PcOf(s, u)).Some? ==> Wants(PcOf(s, u)).value.CtlLock?
  {
    if Wants(PcOf(s, t)).value.CtlLock? {
      var k, i := Wants(PcOf(s, t)).value.k, Wants(PcOf(s, t)).value.i;
      assert ChatOk(s, k);
    }
  }

  /** No set of goroutines waits for locks in a circle. */
  lemma NoCyclicWait(ss: seq<State>, xs: seq<Step>, n: nat, ring: seq<nat>)
    requires IsRun(ss, xs) && n < |ss| && ring != []
    ensures exists m :: 0 <= m < |ring| && !WaitsFor(ss[n], ring[m], ring[if m + 1 < |ring| then m + 1 else 0])
  {
    RunInv(ss, xs, n);
    var s := ss[n];
    var a := ring[0];
    var b := ring[if 1 < |ring| then 1 else 0];
    var c := ring[if 2 < |ring| then 2 else 0];
    if WaitsFor(s, a, b) {
      LockOrder(s, a, b);
      if WaitsFor(s, b, c) {
        LockOrder(s, b, c);
        assert Wants(PcOf(s, c)).None?;
        var m := if 2 < |ring| then 2 else 0;
        assert !WaitsFor(s, ring[m], ring[if m + 1 < |ring| then m + 1 else 0]);
      } else {
        assert !WaitsFor(s, ring[1], ring[if 1 + 1 < |ring| then 1 + 1 else 0]);
      }
    } else {
      assert !WaitsFor(s, ring[0], ring[if 0 + 1 < |ring| then 0 + 1 else 0]);
    }
  }

  /** Whenever a goroutine waits for a lock, the holder at the end of its chain of waits can move. */
  lemma LockWaitEnds(s: State, t: nat, u: nat)
    requires Inv(s) && WaitsFor(s, t, u)
    ensures exists v :: (v == u || WaitsFor(s, u, v)) && Enabled(s, Move(v, false))
  {
    LockOrder(s, t, u);
    HolderExists(s, t, u);
    if Wants(PcOf(s, u)).None? {
      HolderMoves(s, u);
      assert (u == u || WaitsFor(s, u, u)) && Enabled(s, Move(u, false));
    } else {
      var l := Wants(PcOf(s, u)).value;
      assert ThreadOk(s, u, s.threads[u]);
      assert ChatOk(s, l.k);
      if OwnerOf(s, l).None? {
        assert (u == u || WaitsFor(s, u, u)) && Enabled(s, Move(u, false));
      } else {
        var v := OwnerOf(s, l).value;
        assert WaitsFor(s, u, v);
        LockOrder(s, u, v);
        HolderExists(s, u, v);
        HolderMoves(s, v);
      }
    }
  }

  lemma HolderExists(s: State, t: nat, u: nat)
    requires Inv(s) && WaitsFor(s, t, u)
    ensures u < |s.threads| && (HoldsServer(s.threads[u]) || HoldsCtl(s.threads[u]).Some?)
  {
    var l := Wants(PcOf(s, t)).value;
    if l.CtlLock? { assert ChatOk(s, l.k); }
  }

  lemma HolderMoves(s: State, u: nat)
    requires Inv(s) && u < |s.threads| && (HoldsServer(s.threads[u]) || HoldsCtl(s.threads[u]).Some?) && Wants(s.threads[u]).None?
    ensures Enabled(s, Move(u, false))
  {
    assert ThreadOk(s, u, s.threads[u]);
    if HoldsCtl(s.threads[u]).Some? { assert ChatOk(s, s.threads[u].k); }
  }

  /** Who waits for a chat to be done holds no lock, and the chat's owner is still there to finish it. */
  lemma DoneWaitIsServed(ss: seq<State>, xs: seq<Step>, n: nat, t: nat)
    requires IsRun(ss, xs) && n < |ss| && WaitsDone(PcOf(ss[n], t))
    ensures !HoldsServer(PcOf(ss[n], t)) && HoldsCtl(PcOf(ss[n], t)).None?
    ensures
      var k := PcOf(ss[n], t).k;
      && k < |ss[n].chats|
      && (ss[n].chats[k].doneCloses > 0 || InChat(PcOf(ss[n], ss[n].chats[k].owner), k))
  {
    RunInv(ss, xs, n);
    assert ThreadOk(ss[n], t, ss[n].threads[t]);
    assert ChatOk(ss[n], PcOf(ss[n], t).k);
  }
}
