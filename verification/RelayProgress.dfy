/** That a relay which has stopped reading returns: its deferred wait for the cancellation worker ends. */
module RelayProgress {
  import opened Outcomes
  import opened Rendezvous
  import opened RendezvousInvariant
  import opened RendezvousTheorems
  import opened Relay
  import opened RelayThreads
  import opened RelayInvariant
  import opened RelayTheorems

  /** The main loop is over, with or without an error, and the relay waits for its worker. */
  predicate Stopped(s: Sys) {
    s.main.Ending? || s.main.Leaving?
  }

  /** The worker's context has expired, as it does when the relay cancels its own. */
  predicate WorkerCancelled(s: Sys) {
    s.worker.Running? ==> CtxOf(s.ctls.cancel, s.worker.t).Some?
  }

  /** A bound on the steps that worker and relay still take. */
  function Remaining(s: Sys): nat {
    if !Stopped(s) then 0
    else 1 + if s.worker.Running? then 1 + Rank(PcIn(s, Cancel, s.worker.t)) else 0
  }

  /** The relay's return, the worker's end, and the steps the worker takes part in. */
  predicate IsOwn(s: Sys, y: RelayStep) {
    match y
    case WorkerEnds => true
    case Return => true
    case WriteOut(k, t, _) => k.Cancel? && s.worker.Running? && t == s.worker.t
    case Env(k, x) => k.Cancel? && s.worker.Running? && TakesPart(x, s.worker.t)
    case _ => false
  }

  lemma RemainingBounded(s: Sys)
    ensures Remaining(s) <= 8
  {
  }

  lemma ContextKept(r: Rules, c: State, x: Step, t: nat)
    requires Enabled(c, x) && CtxOf(c, t).Some?
    ensures CtxOf(Apply(r, c, x), t) == CtxOf(c, t)
  {
  }

  /** A step of the cancellation controller, as the worker sees it. */
  lemma CancelStep(cfg: Config, s: Sys, x: Step)
    requires s.worker.Running? && s.worker.t < |s.ctls.cancel.threads| && Enabled(s.ctls.cancel, x)
    ensures
      var c' := Apply(cfg.rules(Cancel), s.ctls.cancel, x);
      var before, after := Rank(PcOf(s.ctls.cancel, s.worker.t)), Rank(PcOf(c', s.worker.t));
      && (if TakesPart(x, s.worker.t) then after < before else after == before)
      && (WorkerCancelled(s) ==> CtxOf(c', s.worker.t).Some?)
  {
    RankFalls(cfg.rules(Cancel), s.ctls.cancel, x, s.worker.t);
    if WorkerCancelled(s) { ContextKept(cfg.rules(Cancel), s.ctls.cancel, x, s.worker.t); }
  }

  lemma WorkerThread(cfg: Config, s: Sys)
    requires SysInv(cfg, s) && s.worker.Running?
    ensures s.worker.t < |s.ctls.cancel.threads| && AwaitPc(s.ctls.cancel.threads[s.worker.t].pc)
    ensures ThreadOk(cfg.rules(Cancel), s.ctls.cancel.heap, s.worker.t, s.ctls.cancel.threads[s.worker.t].pc)
    ensures Inv(cfg.rules(Cancel), s.ctls.cancel)
  {
    assert WorkerOk(s);
    assert CtlOk(cfg.rules(Cancel), Get(s.ctls, Cancel));
  }

  /** Once stopped, nobody's step takes the relay back, and each own step brings its return nearer. */
  lemma StoppedStep(cfg: Config, s: Sys, y: RelayStep)
    requires SysInv(cfg, s) && Stopped(s) && WorkerCancelled(s) && CanDo(s, y)
    ensures
      var s' := Do(cfg, s, y);
      && (Stopped(s') || s'.main.Returned?) && (s'.main.Returned? <==> y.Return?) && WorkerCancelled(s')
      && (if IsOwn(s, y) then Remaining(s') < Remaining(s) else Remaining(s') == Remaining(s))
  {
    if s.worker.Running? { WorkerThread(cfg, s); }
    match y
    case WriteOut(k, t, reply) => StoppedWrite(cfg, s, k, t, reply);
    case Env(k, x) => if k.Cancel? && s.worker.Running? { CancelStep(cfg, s, x); }
    case _ =>
  }

  lemma StoppedWrite(cfg: Config, s: Sys, k: Kind, t: nat, reply: Reply)
    requires Stopped(s) && WorkerCancelled(s) && CanDo(s, WriteOut(k, t, reply))
    requires s.worker.Running? ==> s.worker.t < |s.ctls.cancel.threads|
    ensures
      var y := WriteOut(k, t, reply);
      var s' := Do(cfg, s, y);
      && Stopped(s') && WorkerCancelled(s')
      && (if IsOwn(s, y) then Remaining(s') < Remaining(s) else Remaining(s') == Remaining(s))
  {
    if k.Cancel? && s.worker.Running? {
      var c := s.ctls.cancel;
      var answer := c.heap.deliveries[c.threads[t].pc.d].answer;
      CancelStep(cfg, s, Write(t, WriteFrame(cfg, k, answer, reply).1));
    }
  }

  /** The step the worker can always take next once its context has expired. */
  function WorkerStep(s: Sys): RelayStep
    requires s.worker.Running?
  {
    var t := s.worker.t;
    match PcIn(s, Cancel, t)
    case AwaitStart(_) => Env(Cancel, Register(t))
    case AwaitSelect(_) => Env(Cancel, AwaitExpired(t))
    case AwaitReleasing(_, _) => Env(Cancel, AwaitRelease(t))
    case Holding(_, _) => WriteOut(Cancel, t, Reply(0, None))
    case Completing(_, _, _) => Env(Cancel, Complete(t))
    case Acking(_, _, _) => Env(Cancel, AckSend(t))
    case _ => WorkerEnds
  }

  /** What a stopped relay does next: its worker's step, or its return. */
  function NextOwn(s: Sys): RelayStep {
    if s.worker.Running? then WorkerStep(s) else Return
  }

  /** A stopped relay whose worker is cancelled never waits for anybody else. */
  lemma StoppedCanMove(cfg: Config, s: Sys)
    requires SysInv(cfg, s) && Stopped(s) && WorkerCancelled(s)
    ensures CanDo(s, NextOwn(s)) && IsOwn(s, NextOwn(s))
  {
    if s.worker.Running? {
      WorkerThread(cfg, s);
      WorkerCanMove(cfg.rules(Cancel), s);
    }
  }

  lemma WorkerCanMove(r: Rules, s: Sys)
    requires s.worker.Running? && WorkerCancelled(s) && Inv(r, s.ctls.cancel)
    requires s.worker.t < |s.ctls.cancel.threads| && AwaitPc(s.ctls.cancel.threads[s.worker.t].pc)
    ensures CanDo(s, WorkerStep(s)) && IsOwn(s, WorkerStep(s))
  {
    var c, t := s.ctls.cancel, s.worker.t;
    var pc := c.threads[t].pc;
    assert ThreadOk(r, c.heap, t, pc);
    if pc.Holding? || pc.Completing? || pc.Acking? { assert DeliveryOk(r, c.heap, pc.d); }
    if pc.Acking? { AckNeverBlocks(r, c, t); }
    if pc.Holding? { assert Owned(s, Cancel, t); }
  }

  // ---------------------------------------------------------------------------------------
  // Runs from a stopped relay
  // ---------------------------------------------------------------------------------------

  ghost predicate IsRelayPath(cfg: Config, ss: seq<Sys>, ys: seq<RelayStep>) {
    |ss| == |ys| + 1 && forall n :: 0 <= n < |ys| ==> CanDo(ss[n], ys[n]) && ss[n + 1] == Do(cfg, ss[n], ys[n])
  }

  function OwnSteps(ss: seq<Sys>, ys: seq<RelayStep>): nat
    requires |ss| == |ys| + 1
  {
    if ys == [] then 0
    else OwnSteps(ss[..|ys|], ys[..|ys| - 1]) + if IsOwn(ss[|ys| - 1], ys[|ys| - 1]) then 1 else 0
  }

  /** Stopped, with its worker cancelled. */
  ghost predicate Winding(cfg: Config, s: Sys) {
    SysInv(cfg, s) && Stopped(s) && WorkerCancelled(s)
  }

  /**
   From any stopped state whose worker is cancelled, however everybody else behaves: worker and relay take at
   most eight steps before the relay returns, and until it has returned one of them is always possible.
   */
  lemma {:induction false} WindsDown(cfg: Config, ss: seq<Sys>, ys: seq<RelayStep>)
    requires IsRelayPath(cfg, ss, ys) && Winding(cfg, ss[0]) && forall n :: 0 <= n < |ys| ==> !ss[n].main.Returned?
    ensures OwnSteps(ss, ys) + Remaining(ss[|ys|]) <= Remaining(ss[0]) <= 8
    ensures ss[|ys|].main.Returned? || (Winding(cfg, ss[|ys|]) && CanDo(ss[|ys|], NextOwn(ss[|ys|])) && IsOwn(ss[|ys|], NextOwn(ss[|ys|])))
    decreases |ys|
  {
    RemainingBounded(ss[0]);
    if ys == [] {
      StoppedCanMove(cfg, ss[0]);
    } else {
      var n := |ys| - 1;
      WindsDown(cfg, ss[..n + 1], ys[..n]);
      StoppedStep(cfg, ss[n], ys[n]);
      SysStep(cfg, ss[n], ys[n]);
      if !ss[n + 1].main.Returned? { StoppedCanMove(cfg, ss[n + 1]); }
    }
  }

  lemma {:induction false} ReturnWithin(cfg: Config, s: Sys) returns (ss: seq<Sys>, ys: seq<RelayStep>)
    requires Winding(cfg, s)
    ensures IsRelayPath(cfg, ss, ys) && ss[0] == s && ss[|ys|].main.Returned? && |ys| <= Remaining(s)
    decreases Remaining(s)
  {
    var y := NextOwn(s);
    StoppedCanMove(cfg, s);
    StoppedStep(cfg, s, y);
    var s' := Do(cfg, s, y);
    if s'.main.Returned? {
      ss, ys := [s, s'], [y];
    } else {
      SysStep(cfg, s, y);
      var rest, steps := ReturnWithin(cfg, s');
      ss, ys := [s] + rest, [y] + steps;
      Prepended(cfg, s, y, rest, steps);
    }
  }

  lemma Prepended(cfg: Config, s: Sys, y: RelayStep, ss: seq<Sys>, ys: seq<RelayStep>)
    requires IsRelayPath(cfg, ss, ys) && CanDo(s, y) && ss[0] == Do(cfg, s, y)
    ensures IsRelayPath(cfg, [s] + ss, [y] + ys)
  {
    var all, steps := [s] + ss, [y] + ys;
    forall n | 0 <= n < |steps| ensures CanDo(all[n], steps[n]) && all[n + 1] == Do(cfg, all[n], steps[n]) {
      if n > 0 { assert all[n] == ss[n - 1] && all[n + 1] == ss[n] && steps[n] == ys[n - 1]; }
    }
  }

  /** What the relay's own cancellation does. */
  function Cancelled(cfg: Config, s: Sys): Sys
    requires s.worker.Running? && CanDo(s, Env(Cancel, Expire(s.worker.t, Err.Canceled)))
  {
    Do(cfg, s, Env(Cancel, Expire(s.worker.t, Err.Canceled)))
  }

  /** From every stopped state of every run, cancelling the worker leads to the relay's return in at most nine steps. */
  lemma CancelledRelayReturns(cfg: Config, ss: seq<Sys>, ys: seq<RelayStep>, lines: seq<string>, n: nat)
    returns (more: seq<Sys>, steps: seq<RelayStep>)
    requires IsRelayRun(cfg, ss, ys, lines) && n < |ss| && Stopped(ss[n])
    ensures IsRelayPath(cfg, more, steps) && more[0] == ss[n] && more[|steps|].main.Returned? && |steps| <= 9
  {
    RelayTheorems.RunInv(cfg, ss, ys, lines, n);
    var s := ss[n];
    RemainingBounded(s);
    if WorkerCancelled(s) {
      more, steps := ReturnWithin(cfg, s);
    } else {
      WorkerThread(cfg, s);
      var y := Env(Cancel, Expire(s.worker.t, Err.Canceled));
      assert CanDo(s, y);
      var s' := Cancelled(cfg, s);
      SysStep(cfg, s, y);
      RemainingBounded(s');
      var rest, moves := ReturnWithin(cfg, s');
      more, steps := [s] + rest, [y] + moves;
      Prepended(cfg, s, y, rest, moves);
    }
  }
}
