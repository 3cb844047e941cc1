/** With which result the relay returns: exactly which event of the run each error comes from. */
module RelayReturns {
  import opened Outcomes
  import opened Rendezvous
  import opened Relay
  import opened RelayInvariant
  import opened RelayTheorems

  /** Why a scope cannot be registered with a controller in state `core`. */
  predicate RefusesScope(r: Rules, core: Core, scope: Request, e: Err) {
    || (!r.valid(scope) && e == RequestInvalid)
    || (r.valid(scope) && core.closed && e == TransportClosed)
    || (r.valid(scope) && !core.closed && core.slot.Some? && e == AlreadyPending)
  }

  /** The private line `line`, read in state `s`, cannot be relayed: it does not decode, is a second scope, or is a scope that cannot be registered. */
  predicate BadLine(cfg: Config, s: Sys, line: string, e: Err) {
    LineKind(line).Some? &&
    var k, request := LineKind(line).value, cfg.decode(LineKind(line).value, Body(line));
    if !k.Cancel? then request.None? && e == Other("invalid private frame")
    else if s.pos <= |s.lines| && ScopeBodies(s.lines[..s.pos]) != [] then e == Other("duplicate private cancellation scope frame")
    else if request.None? then e == Other("invalid private cancellation scope frame")
    else RefusesScope(cfg.rules(Cancel), s.ctls.cancel.heap.core, request.value, e)
  }

  /** Step `y` in state `s` ends the relay with error `e`: a line that cannot be relayed, or a prompt whose await ended with `e`. */
  predicate Breaks(cfg: Config, s: Sys, y: RelayStep, e: Err) {
    || (y.ReadLine? && s.main.Reading? && s.pos < |s.lines| && BadLine(cfg, s, s.lines[s.pos], e))
    || (y.Resume? && s.main.Waiting? && PcIn(s, s.main.k, s.main.t).AwaitDone? && PcIn(s, s.main.k, s.main.t).result == Some(e))
  }

  /** The worker's await ended with an error that is not its own cancellation. */
  predicate WorkerFailed(s: Sys, e: Err) {
    s.worker.Ended? && s.worker.err == Some(e) && e != Canceled && PcIn(s, Cancel, s.worker.t).AwaitDone?
    && PcIn(s, Cancel, s.worker.t).result == Some(e)
  }

  // ---------------------------------------------------------------------------------------
  // What the main loop is in the course of
  // ---------------------------------------------------------------------------------------

  predicate Past(m: Main) {
    !m.Reading? && !m.Waiting?
  }

  /** Step `y` in state `s` ended the main loop in a way that `main` follows from. */
  predicate Ends(cfg: Config, s: Sys, y: RelayStep, main: Main) {
    match main
    case Ending(scan) => y == StopReading(scan)
    case Leaving(e) => Breaks(cfg, s, y, e)
    case Returned(result) => y.StopReading? || (result.Some? && Breaks(cfg, s, y, result.value))
    case _ => false
  }

  /** A step that is not the main loop's leaves the main loop where it is. */
  lemma MainMoves(cfg: Config, s: Sys, y: RelayStep)
    requires CanDo(s, y)
    ensures s.main.Ending? || s.main.Leaving? ==> Do(cfg, s, y).main == s.main || y.Return?
    ensures s.main.Returned? ==> Do(cfg, s, y).main == s.main
    ensures Do(cfg, s, y).main.Ending? && !s.main.Ending? ==> y == StopReading(Do(cfg, s, y).main.scan)
    ensures Do(cfg, s, y).main.Returned? && !s.main.Returned? ==> y.Return?
  {
  }

  lemma LeavesByBreaking(cfg: Config, s: Sys, y: RelayStep)
    requires SysInv(cfg, s) && CanDo(s, y) && Do(cfg, s, y).main.Leaving? && !s.main.Leaving?
    ensures Breaks(cfg, s, y, Do(cfg, s, y).main.err)
  {
    if y.ReadLine? {
      var line := s.lines[s.pos];
      assert MatchesLines(cfg, s) && ScopesMatch(cfg, s);
      if LineKind(line) == Some(Cancel) { ScopeRefused(cfg, s, line); }
    }
  }

  lemma ScopeRefused(cfg: Config, s: Sys, line: string)
    requires SysInv(cfg, s) && CanDo(s, ReadLine) && s.lines[s.pos] == line && LineKind(line) == Some(Cancel)
    requires Do(cfg, s, ReadLine).main.Leaving?
    ensures BadLine(cfg, s, line, Do(cfg, s, ReadLine).main.err)
  {
    assert ScopesMatch(cfg, s);
  }

  lemma EndsNow(cfg: Config, s: Sys, y: RelayStep)
    requires SysInv(cfg, s) && CanDo(s, y) && !Past(s.main) && Past(Do(cfg, s, y).main)
    ensures Ends(cfg, s, y, Do(cfg, s, y).main)
  {
    MainMoves(cfg, s, y);
    if Do(cfg, s, y).main.Leaving? { LeavesByBreaking(cfg, s, y); }
  }

  lemma EndsStill(cfg: Config, s0: Sys, y0: RelayStep, s: Sys, y: RelayStep)
    requires CanDo(s, y) && Past(s.main) && Ends(cfg, s0, y0, s.main)
    ensures Past(Do(cfg, s, y).main) && Ends(cfg, s0, y0, Do(cfg, s, y).main)
  {
    MainMoves(cfg, s, y);
  }

  /** What a run says about its step `n`. */
  ghost predicate StepAt(cfg: Config, ss: seq<Sys>, ys: seq<RelayStep>, n: nat) {
    n < |ys| && n + 1 < |ss| && SysInv(cfg, ss[n]) && CanDo(ss[n], ys[n]) && ss[n + 1] == Do(cfg, ss[n], ys[n])
  }

  ghost predicate Watched(cfg: Config, ss: seq<Sys>, ys: seq<RelayStep>) {
    |ss| == |ys| + 1 && !Past(ss[0].main) && forall n :: 0 <= n < |ys| ==> StepAt(cfg, ss, ys, n)
  }

  lemma RunIsWatched(cfg: Config, ss: seq<Sys>, ys: seq<RelayStep>, lines: seq<string>)
    requires IsRelayRun(cfg, ss, ys, lines)
    ensures Watched(cfg, ss, ys)
  {
    forall n | 0 <= n < |ys| ensures StepAt(cfg, ss, ys, n) { RelayTheorems.RunInv(cfg, ss, ys, lines, n); }
  }

  /** Over a run: whoever is past the main loop got there by one such step. */
  lemma {:induction false} PastTheLoop(cfg: Config, ss: seq<Sys>, ys: seq<RelayStep>, n: nat) returns (a: nat)
    requires Watched(cfg, ss, ys) && n < |ss| && Past(ss[n].main)
    ensures a < n && Ends(cfg, ss[a], ys[a], ss[n].main)
  {
    a := n - 1;
    assert StepAt(cfg, ss, ys, n - 1);
    if Past(ss[n - 1].main) {
      a := PastTheLoop(cfg, ss, ys, n - 1);
      EndsStill(cfg, ss[a], ys[a], ss[n - 1], ys[n - 1]);
    } else {
      EndsNow(cfg, ss[n - 1], ys[n - 1]);
    }
  }

  // ---------------------------------------------------------------------------------------
  // What becomes of it
  // ---------------------------------------------------------------------------------------

  /** After the child's output ended with `scan`: the scan's error if there is one, else the worker's failure, else none. */
  ghost predicate EndsAs(s: Sys, scan: Option<Err>) {
    || s.main == Ending(scan)
    || (s.main.Returned? && scan.Some? && s.main.result == scan)
    || (s.main.Returned? && scan.None? && s.main.result.Some? && WorkerFailed(s, s.main.result.value))
    || (s.main.Returned? && scan.None? && s.main.result.None? && forall e :: !WorkerFailed(s, e))
  }

  lemma WorkerStays(cfg: Config, s: Sys, y: RelayStep, e: Err)
    requires SysInv(cfg, s) && CanDo(s, y) && s.worker.Ended?
    ensures WorkerFailed(Do(cfg, s, y), e) <==> WorkerFailed(s, e)
  {
    SysStep(cfg, s, y);
    assert WorkerOk(s) && WorkerOk(Do(cfg, s, y));
  }

  lemma EndStep(cfg: Config, s: Sys, y: RelayStep, scan: Option<Err>)
    requires SysInv(cfg, s) && CanDo(s, y) && EndsAs(s, scan)
    ensures EndsAs(Do(cfg, s, y), scan)
  {
    MainMoves(cfg, s, y);
    assert WorkerOk(s);
    var s' := Do(cfg, s, y);
    if s.main.Returned? {
      assert WorkerIdle(s.worker);
      if s.worker.Ended? {
        forall e ensures WorkerFailed(s', e) <==> WorkerFailed(s, e) { WorkerStays(cfg, s, y, e); }
      }
    }
  }

  lemma {:induction false} AfterStop(cfg: Config, ss: seq<Sys>, ys: seq<RelayStep>, a: nat, n: nat)
    requires Watched(cfg, ss, ys) && a < n < |ss| && ys[a].StopReading?
    ensures EndsAs(ss[n], ys[a].scan)
    decreases n
  {
    assert StepAt(cfg, ss, ys, n - 1);
    if a + 1 < n {
      AfterStop(cfg, ss, ys, a, n - 1);
      EndStep(cfg, ss[n - 1], ys[n - 1], ys[a].scan);
    } else {
      StopsNow(cfg, ss[a], ys[a]);
    }
  }

  lemma StopsNow(cfg: Config, s: Sys, y: RelayStep)
    requires CanDo(s, y) && y.StopReading?
    ensures EndsAs(Do(cfg, s, y), y.scan)
  {
  }

  lemma BreakingLeaves(cfg: Config, s: Sys, y: RelayStep, e: Err)
    requires SysInv(cfg, s) && CanDo(s, y) && Breaks(cfg, s, y, e)
    ensures Do(cfg, s, y).main == Leaving(e)
  {
    if y.ReadLine? {
      assert MatchesLines(cfg, s);
      if LineKind(s.lines[s.pos]) == Some(Cancel) { BadScopeLeaves(cfg, s, e); }
    }
  }

  lemma BadScopeLeaves(cfg: Config, s: Sys, e: Err)
    requires MatchesLines(cfg, s) && CanDo(s, ReadLine) && LineKind(s.lines[s.pos]) == Some(Cancel) && BadLine(cfg, s, s.lines[s.pos], e)
    ensures Do(cfg, s, ReadLine).main == Leaving(e)
  {
    assert ScopesMatch(cfg, s);
  }

  predicate Broken(m: Main, e: Err) {
    m == Leaving(e) || m == Returned(Some(e))
  }

  lemma {:induction false} StaysBroken(cfg: Config, ss: seq<Sys>, ys: seq<RelayStep>, a: nat, n: nat, e: Err)
    requires Watched(cfg, ss, ys) && a <= n < |ss| && Broken(ss[a].main, e)
    ensures Broken(ss[n].main, e)
    decreases n
  {
    if a < n {
      StaysBroken(cfg, ss, ys, a, n - 1, e);
      BrokenStep(cfg, ss, ys, n - 1, e);
    }
  }

  lemma BrokenStep(cfg: Config, ss: seq<Sys>, ys: seq<RelayStep>, n: nat, e: Err)
    requires Watched(cfg, ss, ys) && n < |ys| && Broken(ss[n].main, e)
    ensures Broken(ss[n + 1].main, e)
  {
    assert StepAt(cfg, ss, ys, n);
    BrokenReturns(cfg, ss[n], ys[n], e);
  }

  lemma BreakStep(cfg: Config, ss: seq<Sys>, ys: seq<RelayStep>, n: nat, e: Err)
    requires Watched(cfg, ss, ys) && n < |ys| && Breaks(cfg, ss[n], ys[n], e)
    ensures Broken(ss[n + 1].main, e)
  {
    assert StepAt(cfg, ss, ys, n);
    BreakingLeaves(cfg, ss[n], ys[n], e);
  }

  lemma AfterBreak(cfg: Config, ss: seq<Sys>, ys: seq<RelayStep>, a: nat, n: nat, e: Err)
    requires Watched(cfg, ss, ys) && a < n < |ss| && Breaks(cfg, ss[a], ys[a], e)
    ensures Broken(ss[n].main, e)
  {
    BreakStep(cfg, ss, ys, a, e);
    assert Broken(ss[a + 1].main, e);
    StaysBroken(cfg, ss, ys, a + 1, n, e);
  }

  lemma BrokenReturns(cfg: Config, s: Sys, y: RelayStep, e: Err)
    requires CanDo(s, y) && Broken(s.main, e)
    ensures Broken(Do(cfg, s, y).main, e)
  {
  }

  // ---------------------------------------------------------------------------------------
  // The theorems
  // ---------------------------------------------------------------------------------------

  ghost predicate StoppedWith(ys: seq<RelayStep>, n: nat, scan: Option<Err>) {
    exists a :: 0 <= a < n && a < |ys| && ys[a] == StopReading(scan)
  }

  ghost predicate BrokeWith(cfg: Config, ss: seq<Sys>, ys: seq<RelayStep>, n: nat, e: Err) {
    exists a :: 0 <= a < n && a < |ys| && a < |ss| && Breaks(cfg, ss[a], ys[a], e)
  }

  /**
   A returned relay reports `e` exactly when the scan of the child's output failed with `e`, a line could not be
   relayed or a prompt's await ended with `e`, or the output ended well and the worker's await ended with `e`,
   which is not its cancellation.
   */
  lemma ReportsErrorIff(cfg: Config, ss: seq<Sys>, ys: seq<RelayStep>, lines: seq<string>, n: nat, e: Err)
    requires IsRelayRun(cfg, ss, ys, lines) && n < |ss| && ss[n].main.Returned?
    ensures
      ss[n].main.result == Some(e) <==>
      || StoppedWith(ys, n, Some(e))
      || BrokeWith(cfg, ss, ys, n, e)
      || (StoppedWith(ys, n, None) && WorkerFailed(ss[n], e))
  {
    RunIsWatched(cfg, ss, ys, lines);
    var a := PastTheLoop(cfg, ss, ys, n);
    if ys[a].StopReading? {
      AfterStop(cfg, ss, ys, a, n);
      assert StoppedWith(ys, n, ys[a].scan);
    } else {
      AfterBreak(cfg, ss, ys, a, n, ss[n].main.result.value);
      assert BrokeWith(cfg, ss, ys, n, ss[n].main.result.value);
    }
    if b :| 0 <= b < n && ys[b] == StopReading(Some(e)) { AfterStop(cfg, ss, ys, b, n); }
    if b :| 0 <= b < n && Breaks(cfg, ss[b], ys[b], e) { AfterBreak(cfg, ss, ys, b, n, e); }
    if b :| 0 <= b < n && ys[b] == StopReading(None) { AfterStop(cfg, ss, ys, b, n); }
  }

  /** It reports no error exactly when the child's output ended well and the worker, if any, had an answer or was only cancelled. */
  lemma ReportsNothingIff(cfg: Config, ss: seq<Sys>, ys: seq<RelayStep>, lines: seq<string>, n: nat)
    requires IsRelayRun(cfg, ss, ys, lines) && n < |ss| && ss[n].main.Returned?
    ensures ss[n].main.result.None? <==> StoppedWith(ys, n, None) && forall e :: !WorkerFailed(ss[n], e)
  {
    RunIsWatched(cfg, ss, ys, lines);
    var a := PastTheLoop(cfg, ss, ys, n);
    if ys[a].StopReading? {
      AfterStop(cfg, ss, ys, a, n);
      assert StoppedWith(ys, n, ys[a].scan);
    }
    if b :| 0 <= b < n && ys[b] == StopReading(None) { AfterStop(cfg, ss, ys, b, n); }
  }
}
