/** What every run of the relay guarantees when it returns. */
module RelayTheorems {
  import opened Outcomes
  import opened Rendezvous
  import opened RendezvousInvariant
  import opened Relay
  import opened RelayThreads
  import opened RelayInvariant

  predicate CtlOk(r: Rules, c: State) {
    Inv(r, c) && SlotMinded(c)
  }

  predicate CtlsOk(cfg: Config, s: Sys) {
    forall k :: CtlOk(cfg.rules(k), Get(s.ctls, k))
  }

  predicate SysInv(cfg: Config, s: Sys) {
    CtlsOk(cfg, s) && RelayInv(cfg, s)
  }

  lemma CtlStep(r: Rules, c: State, x: Step)
    requires CtlOk(r, c) && Enabled(c, x)
    ensures CtlOk(r, Apply(r, c, x)) && Advances(c, Apply(r, c, x), Writer(x))
  {
    InvStep(r, c, x);
    SlotMindedStep(r, c, x);
    StepAdvances(r, c, x);
  }

  lemma PutOk(cfg: Config, s: Sys, k: Kind, c': State)
    requires CtlsOk(cfg, s) && CtlOk(cfg.rules(k), c')
    ensures CtlsOk(cfg, s.(ctls := Put(s.ctls, k, c')))
  {
    var s' := s.(ctls := Put(s.ctls, k, c'));
    forall k2 ensures CtlOk(cfg.rules(k2), Get(s'.ctls, k2)) { assert CtlOk(cfg.rules(k2), Get(s.ctls, k2)); }
  }

  lemma SysEnv(cfg: Config, s: Sys, k: Kind, x: Step)
    requires SysInv(cfg, s) && CanDo(s, Env(k, x))
    ensures SysInv(cfg, Do(cfg, s, Env(k, x)))
  {
    var r, c := cfg.rules(k), Get(s.ctls, k);
    assert CtlOk(r, c);
    CtlStep(r, c, x);
    PutOk(cfg, s, k, Apply(r, c, x));
    KeepsAdvance(cfg, s, k, Apply(r, c, x), Writer(x));
  }

  lemma SysWrite(cfg: Config, s: Sys, k: Kind, t: nat, reply: Reply)
    requires SysInv(cfg, s) && CanDo(s, WriteOut(k, t, reply))
    ensures SysInv(cfg, Do(cfg, s, WriteOut(k, t, reply)))
  {
    var c', chunk := WriteIsWroteOut(cfg, s, k, t, reply);
    PutOk(cfg, s, k, c');
    KeepsWrite(cfg, s, k, t, c', chunk);
    CtlsOnly(cfg, s.(ctls := Put(s.ctls, k, c')), Do(cfg, s, WriteOut(k, t, reply)));
  }

  lemma WriteIsWroteOut(cfg: Config, s: Sys, k: Kind, t: nat, reply: Reply) returns (c': State, chunk: Chunk)
    requires CtlsOk(cfg, s) && CanDo(s, WriteOut(k, t, reply))
    ensures CtlOk(cfg.rules(k), c') && WroteOut(cfg, s, k, t, c', chunk)
    ensures Do(cfg, s, WriteOut(k, t, reply)) == s.(ctls := Put(s.ctls, k, c'), chunks := s.chunks + [chunk])
  {
    var r, c := cfg.rules(k), Get(s.ctls, k);
    assert CtlOk(r, c);
    var answer := c.heap.deliveries[c.threads[t].pc.d].answer;
    var (bytes, fault) := WriteFrame(cfg, k, answer, reply);
    c' := WriteStep(r, c, t, fault);
    chunk := Chunk(k, t, answer, bytes, fault.None?);
  }

  /** The controllers' invariants depend on nothing else. */
  lemma CtlsOnly(cfg: Config, s: Sys, s': Sys)
    requires CtlsOk(cfg, s) && s'.ctls == s.ctls
    ensures CtlsOk(cfg, s')
  {
    forall k ensures CtlOk(cfg.rules(k), Get(s'.ctls, k)) { assert CtlOk(cfg.rules(k), Get(s.ctls, k)); }
  }

  /** The relay itself makes a controller step that writes nothing. */
  lemma AdvanceCtl(cfg: Config, s: Sys, k: Kind, x: Step) returns (s': Sys)
    requires SysInv(cfg, s) && Enabled(Get(s.ctls, k), x) && !x.Write?
    ensures s' == s.(ctls := Put(s.ctls, k, Apply(cfg.rules(k), Get(s.ctls, k), x))) && SysInv(cfg, s')
    ensures Advances(Get(s.ctls, k), Get(s'.ctls, k), None)
  {
    var r, c := cfg.rules(k), Get(s.ctls, k);
    assert CtlOk(r, c);
    CtlStep(r, c, x);
    PutOk(cfg, s, k, Apply(r, c, x));
    KeepsAdvance(cfg, s, k, Apply(r, c, x), None);
    s' := s.(ctls := Put(s.ctls, k, Apply(r, c, x)));
  }

  lemma WriteStep(r: Rules, c: State, t: nat, fault: Option<Err>) returns (c': State)
    requires CtlOk(r, c) && Enabled(c, Write(t, fault))
    ensures c' == Apply(r, c, Write(t, fault)) && CtlOk(r, c') && Advances(c, c', Some(t))
    ensures PcOf(c', t) == Completing(PcOf(c, t).p, PcOf(c, t).d, fault)
  {
    c' := Apply(r, c, Write(t, fault));
    CtlStep(r, c, Write(t, fault));
  }

  lemma SysPrompt(cfg: Config, s: Sys, k: Kind)
    requires SysInv(cfg, s) && CanDo(s, ReadLine) && LineKind(s.lines[s.pos]) == Some(k) && !k.Cancel?
    ensures SysInv(cfg, DoPrompt(cfg, s, k, s.lines[s.pos]))
  {
    var request := cfg.decode(k, Body(s.lines[s.pos]));
    if request.None? {
      KeepsMain(cfg, s, Leaving(Other("invalid private frame")));
    } else {
      var t := |Get(s.ctls, k).threads|;
      forall i | 0 <= i < |s.prompts| && s.prompts[i].k == k ensures s.prompts[i].t < t { assert PromptOk(s, i); }
      var s1 := AdvanceCtl(cfg, s, k, Spawn(AwaitStart(request.value)));
      KeepsNewPrompt(cfg, s1, k, t, request.value);
      CtlsOnly(cfg, s1, DoPrompt(cfg, s, k, s.lines[s.pos]));
    }
  }

  lemma SysScope(cfg: Config, s: Sys)
    requires SysInv(cfg, s) && CanDo(s, ReadLine) && LineKind(s.lines[s.pos]) == Some(Cancel)
    ensures SysInv(cfg, DoScope(cfg, s, s.lines[s.pos]))
  {
    var line := s.lines[s.pos];
    var scope := cfg.decode(Cancel, Body(line));
    if !s.worker.NoWorker? {
      KeepsMain(cfg, s, Leaving(Other("duplicate private cancellation scope frame")));
    } else if scope.None? {
      KeepsMain(cfg, s, Leaving(Other("invalid private cancellation scope frame")));
    } else {
      var t := |s.ctls.cancel.threads|;
      var s1 := AdvanceCtl(cfg, s, Cancel, Spawn(AwaitStart(scope.value)));
      var s2 := AdvanceCtl(cfg, s1, Cancel, Register(t));
      SysScopeEnds(cfg, s2, t, scope.value, s1.ctls.cancel);
      CtlsOnly(cfg, s2, DoScope(cfg, s, line));
    }
  }

  lemma SysScopeEnds(cfg: Config, s2: Sys, t: nat, scope: Request, c1: State)
    requires RelayInv(cfg, s2) && CanDo(s2, ReadLine) && LineKind(s2.lines[s2.pos]) == Some(Cancel) && s2.worker.NoWorker?
    requires cfg.decode(Cancel, Body(s2.lines[s2.pos])) == Some(scope)
    requires t < |c1.threads| && c1.threads[t].pc == AwaitStart(scope) && Advances(c1, s2.ctls.cancel, None)
    ensures PcIn(s2, Cancel, t).AwaitDone? ==> forall e :: RelayInv(cfg, s2.(main := Leaving(e)))
    ensures !PcIn(s2, Cancel, t).AwaitDone? ==> RelayInv(cfg, s2.(pos := s2.pos + 1, worker := Running(t, scope)))
  {
    assert Follows(c1, s2.ctls.cancel, t, None);
    assert AwaitsFor(c1.heap, c1.threads[t].pc, scope);
    if PcIn(s2, Cancel, t).AwaitDone? {
      forall e ensures RelayInv(cfg, s2.(main := Leaving(e))) { KeepsMain(cfg, s2, Leaving(e)); }
    } else {
      KeepsNewWorker(cfg, s2, t, scope);
    }
  }

  lemma SysStep(cfg: Config, s: Sys, y: RelayStep)
    requires SysInv(cfg, s) && CanDo(s, y)
    ensures SysInv(cfg, Do(cfg, s, y))
  {
    match y
    case ReadLine =>
      var kind := LineKind(s.lines[s.pos]);
      if kind.None? { KeepsOrdinaryLine(cfg, s); }
      else if kind.value.Cancel? { SysScope(cfg, s); }
      else { SysPrompt(cfg, s, kind.value); }
    case StopReading(scan) => KeepsStopReading(cfg, s, scan);
    case Resume => KeepsResume(cfg, s);
    case WorkerEnds => KeepsWorkerEnds(cfg, s);
    case Return => KeepsReturn(cfg, s);
    case WriteOut(k, t, reply) => SysWrite(cfg, s, k, t, reply);
    case Env(k, x) => SysEnv(cfg, s, k, x);
  }

  // ---------------------------------------------------------------------------------------
  // Runs
  // ---------------------------------------------------------------------------------------

  /** A run of the relay over `lines`, entered while the controllers are in any reachable state. */
  ghost predicate IsRelayRun(cfg: Config, ss: seq<Sys>, ys: seq<RelayStep>, lines: seq<string>) {
    && |ss| == |ys| + 1
    && ss[0] == Start(ss[0].ctls, lines) && CtlsOk(cfg, ss[0])
    && forall n :: 0 <= n < |ys| ==> CanDo(ss[n], ys[n]) && ss[n + 1] == Do(cfg, ss[n], ys[n])
  }

  lemma StartOk(cfg: Config, s: Sys, lines: seq<string>)
    requires s == Start(s.ctls, lines)
    ensures RelayInv(cfg, s)
  {
    assert lines[..0] == [];
  }

  lemma {:induction false} RunInv(cfg: Config, ss: seq<Sys>, ys: seq<RelayStep>, lines: seq<string>, n: nat)
    requires IsRelayRun(cfg, ss, ys, lines) && n < |ss|
    ensures SysInv(cfg, ss[n]) && ss[n].lines == lines
  {
    if n == 0 {
      StartOk(cfg, ss[0], lines);
    } else {
      RunInv(cfg, ss, ys, lines, n - 1);
      SysStep(cfg, ss[n - 1], ys[n - 1]);
      LinesFixed(cfg, ss[n - 1], ys[n - 1]);
    }
  }

  lemma LinesFixed(cfg: Config, s: Sys, y: RelayStep)
    requires CanDo(s, y)
    ensures Do(cfg, s, y).lines == s.lines
  {
  }

  /** Every goroutine of a returned relay has ended, the worker included. */
  lemma OwnedEnded(cfg: Config, s: Sys, k: Kind, t: nat)
    requires SysInv(cfg, s) && s.main.Returned? && Owned(s, k, t)
    ensures PcIn(s, k, t).AwaitDone?
  {
  }

  /**
   However the relay returns: its worker has finished, every goroutine it started has ended, and no
   controller's slot holds anything one of them registered.
   */
  lemma ReturnLeavesNothing(cfg: Config, ss: seq<Sys>, ys: seq<RelayStep>, lines: seq<string>, n: nat, k: Kind)
    requires IsRelayRun(cfg, ss, ys, lines) && n < |ss| && ss[n].main.Returned?
    ensures !ss[n].worker.Running?
    ensures forall t :: Owned(ss[n], k, t) ==> PcIn(ss[n], k, t).AwaitDone?
    ensures
      var c := Get(ss[n].ctls, k).heap.core;
      c.slot.Some? ==> c.slot.value < |c.pendings| && !Owned(ss[n], k, c.pendings[c.slot.value].awaiter)
  {
    RunInv(cfg, ss, ys, lines, n);
    var s := ss[n];
    forall t | Owned(s, k, t) ensures PcIn(s, k, t).AwaitDone? { OwnedEnded(cfg, s, k, t); }
    var c := Get(s.ctls, k).heap.core;
    assert CtlOk(cfg.rules(k), Get(s.ctls, k));
    if c.slot.Some? && Owned(s, k, c.pendings[c.slot.value].awaiter) {
      OwnedEnded(cfg, s, k, c.pendings[c.slot.value].awaiter);
    }
  }

  lemma ChunkAccepted(cfg: Config, s: Sys, j: nat, request: Request)
    requires SysInv(cfg, s) && j < |s.chunks| && ThreadFor(s, s.chunks[j].k, s.chunks[j].t, request)
    ensures cfg.rules(s.chunks[j].k).valid(request)
    ensures cfg.rules(s.chunks[j].k).accepts(request, s.chunks[j].answer)
  {
    var k := s.chunks[j].k;
    var r, c := cfg.rules(k), Get(s.ctls, k);
    assert ChunkOk(cfg, s, j) && CtlOk(r, c);
    AfterAccepted(r, c, s.chunks[j].t, request);
  }

  lemma AfterAccepted(r: Rules, c: State, t: nat, request: Request)
    requires Inv(r, c) && t < |c.threads| && AwaitsFor(c.heap, c.threads[t].pc, request)
    requires TrackOf(c.threads[t].pc).After?
    ensures
      var track := TrackOf(c.threads[t].pc);
      r.valid(request) && track.d < |c.heap.deliveries| && r.accepts(request, c.heap.deliveries[track.d].answer)
  {
    assert ThreadOk(r, c.heap, t, c.threads[t].pc);
    var track := TrackOf(c.threads[t].pc);
    assert DeliveryOk(r, c.heap, track.d);
    assert PendingOk(r, c.heap.core.pendings[track.p]);
  }

  /** `chunk` answers `request` of kind `k` with one whole frame within the bound. */
  ghost predicate Answers(cfg: Config, chunk: Chunk, k: Kind, request: Request) {
    && chunk.k == k
    && cfg.rules(k).valid(request) && cfg.rules(k).accepts(request, chunk.answer)
    && cfg.encode(k, chunk.answer).Some?
    && chunk.bytes == Frame(k, cfg.encode(k, chunk.answer).value)
    && |chunk.bytes| <= LIMIT
  }

  lemma {:induction false} ChunkIndex(chunks: seq<Chunk>, i: nat) returns (j: nat)
    requires i < |PromptChunks(chunks)|
    ensures j < |chunks| && chunks[j] == PromptChunks(chunks)[i]
  {
    var n := |chunks| - 1;
    if i < |PromptChunks(chunks[..n])| {
      j := ChunkIndex(chunks[..n], i);
    } else {
      j := n;
    }
  }

  lemma {:induction false} CancelIndex(chunks: seq<Chunk>, i: nat) returns (j: nat)
    requires i < |CancelChunks(chunks)|
    ensures j < |chunks| && chunks[j] == CancelChunks(chunks)[i] && chunks[j].k.Cancel?
  {
    var n := |chunks| - 1;
    if i < |CancelChunks(chunks[..n])| {
      j := CancelIndex(chunks[..n], i);
    } else {
      j := n;
    }
  }

  lemma PromptAnswered(cfg: Config, s: Sys, i: nat)
    requires SysInv(cfg, s) && s.main == Returned(None) && i < |s.prompts|
    ensures |PromptChunks(s.chunks)| == |s.prompts|
    ensures Answers(cfg, PromptChunks(s.chunks)[i], s.prompts[i].k, s.prompts[i].request)
  {
    AllWritten(cfg, s);
    assert PromptOk(s, i);
    var j := ChunkIndex(s.chunks, i);
    assert ChunkOk(cfg, s, j);
    ChunkAccepted(cfg, s, j, s.prompts[i].request);
    assert PcIn(s, s.prompts[i].k, s.prompts[i].t).result.None?;
  }

  lemma ScopeAnswered(cfg: Config, s: Sys)
    requires SysInv(cfg, s) && s.main == Returned(None) && CancelChunks(s.chunks) != []
    ensures |CancelChunks(s.chunks)| == 1 && !s.worker.NoWorker?
    ensures Answers(cfg, CancelChunks(s.chunks)[0], Cancel, s.worker.scope)
  {
    var j := CancelIndex(s.chunks, 0);
    assert ChunkOk(cfg, s, j);
    ChunkAccepted(cfg, s, j, s.worker.scope);
  }

  /**
   When the relay returns without error: its text is exactly the child's ordinary lines in order; the
   prompts of the child and the frames that answer them correspond one to one, in order, each an
   accepted answer in one whole frame of at most 64 KiB; and there is at most one cancellation frame,
   for the one scope the child announced. Those frames are all that was written to the child.
   */
  lemma CleanReturn(cfg: Config, ss: seq<Sys>, ys: seq<RelayStep>, lines: seq<string>, n: nat)
    requires IsRelayRun(cfg, ss, ys, lines) && n < |ss| && ss[n].main == Returned(None)
    ensures ss[n].ordinary == OrdinaryText(lines)
    ensures |PromptChunks(ss[n].chunks)| == |PromptBodies(lines)|
    ensures forall i :: 0 <= i < |PromptBodies(lines)| ==>
      var (k, body) := PromptBodies(lines)[i];
      cfg.decode(k, body).Some? && Answers(cfg, PromptChunks(ss[n].chunks)[i], k, cfg.decode(k, body).value)
    ensures |CancelChunks(ss[n].chunks)| <= |ScopeBodies(lines)| <= 1
    ensures CancelChunks(ss[n].chunks) != [] ==>
      && cfg.decode(Cancel, ScopeBodies(lines)[0]).Some?
      && Answers(cfg, CancelChunks(ss[n].chunks)[0], Cancel, cfg.decode(Cancel, ScopeBodies(lines)[0]).value)
    ensures ChildInput(ss[n].chunks) == Frames(cfg, ss[n].chunks)
  {
    RunInv(cfg, ss, ys, lines, n);
    var s := ss[n];
    assert lines[..|lines|] == lines;
    AllWritten(cfg, s);
    forall i | 0 <= i < |s.prompts|
      ensures Answers(cfg, PromptChunks(s.chunks)[i], s.prompts[i].k, s.prompts[i].request)
    {
      PromptAnswered(cfg, s, i);
    }
    if CancelChunks(s.chunks) != [] { ScopeAnswered(cfg, s); }
    AllWhole(cfg, s);
    ChildInputIsFrames(cfg, s.chunks);
  }

  lemma AllWhole(cfg: Config, s: Sys)
    requires SysInv(cfg, s) && s.main == Returned(None)
    ensures forall j :: 0 <= j < |s.chunks| ==> s.chunks[j].whole && WholeFrame(cfg, s.chunks[j])
  {
    forall j | 0 <= j < |s.chunks| ensures s.chunks[j].whole && WholeFrame(cfg, s.chunks[j]) {
      assert ChunkOk(cfg, s, j);
      ChunkHasOwner(cfg, s, j);
    }
  }

  lemma {:induction false} InPromptChunks(chunks: seq<Chunk>, j: nat) returns (i: nat)
    requires j < |chunks|
    ensures chunks[j].k.Cancel? ==> i < |CancelChunks(chunks)| && CancelChunks(chunks)[i] == chunks[j]
    ensures !chunks[j].k.Cancel? ==> i < |PromptChunks(chunks)| && PromptChunks(chunks)[i] == chunks[j]
  {
    var n := |chunks| - 1;
    if j < n {
      i := InPromptChunks(chunks[..n], j);
      assert chunks[..n][j] == chunks[j];
    } else {
      i := if chunks[j].k.Cancel? then |CancelChunks(chunks[..n])| else |PromptChunks(chunks[..n])|;
    }
  }

  lemma ChunkHasOwner(cfg: Config, s: Sys, j: nat)
    requires SysInv(cfg, s) && s.main == Returned(None) && j < |s.chunks|
    ensures s.chunks[j].whole
  {
    assert ChunkOk(cfg, s, j);
    var i := InPromptChunks(s.chunks, j);
    if !s.chunks[j].k.Cancel? {
      PromptChunkWhole(cfg, s, i, j);
    }
  }

  lemma PromptChunkWhole(cfg: Config, s: Sys, i: nat, j: nat)
    requires j < |s.chunks| && i < |s.prompts| && PromptsSettled(s) && s.main == Returned(None)
    requires s.prompts[i].k == s.chunks[j].k && s.prompts[i].t == s.chunks[j].t && ChunkOk(cfg, s, j)
    ensures s.chunks[j].whole
  {
    assert PcIn(s, s.prompts[i].k, s.prompts[i].t).result.None?;
  }

  function Frames(cfg: Config, chunks: seq<Chunk>): string {
    if chunks == [] then ""
    else
      var c := chunks[|chunks| - 1];
      Frames(cfg, chunks[..|chunks| - 1]) +
      (if cfg.encode(c.k, c.answer).Some? then Frame(c.k, cfg.encode(c.k, c.answer).value) else "")
  }

  /** The bytes the child received are the concatenation of whole frames, which is what a clean return gives. */
  lemma {:induction false} ChildInputIsFrames(cfg: Config, chunks: seq<Chunk>)
    requires forall j :: 0 <= j < |chunks| ==> WholeFrame(cfg, chunks[j])
    ensures ChildInput(chunks) == Frames(cfg, chunks)
  {
    if chunks != [] { ChildInputIsFrames(cfg, chunks[..|chunks| - 1]); }
  }
}
