/** The invariant of the relay's own bookkeeping: main loop, worker and writes, over any advance of the controllers. */
module RelayInvariant {
  import opened Outcomes
  import opened Rendezvous
  import opened Relay
  import opened RelayThreads

  // ---------------------------------------------------------------------------------------
  // The invariant
  // ---------------------------------------------------------------------------------------

  predicate ThreadFor(s: Sys, k: Kind, t: nat, request: Request) {
    var c := Get(s.ctls, k);
    t < |c.threads| && AwaitPc(c.threads[t].pc) && AwaitsFor(c.heap, c.threads[t].pc, request)
  }

  predicate PromptOk(s: Sys, i: nat)
    requires i < |s.prompts|
  {
    !s.prompts[i].k.Cancel? && ThreadFor(s, s.prompts[i].k, s.prompts[i].t, s.prompts[i].request)
  }

  /** No two prompts share a goroutine. */
  predicate PromptsDistinct(s: Sys) {
    forall i, j :: 0 <= i < j < |s.prompts| && s.prompts[i].k == s.prompts[j].k ==> s.prompts[i].t < s.prompts[j].t
  }

  /** All prompts but the one being waited for have run to their end; in a good state, with an answer. */
  predicate PromptsSettled(s: Sys) {
    && (s.main.Waiting? ==> s.prompts != [] && s.prompts[|s.prompts| - 1].k == s.main.k && s.prompts[|s.prompts| - 1].t == s.main.t)
    && forall i :: 0 <= i < |s.prompts| - (if s.main.Waiting? then 1 else 0) ==>
      var pc := PcIn(s, s.prompts[i].k, s.prompts[i].t);
      pc.AwaitDone? && (Good(s.main) ==> pc.result.None?)
  }

  /** No error has been met by the main loop so far. */
  predicate Good(m: Main) {
    m.Reading? || m.Waiting? || m.Ending? || m == Returned(None)
  }

  predicate WorkerOk(s: Sys) {
    !s.worker.NoWorker? ==>
      && ThreadFor(s, Cancel, s.worker.t, s.worker.scope)
      && (s.worker.Ended? ==> PcIn(s, Cancel, s.worker.t).AwaitDone? && PcIn(s, Cancel, s.worker.t).result == s.worker.err)
  }

  predicate MatchesLines(cfg: Config, s: Sys) {
    && s.pos <= |s.lines|
    && s.ordinary == OrdinaryText(s.lines[..s.pos])
    && |s.prompts| == |PromptBodies(s.lines[..s.pos])|
    && (forall i :: 0 <= i < |s.prompts| ==>
         var (k, body) := PromptBodies(s.lines[..s.pos])[i];
         s.prompts[i].k == k && cfg.decode(k, body) == Some(s.prompts[i].request))
    && ScopesMatch(cfg, s)
    && (s.main == Ending(None) || s.main == Returned(None) ==> s.pos == |s.lines|)
  }

  /** The worker, if any, is for the one scope the child has announced. */
  predicate ScopesMatch(cfg: Config, s: Sys)
    requires s.pos <= |s.lines|
  {
    var bodies := ScopeBodies(s.lines[..s.pos]);
    if s.worker.NoWorker? then bodies == []
    else |bodies| == 1 && cfg.decode(Cancel, bodies[0]) == Some(s.worker.scope)
  }

  predicate ChunkOk(cfg: Config, s: Sys, j: nat)
    requires j < |s.chunks|
  {
    var c := s.chunks[j];
    var h := Get(s.ctls, c.k).heap;
    var track := TrackOf(PcIn(s, c.k, c.t));
    && track.After?
    && track.d < |h.deliveries| && h.deliveries[track.d].answer == c.answer
    && c.whole == track.err.None?
    && (track.err.Some? ==> track.err.value.WriteFault?)
    && (c.whole ==> WholeFrame(cfg, c))
  }

  /** The chunk is one complete frame within the bound. */
  predicate WholeFrame(cfg: Config, c: Chunk) {
    && cfg.encode(c.k, c.answer).Some?
    && c.bytes == Frame(c.k, cfg.encode(c.k, c.answer).value)
    && |c.bytes| <= LIMIT
  }

  /** The i-th write of the main loop is by the goroutine of the i-th prompt. */
  predicate ChunksInOrder(s: Sys) {
    var pcs := PromptChunks(s.chunks);
    && |pcs| <= |s.prompts|
    && (forall i :: 0 <= i < |pcs| ==> pcs[i].k == s.prompts[i].k && pcs[i].t == s.prompts[i].t)
    && (forall i :: 0 <= i < |s.prompts| ==> (TrackOf(PcIn(s, s.prompts[i].k, s.prompts[i].t)).After? <==> i < |pcs|))
  }

  predicate CancelChunksOk(s: Sys) {
    var ccs := CancelChunks(s.chunks);
    && |ccs| <= 1
    && (|ccs| == 1 ==> !s.worker.NoWorker? && ccs[0].t == s.worker.t)
    && (!s.worker.NoWorker? ==> (TrackOf(PcIn(s, Cancel, s.worker.t)).After? <==> |ccs| == 1))
  }

  /** Everything but the controllers' own invariants. */
  predicate RelayInv(cfg: Config, s: Sys) {
    && (forall i :: 0 <= i < |s.prompts| ==> PromptOk(s, i))
    && PromptsDistinct(s)
    && PromptsSettled(s)
    && WorkerOk(s)
    && MatchesLines(cfg, s)
    && (forall j :: 0 <= j < |s.chunks| ==> ChunkOk(cfg, s, j))
    && ChunksInOrder(s)
    && CancelChunksOk(s)
    && (s.main.Returned? ==> WorkerIdle(s.worker))
    && (s.main == Returned(None) && s.worker.Ended? && s.worker.err.Some? ==> s.worker.err == Some(Canceled))
  }

  // ---------------------------------------------------------------------------------------
  // Steps of a controller
  // ---------------------------------------------------------------------------------------

  /** Prompts and worker survive any advance of controller `k`. */
  lemma PromptsFollow(s: Sys, k: Kind, c': State, w: Option<nat>)
    requires Advances(Get(s.ctls, k), c', w)
    requires forall i :: 0 <= i < |s.prompts| ==> PromptOk(s, i)
    requires PromptsSettled(s) && WorkerOk(s)
    ensures
      var s' := s.(ctls := Put(s.ctls, k, c'));
      && (forall i :: 0 <= i < |s.prompts| ==> PromptOk(s', i))
      && PromptsSettled(s') && WorkerOk(s')
  {
    var s' := s.(ctls := Put(s.ctls, k, c'));
    var c := Get(s.ctls, k);
    forall i | 0 <= i < |s.prompts|
      ensures PromptOk(s', i)
      ensures PcIn(s, s.prompts[i].k, s.prompts[i].t).AwaitDone? ==> PcIn(s', s.prompts[i].k, s.prompts[i].t) == PcIn(s, s.prompts[i].k, s.prompts[i].t)
    {
      assert PromptOk(s, i);
      if s.prompts[i].k == k { assert Follows(c, c', s.prompts[i].t, w); }
    }
    if !s.worker.NoWorker? && k.Cancel? { assert Follows(c, c', s.worker.t, w); }
  }

  lemma ChunksFollow(cfg: Config, s: Sys, k: Kind, c': State, w: Option<nat>)
    requires Advances(Get(s.ctls, k), c', w)
    requires forall j :: 0 <= j < |s.chunks| ==> ChunkOk(cfg, s, j)
    ensures forall j :: 0 <= j < |s.chunks| ==> ChunkOk(cfg, s.(ctls := Put(s.ctls, k, c')), j)
  {
    var s' := s.(ctls := Put(s.ctls, k, c'));
    forall j | 0 <= j < |s.chunks| ensures ChunkOk(cfg, s', j) {
      assert ChunkOk(cfg, s, j);
      if s.chunks[j].k == k { assert Follows(Get(s.ctls, k), c', s.chunks[j].t, w); }
    }
  }

  /** When no goroutine of the relay wrote, the order of the writes is as it was. */
  lemma OrderFollows(s: Sys, k: Kind, c': State, w: Option<nat>)
    requires Advances(Get(s.ctls, k), c', w) && (w.Some? ==> !Owned(s, k, w.value))
    requires forall i :: 0 <= i < |s.prompts| ==> PromptOk(s, i)
    requires WorkerOk(s) && ChunksInOrder(s) && CancelChunksOk(s)
    ensures ChunksInOrder(s.(ctls := Put(s.ctls, k, c'))) && CancelChunksOk(s.(ctls := Put(s.ctls, k, c')))
  {
    var s' := s.(ctls := Put(s.ctls, k, c'));
    var c := Get(s.ctls, k);
    forall i | 0 <= i < |s.prompts|
      ensures TrackOf(PcIn(s', s.prompts[i].k, s.prompts[i].t)) == TrackOf(PcIn(s, s.prompts[i].k, s.prompts[i].t))
    {
      assert PromptOk(s, i);
      if s.prompts[i].k == k {
        assert Owned(s, k, s.prompts[i].t);
        assert Follows(c, c', s.prompts[i].t, w);
      }
    }
    if !s.worker.NoWorker? && k.Cancel? {
      assert Owned(s, k, s.worker.t);
      assert Follows(c, c', s.worker.t, w);
    }
  }

  lemma KeepsAdvance(cfg: Config, s: Sys, k: Kind, c': State, w: Option<nat>)
    requires RelayInv(cfg, s) && Advances(Get(s.ctls, k), c', w) && (w.Some? ==> !Owned(s, k, w.value))
    ensures RelayInv(cfg, s.(ctls := Put(s.ctls, k, c')))
  {
    PromptsFollow(s, k, c', w);
    ChunksFollow(cfg, s, k, c', w);
    OrderFollows(s, k, c', w);
  }

  // ---------------------------------------------------------------------------------------
  // Writes
  // ---------------------------------------------------------------------------------------

  /** While a prompt waits to be written, exactly the prompts before it have been written. */
  lemma WrittenSoFar(cfg: Config, s: Sys, i: nat)
    requires RelayInv(cfg, s) && i < |s.prompts| && PcIn(s, s.prompts[i].k, s.prompts[i].t).Holding?
    ensures i == |s.prompts| - 1 && s.main.Waiting? && |PromptChunks(s.chunks)| == i
  {
    if i > 0 {
      var q := s.prompts[i - 1];
      assert PromptOk(s, i - 1);
      assert TrackOf(PcIn(s, q.k, q.t)).After?;
    }
  }

  lemma WriteFrameFacts(cfg: Config, k: Kind, t: nat, answer: Answer, reply: Reply)
    ensures
      var (bytes, fault) := WriteFrame(cfg, k, answer, reply);
      && (fault.Some? ==> fault.value.WriteFault?)
      && (fault.None? ==> WholeFrame(cfg, Chunk(k, t, answer, bytes, true)))
  {
  }

  lemma PromptChunksSnoc(chunks: seq<Chunk>, c: Chunk)
    ensures PromptChunks(chunks + [c]) == PromptChunks(chunks) + (if c.k.Cancel? then [] else [c])
    ensures CancelChunks(chunks + [c]) == CancelChunks(chunks) + (if c.k.Cancel? then [c] else [])
  {
    assert (chunks + [c])[..|chunks|] == chunks;
  }

  /** A prompt's goroutine writes: its chunk becomes the last of the prompt chunks. */
  lemma PromptWriteOrder(cfg: Config, s: Sys, k: Kind, c': State, t: nat, chunk: Chunk, i: nat)
    requires RelayInv(cfg, s) && Advances(Get(s.ctls, k), c', Some(t))
    requires i < |s.prompts| && s.prompts[i].k == k && s.prompts[i].t == t && !k.Cancel?
    requires PcIn(s, k, t).Holding? && TrackOf(PcOf(c', t)).After?
    requires chunk.k == k && chunk.t == t
    ensures ChunksInOrder(s.(ctls := Put(s.ctls, k, c'), chunks := s.chunks + [chunk]))
  {
    WrittenSoFar(cfg, s, i);
    forall j | 0 <= j < i
      ensures TrackOf(PcIn(s.(ctls := Put(s.ctls, k, c')), s.prompts[j].k, s.prompts[j].t)) ==
              TrackOf(PcIn(s, s.prompts[j].k, s.prompts[j].t))
    {
      OtherTrack(s, k, c', t, j);
    }
    LastWriteOrder(s, k, c', t, chunk, i);
  }

  /** The last prompt, all before it written, is written too. */
  lemma LastWriteOrder(s: Sys, k: Kind, c': State, t: nat, chunk: Chunk, i: nat)
    requires ChunksInOrder(s) && i == |s.prompts| - 1 == |PromptChunks(s.chunks)|
    requires s.prompts[i].k == k == chunk.k && s.prompts[i].t == t == chunk.t && !k.Cancel? && TrackOf(PcOf(c', t)).After?
    requires forall j :: 0 <= j < i ==>
               TrackOf(PcIn(s.(ctls := Put(s.ctls, k, c')), s.prompts[j].k, s.prompts[j].t)) ==
               TrackOf(PcIn(s, s.prompts[j].k, s.prompts[j].t))
    ensures ChunksInOrder(s.(ctls := Put(s.ctls, k, c'), chunks := s.chunks + [chunk]))
  {
    PromptChunksSnoc(s.chunks, chunk);
  }

  lemma OtherTrack(s: Sys, k: Kind, c': State, t: nat, j: nat)
    requires Advances(Get(s.ctls, k), c', Some(t)) && j < |s.prompts| && PromptOk(s, j)
    requires s.prompts[j].k == k ==> s.prompts[j].t != t
    ensures
      var s' := s.(ctls := Put(s.ctls, k, c'));
      TrackOf(PcIn(s', s.prompts[j].k, s.prompts[j].t)) == TrackOf(PcIn(s, s.prompts[j].k, s.prompts[j].t))
  {
    if s.prompts[j].k == k { assert Follows(Get(s.ctls, k), c', s.prompts[j].t, Some(t)); }
  }

  /** A prompt's write leaves the cancellation frames as they are. */
  lemma PromptWriteCancel(s: Sys, k: Kind, c': State, chunk: Chunk)
    requires CancelChunksOk(s) && !k.Cancel? && chunk.k == k
    ensures CancelChunksOk(s.(ctls := Put(s.ctls, k, c'), chunks := s.chunks + [chunk]))
  {
    PromptChunksSnoc(s.chunks, chunk);
  }

  /** The worker writes: it had not written before, and no other goroutine writes cancellation frames. */
  lemma WorkerWriteOrder(cfg: Config, s: Sys, c': State, chunk: Chunk)
    requires RelayInv(cfg, s) && !s.worker.NoWorker? && Advances(s.ctls.cancel, c', Some(s.worker.t))
    requires PcIn(s, Cancel, s.worker.t).Holding? && TrackOf(PcOf(c', s.worker.t)).After?
    requires chunk.k == Cancel && chunk.t == s.worker.t
    ensures ChunksInOrder(s.(ctls := Put(s.ctls, Cancel, c'), chunks := s.chunks + [chunk]))
    ensures CancelChunksOk(s.(ctls := Put(s.ctls, Cancel, c'), chunks := s.chunks + [chunk]))
  {
    var s' := s.(ctls := Put(s.ctls, Cancel, c'), chunks := s.chunks + [chunk]);
    PromptChunksSnoc(s.chunks, chunk);
    forall j | 0 <= j < |s.prompts|
      ensures PcIn(s', s.prompts[j].k, s.prompts[j].t) == PcIn(s, s.prompts[j].k, s.prompts[j].t)
    {
      assert PromptOk(s, j);
    }
  }

  ghost predicate WroteOut(cfg: Config, s: Sys, k: Kind, t: nat, c': State, chunk: Chunk) {
    var c := Get(s.ctls, k);
    && Owned(s, k, t) && PcOf(c, t).Holding? && PcOf(c, t).d < |c.heap.deliveries|
    && Advances(c, c', Some(t))
    && exists reply ::
      var answer := c.heap.deliveries[PcOf(c, t).d].answer;
      var (bytes, fault) := WriteFrame(cfg, k, answer, reply);
      && chunk == Chunk(k, t, answer, bytes, fault.None?)
      && PcOf(c', t) == Completing(PcOf(c, t).p, PcOf(c, t).d, fault)
  }

  lemma NewChunkOk(cfg: Config, s: Sys, k: Kind, t: nat, c': State, chunk: Chunk)
    requires WroteOut(cfg, s, k, t, c', chunk)
    ensures ChunkOk(cfg, s.(ctls := Put(s.ctls, k, c'), chunks := s.chunks + [chunk]), |s.chunks|)
  {
    var c := Get(s.ctls, k);
    var answer := c.heap.deliveries[PcOf(c, t).d].answer;
    var reply :|
      var (bytes, fault) := WriteFrame(cfg, k, answer, reply);
      && chunk == Chunk(k, t, answer, bytes, fault.None?)
      && PcOf(c', t) == Completing(PcOf(c, t).p, PcOf(c, t).d, fault);
    WriteFrameFacts(cfg, k, t, answer, reply);
  }

  lemma KeepsWrite(cfg: Config, s: Sys, k: Kind, t: nat, c': State, chunk: Chunk)
    requires RelayInv(cfg, s) && WroteOut(cfg, s, k, t, c', chunk)
    ensures RelayInv(cfg, s.(ctls := Put(s.ctls, k, c'), chunks := s.chunks + [chunk]))
  {
    var mid := s.(ctls := Put(s.ctls, k, c'));
    var s' := mid.(chunks := s.chunks + [chunk]);
    PromptsFollow(s, k, c', Some(t));
    PromptsIgnoreChunks(mid, s'.chunks);
    WriteChunks(cfg, s, k, t, c', chunk);
    WriteOrder(cfg, s, k, t, c', chunk);
  }

  lemma PromptsIgnoreChunks(s: Sys, chunks: seq<Chunk>)
    requires (forall i :: 0 <= i < |s.prompts| ==> PromptOk(s, i)) && PromptsSettled(s) && WorkerOk(s)
    ensures
      var s' := s.(chunks := chunks);
      (forall i :: 0 <= i < |s'.prompts| ==> PromptOk(s', i)) && PromptsSettled(s') && WorkerOk(s')
  {
    forall i | 0 <= i < |s.prompts| ensures PromptOk(s.(chunks := chunks), i) { assert PromptOk(s, i); }
  }

  lemma WriteChunks(cfg: Config, s: Sys, k: Kind, t: nat, c': State, chunk: Chunk)
    requires RelayInv(cfg, s) && WroteOut(cfg, s, k, t, c', chunk)
    ensures
      var s' := s.(ctls := Put(s.ctls, k, c'), chunks := s.chunks + [chunk]);
      forall j :: 0 <= j < |s'.chunks| ==> ChunkOk(cfg, s', j)
  {
    var mid := s.(ctls := Put(s.ctls, k, c'));
    var s' := mid.(chunks := s.chunks + [chunk]);
    ChunksFollow(cfg, s, k, c', Some(t));
    NewChunkOk(cfg, s, k, t, c', chunk);
    forall j | 0 <= j < |s'.chunks| ensures ChunkOk(cfg, s', j) {
      if j < |s.chunks| { assert ChunkOk(cfg, mid, j); }
    }
  }

  lemma WriteOrder(cfg: Config, s: Sys, k: Kind, t: nat, c': State, chunk: Chunk)
    requires RelayInv(cfg, s) && WroteOut(cfg, s, k, t, c', chunk)
    ensures ChunksInOrder(s.(ctls := Put(s.ctls, k, c'), chunks := s.chunks + [chunk]))
    ensures CancelChunksOk(s.(ctls := Put(s.ctls, k, c'), chunks := s.chunks + [chunk]))
  {
    if i :| 0 <= i < |s.prompts| && s.prompts[i].k == k && s.prompts[i].t == t {
      assert PromptOk(s, i);
      PromptWriteOrder(cfg, s, k, c', t, chunk, i);
      PromptWriteCancel(s, k, c', chunk);
    } else {
      WorkerWriteOrder(cfg, s, c', chunk);
    }
  }

  // ---------------------------------------------------------------------------------------
  // The main loop and the worker
  // ---------------------------------------------------------------------------------------

  lemma LinesSnoc(lines: seq<string>, pos: nat)
    requires pos < |lines|
    ensures
      var line := lines[pos];
      && OrdinaryText(lines[..pos + 1]) == OrdinaryText(lines[..pos]) + (if LineKind(line).None? then line + "\n" else "")
      && PromptBodies(lines[..pos + 1]) == PromptBodies(lines[..pos]) +
           (if LineKind(line) == Some(Approval) || LineKind(line) == Some(Input) then [(LineKind(line).value, Body(line))] else [])
      && ScopeBodies(lines[..pos + 1]) == ScopeBodies(lines[..pos]) + (if LineKind(line) == Some(Cancel) then [Body(line)] else [])
  {
    assert lines[..pos + 1][..pos] == lines[..pos];
  }

  lemma KeepsOrdinaryLine(cfg: Config, s: Sys)
    requires RelayInv(cfg, s) && CanDo(s, ReadLine) && LineKind(s.lines[s.pos]).None?
    ensures RelayInv(cfg, DoLine(cfg, s))
  {
    var s' := DoLine(cfg, s);
    LinesSnoc(s.lines, s.pos);
    forall i | 0 <= i < |s'.prompts| ensures PromptOk(s', i) { assert PromptOk(s, i); }
    forall j | 0 <= j < |s'.chunks| ensures ChunkOk(cfg, s', j) { assert ChunkOk(cfg, s, j); }
  }

  /** All the main loop's answers are in when it is reading. */
  lemma AllWritten(cfg: Config, s: Sys)
    requires RelayInv(cfg, s) && Good(s.main) && !s.main.Waiting?
    ensures |PromptChunks(s.chunks)| == |s.prompts|
  {
    if s.prompts != [] {
      var q := s.prompts[|s.prompts| - 1];
      assert PromptOk(s, |s.prompts| - 1);
      assert PcIn(s, q.k, q.t).AwaitDone? && PcIn(s, q.k, q.t).result.None?;
      assert TrackOf(PcIn(s, q.k, q.t)).After?;
    }
  }

  lemma KeepsNewPrompt(cfg: Config, s: Sys, k: Kind, t: nat, request: Request)
    requires RelayInv(cfg, s) && CanDo(s, ReadLine) && LineKind(s.lines[s.pos]) == Some(k) && !k.Cancel?
    requires cfg.decode(k, Body(s.lines[s.pos])) == Some(request)
    requires PcIn(s, k, t) == AwaitStart(request) && t < |Get(s.ctls, k).threads|
    requires forall i :: 0 <= i < |s.prompts| && s.prompts[i].k == k ==> s.prompts[i].t < t
    ensures RelayInv(cfg, s.(pos := s.pos + 1, main := Waiting(k, t), prompts := s.prompts + [Prompt(k, t, request)]))
  {
    var s' := s.(pos := s.pos + 1, main := Waiting(k, t), prompts := s.prompts + [Prompt(k, t, request)]);
    forall i | 0 <= i < |s'.prompts| ensures PromptOk(s', i) {
      if i < |s.prompts| { assert PromptOk(s, i); }
    }
    forall j | 0 <= j < |s'.chunks| ensures ChunkOk(cfg, s', j) { assert ChunkOk(cfg, s, j); }
    assert MatchesLines(cfg, s') by { NewPromptMatches(cfg, s, k, t, request); }
    AllWritten(cfg, s);
    NewPromptOrder(s, k, t, request);
  }

  lemma NewPromptOrder(s: Sys, k: Kind, t: nat, request: Request)
    requires s.main.Reading? && !k.Cancel? && PcIn(s, k, t) == AwaitStart(request)
    requires PromptsDistinct(s) && PromptsSettled(s) && ChunksInOrder(s) && |PromptChunks(s.chunks)| == |s.prompts|
    requires forall i :: 0 <= i < |s.prompts| && s.prompts[i].k == k ==> s.prompts[i].t < t
    ensures
      var s' := s.(pos := s.pos + 1, main := Waiting(k, t), prompts := s.prompts + [Prompt(k, t, request)]);
      PromptsDistinct(s') && PromptsSettled(s') && ChunksInOrder(s')
  {
  }

  lemma NewPromptMatches(cfg: Config, s: Sys, k: Kind, t: nat, request: Request)
    requires MatchesLines(cfg, s) && CanDo(s, ReadLine) && LineKind(s.lines[s.pos]) == Some(k) && !k.Cancel?
    requires cfg.decode(k, Body(s.lines[s.pos])) == Some(request)
    ensures MatchesLines(cfg, s.(pos := s.pos + 1, main := Waiting(k, t), prompts := s.prompts + [Prompt(k, t, request)]))
  {
    LinesSnoc(s.lines, s.pos);
    assert ScopesMatch(cfg, s);
  }

  lemma NewWorkerMatches(cfg: Config, s: Sys, t: nat, scope: Request)
    requires MatchesLines(cfg, s) && CanDo(s, ReadLine) && LineKind(s.lines[s.pos]) == Some(Cancel) && s.worker.NoWorker?
    requires cfg.decode(Cancel, Body(s.lines[s.pos])) == Some(scope)
    ensures MatchesLines(cfg, s.(pos := s.pos + 1, worker := Running(t, scope)))
  {
    CancelLineSnoc(s.lines, s.pos);
    NewScopeMatches(cfg, s, t, scope);
  }

  lemma CancelLineSnoc(lines: seq<string>, pos: nat)
    requires pos < |lines| && LineKind(lines[pos]) == Some(Cancel)
    ensures OrdinaryText(lines[..pos + 1]) == OrdinaryText(lines[..pos]) && PromptBodies(lines[..pos + 1]) == PromptBodies(lines[..pos])
    ensures ScopeBodies(lines[..pos + 1]) == ScopeBodies(lines[..pos]) + [Body(lines[pos])]
  {
    LinesSnoc(lines, pos);
  }

  lemma NewScopeMatches(cfg: Config, s: Sys, t: nat, scope: Request)
    requires s.pos < |s.lines| && ScopesMatch(cfg, s) && LineKind(s.lines[s.pos]) == Some(Cancel) && s.worker.NoWorker?
    requires cfg.decode(Cancel, Body(s.lines[s.pos])) == Some(scope)
    ensures ScopesMatch(cfg, s.(pos := s.pos + 1, worker := Running(t, scope)))
  {
    CancelLineSnoc(s.lines, s.pos);
  }

  lemma KeepsNewWorker(cfg: Config, s: Sys, t: nat, scope: Request)
    requires RelayInv(cfg, s) && CanDo(s, ReadLine) && LineKind(s.lines[s.pos]) == Some(Cancel) && s.worker.NoWorker?
    requires cfg.decode(Cancel, Body(s.lines[s.pos])) == Some(scope)
    requires ThreadFor(s, Cancel, t, scope) && TrackOf(PcIn(s, Cancel, t)).Before?
    ensures RelayInv(cfg, s.(pos := s.pos + 1, worker := Running(t, scope)))
  {
    var s' := s.(pos := s.pos + 1, worker := Running(t, scope));
    assert MatchesLines(cfg, s') by { NewWorkerMatches(cfg, s, t, scope); }
    forall i | 0 <= i < |s'.prompts| ensures PromptOk(s', i) { assert PromptOk(s, i); }
    forall j | 0 <= j < |s'.chunks| ensures ChunkOk(cfg, s', j) { assert ChunkOk(cfg, s, j); }
  }

  /** Any move of the main loop that touches nothing else and keeps its own bookkeeping. */
  lemma KeepsMain(cfg: Config, s: Sys, main: Main)
    requires RelayInv(cfg, s) && !main.Waiting?
    requires Good(main) ==> Good(s.main)
    requires PromptsSettled(s.(main := main))
    requires main == Ending(None) || main == Returned(None) ==> s.pos == |s.lines|
    requires main.Returned? ==> WorkerIdle(s.worker)
    requires main == Returned(None) && s.worker.Ended? && s.worker.err.Some? ==> s.worker.err == Some(Canceled)
    ensures RelayInv(cfg, s.(main := main))
  {
    var s' := s.(main := main);
    forall i | 0 <= i < |s'.prompts| ensures PromptOk(s', i) { assert PromptOk(s, i); }
    forall j | 0 <= j < |s'.chunks| ensures ChunkOk(cfg, s', j) { assert ChunkOk(cfg, s, j); }
  }

  lemma KeepsResume(cfg: Config, s: Sys)
    requires RelayInv(cfg, s) && CanDo(s, Resume)
    ensures RelayInv(cfg, Do(cfg, s, Resume))
  {
    var s' := Do(cfg, s, Resume);
    assert PromptsSettled(s') by {
      forall i | 0 <= i < |s'.prompts|
        ensures PcIn(s', s.prompts[i].k, s.prompts[i].t).AwaitDone? && (Good(s'.main) ==> PcIn(s', s.prompts[i].k, s.prompts[i].t).result.None?)
      {
        if i < |s.prompts| - 1 {}
      }
    }
    KeepsMain(cfg, s, s'.main);
  }

  lemma KeepsStopReading(cfg: Config, s: Sys, scan: Option<Err>)
    requires RelayInv(cfg, s) && CanDo(s, StopReading(scan))
    ensures RelayInv(cfg, Do(cfg, s, StopReading(scan)))
  {
    KeepsMain(cfg, s, Ending(scan));
  }

  lemma KeepsWorkerEnds(cfg: Config, s: Sys)
    requires RelayInv(cfg, s) && CanDo(s, WorkerEnds)
    ensures RelayInv(cfg, Do(cfg, s, WorkerEnds))
  {
    var s' := Do(cfg, s, WorkerEnds);
    PromptsIgnoreWorker(cfg, s, s'.worker);
    LinesIgnoreEnd(cfg, s, s'.worker);
    CancelIgnoresEnd(s, s'.worker);
  }

  /** What holds of prompts and chunks does not depend on the worker. */
  lemma PromptsIgnoreWorker(cfg: Config, s: Sys, w: Worker)
    requires RelayInv(cfg, s)
    ensures
      var s' := s.(worker := w);
      && (forall i :: 0 <= i < |s'.prompts| ==> PromptOk(s', i)) && PromptsDistinct(s') && PromptsSettled(s')
      && (forall j :: 0 <= j < |s'.chunks| ==> ChunkOk(cfg, s', j)) && ChunksInOrder(s')
  {
    var s' := s.(worker := w);
    forall i | 0 <= i < |s'.prompts| ensures PromptOk(s', i) { assert PromptOk(s, i); }
    forall j | 0 <= j < |s'.chunks| ensures ChunkOk(cfg, s', j) { assert ChunkOk(cfg, s, j); }
  }

  lemma LinesIgnoreEnd(cfg: Config, s: Sys, w: Worker)
    requires MatchesLines(cfg, s) && s.worker.Running? && w.Ended? && w.t == s.worker.t && w.scope == s.worker.scope
    ensures MatchesLines(cfg, s.(worker := w))
  {
  }

  lemma CancelIgnoresEnd(s: Sys, w: Worker)
    requires CancelChunksOk(s) && s.worker.Running? && w.Ended? && w.t == s.worker.t
    ensures CancelChunksOk(s.(worker := w))
  {
  }

  lemma KeepsReturn(cfg: Config, s: Sys)
    requires RelayInv(cfg, s) && CanDo(s, Return)
    ensures RelayInv(cfg, Do(cfg, s, Return))
  {
    KeepsMain(cfg, s, DoReturn(s).main);
  }
}
