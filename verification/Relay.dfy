/**
The interactive relay (relayInteractiveFrames and startCancellationRelay in user_input_transport.go),
composed with its three controllers.

The relay's own goroutines are awaiting goroutines of the controllers; everything else a controller
can do (submissions, invalidation, close, expiring contexts, other awaiters) is the environment and
may happen between any two steps of the relay. Text is a string of bytes.
*/
module Relay {
  import opened Outcomes
  import opened Rendezvous

  datatype Kind = Approval | Input | Cancel

  const LIMIT := 64 * 1024

  function Prefix(k: Kind): string {
    match k
    case Approval => "DORKPIPE_PRIVATE_APPROVAL_V1 "
    case Input => "DORKPIPE_PRIVATE_USER_INPUT_V1 "
    case Cancel => "DORKPIPE_PRIVATE_CANCELLATION_V1 "
  }

  /** The controllers' rules, and the JSON layer: a frame body decodes to a request or is refused, an answer encodes or fails to. */
  datatype Config = Config(
    rules: Kind -> Rules, decode: (Kind, string) -> Option<Request>, encode: (Kind, Answer) -> Option<string>)

  function LineKind(line: string): Option<Kind> {
    if Prefix(Approval) <= line then Some(Approval)
    else if Prefix(Input) <= line then Some(Input)
    else if Prefix(Cancel) <= line then Some(Cancel)
    else None
  }

  function Body(line: string): string
    requires LineKind(line).Some?
  {
    line[|Prefix(LineKind(line).value)|..]
  }

  // ---------------------------------------------------------------------------------------
  // The serialized writer
  // ---------------------------------------------------------------------------------------

  /** What the child's pipe answers to one Write: how much it took, and an error or none. */
  datatype Reply = Reply(took: nat, err: Option<string>)

  function Frame(k: Kind, encoded: string): string {
    Prefix(k) + encoded + "\n"
  }

  /** writePrivateInteractiveFrame under the writer's mutex: the bytes that reached the child, and the error. */
  function WriteFrame(cfg: Config, k: Kind, answer: Answer, reply: Reply): (string, Option<Err>) {
    var encoded := cfg.encode(k, answer);
    if encoded.None? then ("", Some(WriteFault("encode")))
    else
      var line := Frame(k, encoded.value);
      if |line| > LIMIT then ("", Some(WriteFault("private interactive frame exceeds its bound")))
      else
        var n := if reply.took <= |line| then reply.took else |line|;
        if reply.err.Some? then (line[..n], Some(WriteFault(reply.err.value)))
        else if n != |line| then (line[..n], Some(WriteFault("short write")))
        else (line, None)
  }

  // ---------------------------------------------------------------------------------------
  // State
  // ---------------------------------------------------------------------------------------

  datatype Ctls = Ctls(approval: State, input: State, cancel: State)

  function Get(c: Ctls, k: Kind): State {
    match k
    case Approval => c.approval
    case Input => c.input
    case Cancel => c.cancel
  }

  function Put(c: Ctls, k: Kind, s: State): Ctls {
    match k
    case Approval => c.(approval := s)
    case Input => c.(input := s)
    case Cancel => c.(cancel := s)
  }

  datatype Main =
    | Reading
    | Waiting(k: Kind, t: nat)
    | Ending(scan: Option<Err>)
    | Leaving(err: Err)
    | Returned(result: Option<Err>)

  datatype Worker = NoWorker | Running(t: nat, scope: Request) | Ended(t: nat, scope: Request, err: Option<Err>)

  /** A prompt the relay has taken from the child, and the goroutine that awaits its answer. */
  datatype Prompt = Prompt(k: Kind, t: nat, request: Request)

  /** One write to the child by one of the relay's goroutines. */
  datatype Chunk = Chunk(k: Kind, t: nat, answer: Answer, bytes: string, whole: bool)

  datatype Sys = Sys(
    ctls: Ctls, lines: seq<string>, pos: nat, main: Main, ordinary: string,
    prompts: seq<Prompt>, worker: Worker, chunks: seq<Chunk>)

  function Start(ctls: Ctls, lines: seq<string>): Sys {
    Sys(ctls, lines, 0, Reading, "", [], NoWorker, [])
  }

  function PcIn(s: Sys, k: Kind, t: nat): Pc {
    PcOf(Get(s.ctls, k), t)
  }

  /** Goroutines whose writes go to this relay's child. */
  predicate Owned(s: Sys, k: Kind, t: nat) {
    || (exists i :: 0 <= i < |s.prompts| && s.prompts[i].k == k && s.prompts[i].t == t)
    || (k.Cancel? && !s.worker.NoWorker? && s.worker.t == t)
  }

  // ---------------------------------------------------------------------------------------
  // Steps
  // ---------------------------------------------------------------------------------------

  datatype RelayStep =
    | ReadLine
    | StopReading(scan: Option<Err>)
    | Resume
    | WorkerEnds
    | Return
    | WriteOut(k: Kind, t: nat, reply: Reply)
    | Env(k: Kind, x: Step)

  predicate WorkerIdle(w: Worker) {
    !w.Running?
  }

  predicate CanDo(s: Sys, y: RelayStep) {
    match y
    case ReadLine => s.main.Reading? && s.pos < |s.lines|
    case StopReading(scan) => s.main.Reading? && (scan.None? ==> s.pos == |s.lines|)
    case Resume => s.main.Waiting? && PcIn(s, s.main.k, s.main.t).AwaitDone?
    case WorkerEnds => s.worker.Running? && PcIn(s, Cancel, s.worker.t).AwaitDone?
    case Return => (s.main.Ending? || s.main.Leaving?) && WorkerIdle(s.worker)
    case WriteOut(k, t, reply) =>
      Owned(s, k, t) && Enabled(Get(s.ctls, k), Write(t, None))
    case Env(k, x) => Enabled(Get(s.ctls, k), x) && !(x.Write? && Owned(s, k, x.t))
  }

  function DoPrompt(cfg: Config, s: Sys, k: Kind, line: string): Sys
    requires LineKind(line) == Some(k)
  {
    var request := cfg.decode(k, Body(line));
    if request.None? then s.(main := Leaving(Other("invalid private frame")))
    else
      var c := Get(s.ctls, k);
      var t := |c.threads|;
      var c' := Apply(cfg.rules(k), c, Spawn(AwaitStart(request.value)));
      s.(ctls := Put(s.ctls, k, c'), pos := s.pos + 1, main := Waiting(k, t),
         prompts := s.prompts + [Prompt(k, t, request.value)])
  }

  /** startCancellationRelay: the scope is registered before the worker is started. */
  function DoScope(cfg: Config, s: Sys, line: string): Sys
    requires LineKind(line) == Some(Cancel)
  {
    var scope := cfg.decode(Cancel, Body(line));
    if !s.worker.NoWorker? then s.(main := Leaving(Other("duplicate private cancellation scope frame")))
    else if scope.None? then s.(main := Leaving(Other("invalid private cancellation scope frame")))
    else
      var c := s.ctls.cancel;
      var t := |c.threads|;
      var c1 := Apply(cfg.rules(Cancel), c, Spawn(AwaitStart(scope.value)));
      var c2 := Apply(cfg.rules(Cancel), c1, Register(t));
      var s' := s.(ctls := Put(s.ctls, Cancel, c2));
      if c2.threads[t].pc.AwaitDone? then
        s'.(main := Leaving(if c2.threads[t].pc.result.Some? then c2.threads[t].pc.result.value else RequestInvalid))
      else s'.(pos := s.pos + 1, worker := Running(t, scope.value))
  }

  function DoLine(cfg: Config, s: Sys): Sys
    requires CanDo(s, ReadLine)
  {
    var line := s.lines[s.pos];
    match LineKind(line)
    case None => s.(pos := s.pos + 1, ordinary := s.ordinary + line + "\n")
    case Some(Cancel) => DoScope(cfg, s, line)
    case Some(k) => DoPrompt(cfg, s, k, line)
  }

  function DoReturn(s: Sys): Sys
    requires CanDo(s, Return)
  {
    match s.main
    case Leaving(e) => s.(main := Returned(Some(e)))
    case Ending(scan) =>
      if scan.Some? then s.(main := Returned(scan))
      else if s.worker.Ended? && s.worker.err.Some? && s.worker.err != Some(Canceled) then s.(main := Returned(s.worker.err))
      else s.(main := Returned(None))
    case _ => s
  }

  function DoWrite(cfg: Config, s: Sys, k: Kind, t: nat, reply: Reply): Sys
    requires CanDo(s, WriteOut(k, t, reply))
  {
    var c := Get(s.ctls, k);
    var answer := c.heap.deliveries[c.threads[t].pc.d].answer;
    var (bytes, fault) := WriteFrame(cfg, k, answer, reply);
    s.(ctls := Put(s.ctls, k, Apply(cfg.rules(k), c, Write(t, fault))),
       chunks := s.chunks + [Chunk(k, t, answer, bytes, fault.None?)])
  }

  function Do(cfg: Config, s: Sys, y: RelayStep): Sys
    requires CanDo(s, y)
  {
    match y
    case ReadLine => DoLine(cfg, s)
    case StopReading(scan) => s.(main := Ending(scan))
    case Resume =>
      var pc := PcIn(s, s.main.k, s.main.t);
      s.(main := if pc.result.None? then Reading else Leaving(pc.result.value))
    case WorkerEnds => s.(worker := Ended(s.worker.t, s.worker.scope, PcIn(s, Cancel, s.worker.t).result))
    case Return => DoReturn(s)
    case WriteOut(k, t, reply) => DoWrite(cfg, s, k, t, reply)
    case Env(k, x) => s.(ctls := Put(s.ctls, k, Apply(cfg.rules(k), Get(s.ctls, k), x)))
  }

  // ---------------------------------------------------------------------------------------
  // What the relay is to produce, read off the child's lines alone
  // ---------------------------------------------------------------------------------------

  function OrdinaryText(lines: seq<string>): string {
    if lines == [] then ""
    else
      var line := lines[|lines| - 1];
      OrdinaryText(lines[..|lines| - 1]) + (if LineKind(line).None? then line + "\n" else "")
  }

  /** The prompts of the child in order, as kind and frame body. */
  function PromptBodies(lines: seq<string>): seq<(Kind, string)> {
    if lines == [] then []
    else
      var line := lines[|lines| - 1];
      PromptBodies(lines[..|lines| - 1]) +
      (if LineKind(line) == Some(Approval) || LineKind(line) == Some(Input) then [(LineKind(line).value, Body(line))] else [])
  }

  /** The cancellation scopes the child announced. */
  function ScopeBodies(lines: seq<string>): seq<string> {
    if lines == [] then []
    else
      var line := lines[|lines| - 1];
      ScopeBodies(lines[..|lines| - 1]) + (if LineKind(line) == Some(Cancel) then [Body(line)] else [])
  }

  /** The writes that answer prompts, in the order they reached the child. */
  function PromptChunks(chunks: seq<Chunk>): seq<Chunk> {
    if chunks == [] then []
    else
      var c := chunks[|chunks| - 1];
      PromptChunks(chunks[..|chunks| - 1]) + (if c.k.Cancel? then [] else [c])
  }

  function CancelChunks(chunks: seq<Chunk>): seq<Chunk> {
    if chunks == [] then []
    else
      var c := chunks[|chunks| - 1];
      CancelChunks(chunks[..|chunks| - 1]) + (if c.k.Cancel? then [c] else [])
  }

  function ChildInput(chunks: seq<Chunk>): string {
    if chunks == [] then "" else ChildInput(chunks[..|chunks| - 1]) + chunks[|chunks| - 1].bytes
  }
}
