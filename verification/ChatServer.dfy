/**
The server's single active provider-pool chat (server.go, http_server.go): begin, finish, cancel-and-wait
and the submissions that cancel the chat when their own context expires.

Locks are explicit here: the server mutex, and one mutex per controller of each chat, taken inside
`close` while `finish` and `cancel-and-wait` hold the server mutex. Taking a lock, running a section and
releasing it are separate steps, so every interleaving of any number of goroutines is covered.
*/
module ChatServer {
  import opened Outcomes

  /** The three controllers of a chat: approvals, inputs, cancellations. */
  const CONTROLLERS := 3

  /** `closed` and `locks` are per controller; `doneCloses` counts closes of the done channel. */
  datatype Chat = Chat(owner: nat, closed: seq<bool>, locks: seq<Option<nat>>, doneCloses: nat)

  datatype Pc =
    // beginActiveProviderPoolChat, the chat itself, finishActiveProviderPoolChat
    | BeginWant | BeginIn | Refused
    | Run(k: nat) | FinishWant(k: nat) | FinishIn(k: nat)
    | FinishClosing(k: nat, i: nat) | FinishCtl(k: nat, i: nat) | FinishEnd(k: nat) | Finished(k: nat)
    // cancelAndWaitForActiveProviderPoolChat
    | CancelWant | CancelIn
    | CancelClosing(k: nat, i: nat) | CancelCtl(k: nat, i: nat) | CancelEnd(k: nat) | CancelWait(k: nat)
    | CancelGone(seen: Option<nat>)
    // submitActiveUserInputResponse and submitActiveCancellationIntent
    | SubmitWant | SubmitIn | SubmitRun(k: nat)
    | SubmitClosing(k: nat, i: nat) | SubmitCtl(k: nat, i: nat) | SubmitWait(k: nat)
    | SubmitGone(joined: Option<nat>)
    // any other locked section of a controller
    | SectionWant(k: nat, i: nat) | SectionIn(k: nat, i: nat) | SectionGone

  datatype Lock = ServerLock | CtlLock(k: nat, i: nat)

  datatype State = State(server: Option<nat>, active: Option<nat>, chats: seq<Chat>, threads: seq<Pc>)

  const INITIAL := State(None, None, [], [])

  datatype Step =
    | Spawn(pc: Pc)
    | Move(t: nat, expired: bool)

  /** The lock a goroutine asks for in its next step. */
  function Wants(pc: Pc): Option<Lock> {
    match pc
    case BeginWant => Some(ServerLock)
    case FinishWant(_) => Some(ServerLock)
    case CancelWant => Some(ServerLock)
    case SubmitWant => Some(ServerLock)
    case FinishClosing(k, i) => Some(CtlLock(k, i))
    case CancelClosing(k, i) => Some(CtlLock(k, i))
    case SubmitClosing(k, i) => Some(CtlLock(k, i))
    case SectionWant(k, i) => Some(CtlLock(k, i))
    case _ => None
  }

  predicate HoldsServer(pc: Pc) {
    || pc.BeginIn? || pc.CancelIn? || pc.SubmitIn?
    || pc.FinishIn? || pc.FinishClosing? || pc.FinishCtl? || pc.FinishEnd?
    || pc.CancelClosing? || pc.CancelCtl? || pc.CancelEnd?
  }

  function HoldsCtl(pc: Pc): Option<Lock> {
    match pc
    case FinishCtl(k, i) => Some(CtlLock(k, i))
    case CancelCtl(k, i) => Some(CtlLock(k, i))
    case SubmitCtl(k, i) => Some(CtlLock(k, i))
    case SectionIn(k, i) => Some(CtlLock(k, i))
    case _ => None
  }

  predicate IsCtl(s: State, k: nat, i: nat) {
    k < |s.chats| && i < |s.chats[k].locks| && i < |s.chats[k].closed|
  }

  function OwnerOf(s: State, l: Lock): Option<nat> {
    match l
    case ServerLock => s.server
    case CtlLock(k, i) => if IsCtl(s, k, i) then s.chats[k].locks[i] else None
  }

  predicate StartPc(s: State, pc: Pc) {
    pc.BeginWant? || pc.CancelWant? || pc.SubmitWant? || (pc.SectionWant? && pc.k < |s.chats| && pc.i < CONTROLLERS)
  }

  predicate AtRest(pc: Pc) {
    pc.Refused? || pc.Finished? || pc.CancelGone? || pc.SubmitGone? || pc.SectionGone?
  }

  predicate WaitsDone(pc: Pc) {
    pc.CancelWait? || pc.SubmitWait?
  }

  predicate Enabled(s: State, x: Step) {
    match x
    case Spawn(pc) => StartPc(s, pc)
    case Move(t, _) =>
      && t < |s.threads|
      && var pc := s.threads[t];
      && !AtRest(pc)
      && (Wants(pc).Some? ==> OwnerOf(s, Wants(pc).value).None? && (Wants(pc).value.CtlLock? ==> IsCtl(s, pc.k, pc.i)))
      && (HoldsCtl(pc).Some? ==> IsCtl(s, pc.k, pc.i))
      && (pc.FinishEnd? ==> pc.k < |s.chats|)
      && (WaitsDone(pc) ==> pc.k < |s.chats| && s.chats[pc.k].doneCloses > 0)
  }

  function NewChat(t: nat): Chat {
    Chat(t, [false, false, false], [None, None, None], 0)
  }

  function TakeCtl(s: State, t: nat, k: nat, i: nat): State
    requires IsCtl(s, k, i)
  {
    s.(chats := s.chats[k := s.chats[k].(locks := s.chats[k].locks[i := Some(t)])])
  }

  /** Leaves the controller's section, having closed the controller when `close` is what ran. */
  function LeaveCtl(s: State, k: nat, i: nat, closes: bool): State
    requires IsCtl(s, k, i)
  {
    var c := s.chats[k];
    s.(chats := s.chats[k := c.(locks := c.locks[i := None], closed := if closes then c.closed[i := true] else c.closed)])
  }

  function Act(s: State, t: nat, expired: bool): (State, Pc)
    requires Enabled(s, Move(t, expired))
  {
    match s.threads[t]
    case BeginWant => (s.(server := Some(t)), BeginIn)
    case BeginIn =>
      if s.active.Some? then (s.(server := None), Refused)
      else (s.(server := None, active := Some(|s.chats|), chats := s.chats + [NewChat(t)]), Run(|s.chats|))
    case Run(k) => (s, FinishWant(k))
    case FinishWant(k) => (s.(server := Some(t)), FinishIn(k))
    case FinishIn(k) => (s.(active := if s.active == Some(k) then None else s.active), FinishClosing(k, 0))
    case FinishClosing(k, i) => (TakeCtl(s, t, k, i), FinishCtl(k, i))
    case FinishCtl(k, i) => (LeaveCtl(s, k, i, true), if i + 1 < CONTROLLERS then FinishClosing(k, i + 1) else FinishEnd(k))
    case FinishEnd(k) =>
      (s.(server := None, chats := s.chats[k := s.chats[k].(doneCloses := s.chats[k].doneCloses + 1)]), Finished(k))
    case CancelWant => (s.(server := Some(t)), CancelIn)
    case CancelIn =>
      if s.active.None? then (s.(server := None), CancelGone(None)) else (s, CancelClosing(s.active.value, 0))
    case CancelClosing(k, i) => (TakeCtl(s, t, k, i), CancelCtl(k, i))
    case CancelCtl(k, i) => (LeaveCtl(s, k, i, true), if i + 1 < CONTROLLERS then CancelClosing(k, i + 1) else CancelEnd(k))
    case CancelEnd(k) => (s.(server := None), CancelWait(k))
    case CancelWait(k) => (s, CancelGone(Some(k)))
    case SubmitWant => (s.(server := Some(t)), SubmitIn)
    case SubmitIn => (s.(server := None), if s.active.None? then SubmitGone(None) else SubmitRun(s.active.value))
    case SubmitRun(k) => (s, if expired then SubmitClosing(k, 0) else SubmitGone(None))
    case SubmitClosing(k, i) => (TakeCtl(s, t, k, i), SubmitCtl(k, i))
    case SubmitCtl(k, i) => (LeaveCtl(s, k, i, true), if i + 1 < CONTROLLERS then SubmitClosing(k, i + 1) else SubmitWait(k))
    case SubmitWait(k) => (s, SubmitGone(Some(k)))
    case SectionWant(k, i) => (TakeCtl(s, t, k, i), SectionIn(k, i))
    case SectionIn(k, i) => (LeaveCtl(s, k, i, false), SectionGone)
    case other => (s, other)
  }

  function Apply(s: State, x: Step): State
    requires Enabled(s, x)
  {
    match x
    case Spawn(pc) => s.(threads := s.threads + [pc])
    case Move(t, expired) =>
      var (s', pc') := Act(s, t, expired);
      s'.(threads := s.threads[t := pc'])
  }

  ghost predicate IsRun(ss: seq<State>, xs: seq<Step>) {
    && |ss| == |xs| + 1 && ss[0] == INITIAL
    && forall n :: 0 <= n < |xs| ==> Enabled(ss[n], xs[n]) && ss[n + 1] == Apply(ss[n], xs[n])
  }

  // ---------------------------------------------------------------------------------------
  // Invariant
  // ---------------------------------------------------------------------------------------

  predicate ChatShape(c: Chat) {
    |c.closed| == CONTROLLERS && |c.locks| == CONTROLLERS && c.doneCloses <= 1
  }

  /** The controllers before `i` are closed. */
  predicate ClosedUpTo(s: State, k: nat, i: nat) {
    k < |s.chats| && i <= |s.chats[k].closed| && forall j :: 0 <= j < i ==> s.chats[k].closed[j]
  }

  predicate Owns(s: State, t: nat, k: nat) {
    k < |s.chats| && s.chats[k].owner == t
  }

  predicate ThreadOk(s: State, t: nat, pc: Pc) {
    match pc
    case Run(k) => Owns(s, t, k) && s.active == Some(k)
    case FinishWant(k) => Owns(s, t, k) && s.active == Some(k)
    case FinishIn(k) => Owns(s, t, k) && s.active == Some(k)
    case FinishClosing(k, i) => Owns(s, t, k) && s.active.None? && i < CONTROLLERS && ClosedUpTo(s, k, i) && s.chats[k].doneCloses == 0
    case FinishCtl(k, i) => Owns(s, t, k) && s.active.None? && i < CONTROLLERS && ClosedUpTo(s, k, i) && s.chats[k].doneCloses == 0
    case FinishEnd(k) => Owns(s, t, k) && s.active.None? && ClosedUpTo(s, k, CONTROLLERS) && s.chats[k].doneCloses == 0
    case Finished(k) => Owns(s, t, k) && ClosedUpTo(s, k, CONTROLLERS) && s.chats[k].doneCloses == 1
    case CancelClosing(k, i) => k < |s.chats| && i < CONTROLLERS
    case CancelCtl(k, i) => k < |s.chats| && i < CONTROLLERS
    case CancelEnd(k) => k < |s.chats|
    case CancelWait(k) => k < |s.chats|
    case CancelGone(seen) => seen.Some? ==> ClosedUpTo(s, seen.value, CONTROLLERS) && s.chats[seen.value].doneCloses == 1
    case SubmitRun(k) => k < |s.chats|
    case SubmitClosing(k, i) => k < |s.chats| && i < CONTROLLERS
    case SubmitCtl(k, i) => k < |s.chats| && i < CONTROLLERS
    case SubmitWait(k) => k < |s.chats|
    case SubmitGone(joined) => joined.Some? ==> ClosedUpTo(s, joined.value, CONTROLLERS) && s.chats[joined.value].doneCloses == 1
    case SectionWant(k, i) => k < |s.chats| && i < CONTROLLERS
    case SectionIn(k, i) => k < |s.chats| && i < CONTROLLERS
    case _ => true
  }

  function PcOf(s: State, t: nat): Pc {
    if t < |s.threads| then s.threads[t] else SectionGone
  }

  /** The chat's owner, while it is between beginning and ending it. */
  predicate InChat(pc: Pc, k: nat) {
    match pc
    case Run(j) => j == k
    case FinishWant(j) => j == k
    case FinishIn(j) => j == k
    case FinishClosing(j, _) => j == k
    case FinishCtl(j, _) => j == k
    case FinishEnd(j) => j == k
    case _ => false
  }

  predicate ChatOk(s: State, k: nat)
    requires k < |s.chats|
  {
    var c := s.chats[k];
    && ChatShape(c)
    && (if c.doneCloses == 0 then InChat(PcOf(s, c.owner), k)
        else PcOf(s, c.owner) == Finished(k) && ClosedUpTo(s, k, CONTROLLERS))
    && forall i :: 0 <= i < |c.locks| && c.locks[i].Some? ==> HoldsCtl(PcOf(s, c.locks[i].value)) == Some(CtlLock(k, i))
  }

  predicate LocksOk(s: State) {
    && (s.server.Some? ==> HoldsServer(PcOf(s, s.server.value)))
    && (forall t :: 0 <= t < |s.threads| && HoldsServer(s.threads[t]) ==> s.server == Some(t))
    && (forall t :: 0 <= t < |s.threads| && HoldsCtl(s.threads[t]).Some? ==> OwnerOf(s, HoldsCtl(s.threads[t]).value) == Some(t))
  }

  predicate Inv(s: State) {
    && (forall k :: 0 <= k < |s.chats| ==> ChatOk(s, k))
    && (forall t :: 0 <= t < |s.threads| ==> ThreadOk(s, t, s.threads[t]))
    && LocksOk(s)
    && (s.active.Some? ==> s.active.value < |s.chats| && s.chats[s.active.value].doneCloses == 0)
  }
}
