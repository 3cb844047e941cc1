/**
The controller object itself: the fields the source updates under the mutex, each locked section as
a method proved to be the section of the same name in the step machine. `pending` is a reference
here, so `==` on it is the pointer comparison of `completePending` and `failPending`.
*/
module Controller {
  import opened Outcomes
  import opened Rendezvous

  /** One pendingApproval / pendingUserInput / pendingCancellation. */
  class PendingCell {
    const request: Request
    var submitted: bool
    var failureErr: Option<Err>
    ghost const awaiter: nat
    ghost var accepted: Option<nat>
    ghost var closes: nat

    constructor (request: Request, ghost awaiter: nat)
      ensures this.request == request && this.awaiter == awaiter
      ensures View() == Pending(request, awaiter, false, None, None, 0)
    {
      this.request, this.awaiter := request, awaiter;
      submitted, failureErr, accepted, closes := false, None, None, 0;
    }

    ghost function View(): Pending
      reads this
    {
      Pending(request, awaiter, submitted, accepted, failureErr, closes)
    }

    /** `fail`, guarded by the once. */
    method Fail(err: Option<Err>)
      modifies this
      ensures View() ==
        if old(failureErr).Some? then old(View())
        else old(View()).(failure := Some(if err.Some? then err.value else NoLongerAvailable), closes := old(closes) + 1)
    {
      var cause := if err.Some? then err.value else NoLongerAvailable;
      if failureErr.None? {
        failureErr := Some(cause);
        closes := closes + 1;
      }
    }
  }

  class TransientController {
    var pending: PendingCell?
    var closed: bool
    /** Every pending ever registered, in order; `at` is where the occupied slot points into it. */
    ghost var cells: seq<PendingCell>
    ghost var at: Option<nat>
    ghost var closes: nat

    ghost predicate Valid()
      reads this
    {
      && (forall i, j :: 0 <= i < j < |cells| ==> cells[i] != cells[j])
      && (pending == null <==> at.None?)
      && (at.Some? ==> at.value < |cells| && cells[at.value] == pending)
    }

    ghost function View(): Core
      reads this, cells
      requires Valid()
    {
      Core(seq(|cells|, i requires 0 <= i < |cells| reads this, cells => cells[i].View()), at, closed, closes)
    }

    constructor ()
      ensures Valid() && View() == EMPTY_CORE && cells == []
    {
      pending, closed, cells, at, closes := null, false, [], None, 0;
    }

    /** pendingRequest / pendingPrompt / pendingScope. */
    method PendingRequest() returns (seen: Option<Request>)
      requires Valid()
      ensures seen == PeekSection(View())
    {
      if closed || pending == null || pending.submitted {
        return None;
      }
      return Some(pending.request);
    }

    /** The locked section of awaitDecision, awaitResponse and registerScope. */
    method Register(request: Request, ghost awaiter: nat) returns (outcome: Result<PendingCell, Err>)
      requires Valid()
      modifies this
      ensures Valid() && View() == RegisterSection(old(View()), request, awaiter).0
      ensures
        var expected := RegisterSection(old(View()), request, awaiter).1;
        match outcome
        case Ok(cell) => expected.Ok? && fresh(cell) && expected.value < |cells| && cells[expected.value] == cell == pending
        case Bad(e) => expected == Bad(e) && cells == old(cells)
    {
      if closed {
        return Bad(TransportClosed);
      }
      if pending != null {
        return Bad(AlreadyPending);
      }
      var cell := new PendingCell(request, awaiter);
      pending := cell;
      cells, at := cells + [cell], Some(|cells|);
      outcome := Ok(cell);
      assert View().pendings == RegisterSection(old(View()), request, awaiter).0.pendings;
    }

    /** The locked section of submit. */
    method Accept(r: Rules, answer: Answer, ghost delivery: nat) returns (outcome: Result<PendingCell, Err>)
      requires Valid()
      modifies pending
      ensures Valid() && View() == AcceptSection(r, old(View()), answer, delivery).0
      ensures
        var expected := AcceptSection(r, old(View()), answer, delivery).1;
        match outcome
        case Ok(cell) => expected.Ok? && cell == pending && cells[expected.value] == cell
        case Bad(e) => expected == Bad(e)
    {
      if closed || pending == null || pending.submitted {
        return Bad(NotPending);
      }
      if !r.accepts(pending.request, answer) {
        return Bad(AnswerRejected);
      }
      pending.submitted := true;
      pending.accepted := Some(delivery);
      outcome := Ok(pending);
      assert View().pendings == AcceptSection(r, old(View()), answer, delivery).0.pendings;
    }

    method CompletePending(cell: PendingCell, ghost p: nat)
      requires Valid() && p < |cells| && cells[p] == cell
      modifies this
      ensures Valid() && cells == old(cells) && View() == CompleteSection(old(View()), p)
    {
      if pending == cell {
        pending, at := null, None;
      }
    }

    method FailPending(cell: PendingCell, ghost p: nat, err: Option<Err>)
      requires Valid() && p < |cells| && cells[p] == cell
      modifies this, cell
      ensures Valid() && cells == old(cells) && View() == FailSection(old(View()), p, err)
    {
      if pending == cell {
        pending, at := null, None;
        cell.Fail(err);
      }
      assert View().pendings == FailSection(old(View()), p, err).pendings;
    }

    method Invalidate(err: Option<Err>)
      requires Valid()
      modifies this, pending
      ensures Valid() && cells == old(cells) && View() == InvalidateSection(old(View()), err)
    {
      if pending != null {
        var cell := pending;
        pending, at := null, None;
        cell.Fail(err);
      }
      assert View().pendings == InvalidateSection(old(View()), err).pendings;
    }

    method Close(err: Option<Err>)
      requires Valid()
      modifies this, pending
      ensures Valid() && cells == old(cells) && View() == CloseSection(old(View()), err)
    {
      if closed {
        return;
      }
      closed := true;
      if pending != null {
        var cell := pending;
        pending, at := null, None;
        cell.Fail(err);
      }
      closes := closes + 1;
      assert View().pendings == CloseSection(old(View()), err).pendings;
    }
  }
}
