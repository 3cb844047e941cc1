/**
The server's active chat as objects (server.go): the fields of the chat and of the slot that holds it, and
the sections that run under the server mutex. Closing a chat goes through its three controllers.
*/
module ActiveChats {
  import opened Outcomes
  import opened Rendezvous
  import opened Controller

  const INACTIVE: Option<Err> := Some(Other("provider-pool chat is no longer active"))
  const CANCELLED: Option<Err> := Some(Other("provider-pool chat was cancelled"))

  /** `doneCloses` counts closes of the done channel, which panics on a second one. */
  class ActiveChat {
    const approvals: TransientController
    const inputs: TransientController
    const cancellations: TransientController
    var cancelled: bool
    var done: bool
    ghost var doneCloses: nat

    constructor ()
      ensures Valid() && !cancelled && !done
      ensures fresh(approvals) && fresh(inputs) && fresh(cancellations)
      ensures approvals.View() == inputs.View() == cancellations.View() == EMPTY_CORE
    {
      approvals := new TransientController();
      inputs := new TransientController();
      cancellations := new TransientController();
      cancelled, done, doneCloses := false, false, 0;
    }

    ghost predicate Valid()
      reads this, approvals, inputs, cancellations
    {
      && approvals != inputs && approvals != cancellations && inputs != cancellations
      && approvals.Valid() && inputs.Valid() && cancellations.Valid()
      && Apart(approvals, inputs) && Apart(approvals, cancellations) && Apart(inputs, cancellations)
      && doneCloses == if done then 1 else 0
    }

    /** What a chat that nobody can reach any more looks like. */
    ghost predicate Shut()
      reads this, approvals, inputs, cancellations
    {
      && approvals.closed && inputs.closed && cancellations.closed
      && approvals.pending == null && inputs.pending == null && cancellations.pending == null
    }

    method CloseControllers(err: Option<Err>)
      requires Valid()
      requires !approvals.closed || approvals.pending == null
      requires !inputs.closed || inputs.pending == null
      requires !cancellations.closed || cancellations.pending == null
      modifies approvals, inputs, cancellations, approvals.pending, inputs.pending, cancellations.pending
      ensures Valid() && Shut()
      ensures approvals.View() == CloseSection(old(approvals.View()), err)
      ensures inputs.View() == CloseSection(old(inputs.View()), err)
      ensures cancellations.View() == CloseSection(old(cancellations.View()), err)
    {
      CloseBeside(approvals, err, inputs, cancellations);
      CloseBeside(inputs, err, approvals, cancellations);
      CloseBeside(cancellations, err, approvals, inputs);
    }
  }

  /** Closing one controller leaves the other two alone. */
  method CloseBeside(c: TransientController, err: Option<Err>, ghost a: TransientController, ghost b: TransientController)
    requires c != a && c != b && c.Valid() && a.Valid() && b.Valid() && Apart(c, a) && Apart(c, b)
    requires !c.closed || c.pending == null
    modifies c, c.pending
    ensures c.Valid() && c.closed && c.pending == null && c.cells == old(c.cells)
    ensures c.View() == CloseSection(old(c.View()), err)
    ensures a.Valid() && a.View() == old(a.View()) && b.Valid() && b.View() == old(b.View())
  {
    ghost var cell := c.pending;
    assert cell != null ==> cell in c.cells;
    assert cell != null ==> cell !in a.cells && cell !in b.cells;
    ghost var was, wasA, wasB := c.View(), a.View(), b.View();
    c.Close(err);
    ClosedView(was, err);
    assert c.View().closed && c.View().slot.None?;
    assert a.View() == wasA && b.View() == wasB;
  }

  lemma ClosedView(core: Core, err: Option<Err>)
    requires core.slot.Some? ==> !core.closed && core.slot.value < |core.pendings|
    ensures CloseSection(core, err).closed && CloseSection(core, err).slot.None?
  {
  }

  /** Two controllers have no pending in common. */
  ghost predicate Apart(a: TransientController, b: TransientController)
    reads a, b
  {
    forall i, j :: 0 <= i < |a.cells| && 0 <= j < |b.cells| ==> a.cells[i] != b.cells[j]
  }

  /** activeProviderPoolChatController: the slot for the one active chat. */
  class ActiveSlot {
    var active: ActiveChat?

    constructor ()
      ensures active == null
    {
      active := null;
    }

    /** Refused while a chat is active, whatever state that chat is in. */
    method Begin() returns (chat: ActiveChat?)
      modifies this
      ensures old(active) != null ==> chat == null && active == old(active)
      ensures old(active) == null ==>
        && chat != null && fresh(chat) && active == chat
        && chat.Valid() && !chat.cancelled && !chat.done && !chat.approvals.closed && !chat.inputs.closed && !chat.cancellations.closed
    {
      if active != null {
        return null;
      }
      chat := new ActiveChat();
      active := chat;
    }

    /** Called once per chat, by whoever began it; the slot is cleared only of this chat. */
    method Finish(chat: ActiveChat)
      requires chat.Valid() && !chat.done && ClosedIsEmpty(chat)
      modifies this, chat, chat.approvals, chat.inputs, chat.cancellations,
        chat.approvals.pending, chat.inputs.pending, chat.cancellations.pending
      ensures active == if old(active) == chat then null else old(active)
      ensures chat.Valid() && chat.Shut() && chat.done && chat.doneCloses == 1 && chat.cancelled == old(chat.cancelled)
      ensures chat.approvals.View() == CloseSection(old(chat.approvals.View()), INACTIVE)
      ensures chat.inputs.View() == CloseSection(old(chat.inputs.View()), INACTIVE)
      ensures chat.cancellations.View() == CloseSection(old(chat.cancellations.View()), INACTIVE)
    {
      if active == chat {
        active := null;
      }
      chat.CloseControllers(INACTIVE);
      chat.done, chat.doneCloses := true, chat.doneCloses + 1;
    }

    /** The locked part of cancel-and-wait; the caller then waits for `seen` to be done. */
    method CancelActive() returns (seen: ActiveChat?)
      requires active != null ==> active.Valid() && ClosedIsEmpty(active)
      modifies active
      modifies if active == null then {} else {active.approvals, active.inputs, active.cancellations}
      modifies if active == null then {} else {active.approvals.pending, active.inputs.pending, active.cancellations.pending}
      ensures seen == active == old(active)
      ensures seen != null ==> seen.Valid() && seen.Shut() && seen.cancelled && seen.done == old(seen.done)
    {
      seen := active;
      if seen != null {
        seen.cancelled := true;
        seen.CloseControllers(CANCELLED);
      }
    }
  }

  /** A closed controller has an empty slot: what every run of a controller keeps. */
  ghost predicate ClosedIsEmpty(chat: ActiveChat)
    reads chat.approvals, chat.inputs, chat.cancellations
  {
    && (chat.approvals.closed ==> chat.approvals.pending == null)
    && (chat.inputs.closed ==> chat.inputs.pending == null)
    && (chat.cancellations.closed ==> chat.cancellations.pending == null)
  }
}
