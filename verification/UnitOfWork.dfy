/** The stores of one thread behind a transaction. Every statement may fail; a write that fails
    dooms the transaction, which then can only be rolled back. */
module UnitOfWorks {
  import opened Wrappers
  import opened ThreadModel
  import S = BotControlStore
  import V = PreviewStore
  import O = ThreadOps

  class UnitOfWork {
    var dialogs: seq<Dialog>
    var stack: seq<Entry>
    var controller: Option<MemberId>
    var owner: Option<MemberId>
    var previews: seq<Preview>
    var outbox: seq<Event>
    const botContacts: set<ContactId>
    var aborted: bool // a write of the open transaction has failed

    constructor (s: ThreadState)
      ensures View() == s
    {
      dialogs, stack, controller, owner := s.dialogs, s.stack, s.controller, s.owner;
      previews, outbox, botContacts := s.previews, s.outbox, s.botContacts;
      aborted := false;
    }

    function View(): (s: ThreadState)
      reads this
    {
      ThreadState(dialogs, stack, controller, owner, previews, outbox, botContacts)
    }

    /** Whether the database refuses the next statement: nothing is known about it. */
    method Refused() returns (refused: bool) {
      refused := *;
    }

    /** The same for a write. */
    method Fails() returns (failed: bool)
      modifies this`aborted
      ensures failed ==> aborted
      ensures !failed ==> aborted == old(aborted)
    {
      failed := *;
      aborted := aborted || failed;
    }

    // ----- transactions -----

    method Restore(s: ThreadState)
      requires s.botContacts == botContacts
      modifies this
      ensures View() == s
    {
      dialogs, stack, controller, owner := s.dialogs, s.stack, s.controller, s.owner;
      previews, outbox := s.previews, s.outbox;
    }

    /** Other callers commit: nothing is known about what, except that rows only age. */
    method Overtaken()
      modifies this
      ensures Older(old(View()), View())
    {
      var later: ThreadState := *;
      if Older(View(), later) {
        Restore(later);
      }
    }

    method Begin()
      modifies this`aborted
      ensures !aborted
    {
      aborted := false;
    }

    /** Commits what a transaction's body did when it succeeded and none of its writes failed, and
        else restores what was there before; a commit can fail as well. */
    method Finish<T>(saved: ThreadState, body: Result<T>) returns (r: Result<T>)
      requires saved.botContacts == botContacts
      modifies this
      ensures r.Ok? ==> r == body && View() == old(View()) && !old(aborted)
      ensures r.Err? ==> View() == saved && (body.Err? ==> r == body) && (body.Ok? ==> r == Err(Internal))
    {
      var refused := Refused();
      if body.Ok? && !refused && !aborted {
        return body;
      }
      Restore(saved);
      r := if body.Ok? then Err(Internal) else body;
    }

    /** The row lock every writer takes first. */
    method LockForUpdate() returns (r: Result<()>)
      ensures r.Err? ==> r.error == Internal
    {
      var refused := Refused();
      r := if refused then Err(Internal) else Ok(());
    }

    // ----- members -----

    method FindContact(c: ContactId) returns (r: Result<Option<MemberId>>)
      ensures r.Ok? ==> r.value == ThreadModel.FindContact(dialogs, c)
      ensures r.Err? ==> r.error == Internal
    {
      var refused := Refused();
      r := if refused then Err(Internal) else Ok(ThreadModel.FindContact(dialogs, c));
    }

    method CreateDialog(d: Dialog) returns (r: Result<MemberId>)
      modifies this
      ensures r.Ok? ==> S.Create(old(View()), d) == Ok(View()) && r.value == |old(dialogs)|
      ensures r.Err? ==> r.error == Internal && View() == old(View())
    {
      var failed := Fails();
      if failed || (d.live && ThreadModel.FindContact(dialogs, d.contact).Some?) {
        aborted := true;
        return Err(Internal);
      }
      r := Ok(|dialogs|);
      dialogs := dialogs + [S.Inserted(d)];
    }

    method DeleteDialog(m: MemberId) returns (r: Result<()>)
      requires m < |dialogs|
      modifies this
      ensures r.Ok? ==> View() == old(View()).(dialogs := S.Leave(old(dialogs), m))
      ensures r.Err? ==> r.error == Internal && View() == old(View())
    {
      var failed := Fails();
      if failed {
        return Err(Internal);
      }
      dialogs := dialogs[m := dialogs[m].(live := false)];
      r := Ok(());
    }

    method AdoptUntrackedBot(newcomer: MemberId) returns (r: Result<Option<MemberId>>)
      modifies this
      ensures r.Ok? ==> S.AdoptUntrackedBot(old(View()), newcomer) == S.Adopted(View(), r.value)
      ensures r.Err? ==> r.error == Internal && View() == old(View())
    {
      var failed := Fails();
      if failed {
        return Err(Internal);
      }
      var candidate := if stack == [] then S.EarliestUntracked(View(), newcomer, |dialogs|) else None;
      if candidate.Some? {
        dialogs := dialogs[candidate.value := dialogs[candidate.value].(isBot := true)];
      }
      r := Ok(candidate);
    }

    /** Writes the rows that match, and reports an error unless there is exactly one. */
    method UpdatePermissions(req: O.PermitRequest) returns (r: Result<()>)
      modifies this`dialogs
      ensures r.Err? && r.error == Internal ==> View() == old(View())
      ensures r.Ok? || r.error != Internal ==> View() == old(View()).(dialogs := O.Rewrite(old(dialogs), req))
      ensures r.Ok? ==> |O.Matching(old(View()), req)| == 1
      ensures r.Err? && r.error != Internal ==> r.error == Unknown && |O.Matching(old(View()), req)| != 1
    {
      var refused := Refused();
      if refused {
        return Err(Internal);
      }
      var found := |O.Matching(View(), req)|;
      dialogs := O.Rewrite(dialogs, req);
      r := if found == 1 then Ok(()) else Err(Unknown);
    }

    // ----- bot control -----

    /** Returns the entry that was on top before. */
    method Push(m: MemberId) returns (r: Result<Option<Entry>>)
      modifies this
      ensures r.Ok? ==> S.Push(old(View()), m) == Ok(View()) && r.value == O.StackTop(old(stack))
      ensures r.Err? ==> r.error == Internal && View() == old(View())
    {
      var failed := Fails();
      if failed || OnStack(stack, m) {
        aborted := true;
        return Err(Internal);
      }
      r := Ok(O.StackTop(stack));
      if owner.None? {
        owner := S.EarliestBotOffStack(dialogs, stack, |dialogs|);
      }
      controller := Some(m);
      stack := stack + [Entry(m, NextPosition(stack))];
    }

    /** Removes m's entry and, in a second statement, re-points the controller. When only the second
        one fails, the entry is gone until the transaction is rolled back. */
    method Pop(m: MemberId, reason: Reason) returns (r: Result<Option<Entry>>)
      modifies this
      ensures r.Ok? ==> S.Pop(old(View()), m, reason) == Ok(S.Popped(View(), r.value))
      ensures r.Err? && r.error == Internal ==> aborted && View() in {old(View()), S.Unlist(old(View()), m)}
      ensures r.Err? && r.error != Internal ==> View() == old(View()) && S.Pop(old(View()), m, reason) == Err(r.error)
    {
      var failed := Fails();
      if failed {
        return Err(Internal);
      }
      if !OnStack(stack, m) {
        return Err(NotFound);
      }
      var wasTop := Top(stack) == Some(m);
      Unlist(m);
      failed := Fails();
      if failed {
        return Err(Internal);
      }
      var newTop := Repoint(wasTop, reason);
      r := Ok(newTop);
    }

    method Unlist(m: MemberId)
      modifies this`stack, this`dialogs
      ensures View() == S.Unlist(old(View()), m)
    {
      stack := Minus(stack, {m});
      if m < |dialogs| && dialogs[m].autoLeave {
        dialogs := dialogs[m := dialogs[m].(live := false)];
      }
    }

    /** The stack's new top takes control; without one the owner does, if the popped entry was on
        top and control is not released for good. */
    method Repoint(wasTop: bool, reason: Reason) returns (newTop: Option<Entry>)
      modifies this`controller
      ensures S.Repoint(old(View()), wasTop, reason) == S.Popped(View(), newTop)
    {
      if reason == Handoff {
        controller := None;
        return None;
      }
      if stack != [] {
        controller := Top(stack);
        return Some(stack[|stack| - 1]);
      }
      if reason == ClientLeave {
        controller := None;
        return None;
      }
      if wasTop {
        controller := owner;
        return if owner.Some? then Some(Entry(owner.value, 0)) else None;
      }
      newTop := None;
    }

    method GetStack() returns (r: Result<seq<Entry>>)
      ensures r.Ok? ==> r.value == stack
      ensures r.Err? ==> r.error == Internal
    {
      var refused := Refused();
      r := if refused then Err(Internal) else Ok(stack);
    }

    method ClearController() returns (r: Result<Option<MemberId>>)
      modifies this
      ensures r.Ok? ==> S.ClearController(old(View())) == S.Cleared(View(), r.value)
      ensures r.Err? ==> r.error == Internal && View() == old(View())
    {
      var failed := Fails();
      if failed {
        return Err(Internal);
      }
      r := Ok(controller);
      controller := None;
    }

    method SetController(m: MemberId) returns (r: Result<()>)
      modifies this
      ensures r.Ok? ==> View() == old(View()).(controller := Some(m))
      ensures r.Err? ==> r.error == Internal && View() == old(View())
    {
      var failed := Fails();
      if failed {
        return Err(Internal);
      }
      controller := Some(m);
      r := Ok(());
    }

    method RestoreController() returns (r: Result<(Option<Entry>, bool)>)
      modifies this
      ensures r.Ok? ==> S.RestoreController(old(View())) == S.Restored(View(), r.value.0, r.value.1)
      ensures r.Err? ==> r.error == Internal && View() == old(View())
    {
      var failed := Fails();
      if failed {
        return Err(Internal);
      }
      var candidate := if stack != [] then Top(stack) else owner;
      var granted := controller.None? && candidate.Some?;
      if controller.None? {
        controller := candidate;
      }
      var holder :=
        if controller.Some? then Some(Entry(controller.value, PositionOf(stack, controller.value))) else None;
      r := Ok((holder, granted));
    }

    // ----- previews -----

    method GetActivePreview(c: ContactId, now: int) returns (r: Result<Option<nat>>)
      ensures r.Ok? ==> r.value == V.FindActive(previews, c, now)
      ensures r.Err? ==> r.error == Internal
    {
      var refused := Refused();
      r := if refused then Err(Internal) else Ok(V.FindActive(previews, c, now));
    }

    method RevokePreview(k: nat, how: Closing) returns (r: Result<()>)
      requires k < |previews|
      modifies this
      ensures r.Ok? ==> View() == old(View()).(previews := V.Revoke(old(previews), k, how))
      ensures r.Err? ==> r.error == Internal && View() == old(View())
    {
      var failed := Fails();
      if failed {
        return Err(Internal);
      }
      previews := previews[k := previews[k].(closed := Some(how))];
      r := Ok(());
    }

    method UpsertPreview(c: ContactId, ttl: int, now: int) returns (r: Result<()>)
      modifies this
      ensures r.Ok? ==> View() == old(View()).(previews := V.Upsert(old(previews), c, ttl, now))
      ensures r.Err? ==> r.error == Internal && View() == old(View())
    {
      var failed := Fails();
      if failed {
        return Err(Internal);
      }
      previews := V.Expire(previews, c, now);
      var active := V.FindActive(previews, c, now);
      if active.Some? {
        previews := previews[active.value := previews[active.value].(expires := now + ttl)];
      } else {
        previews := previews + [Preview(c, now + ttl, None)];
      }
      r := Ok(());
    }

    // ----- outbox -----

    method Publish(e: Event) returns (r: Result<()>)
      modifies this
      ensures r.Ok? ==> View() == old(View()).(outbox := old(outbox) + [e])
      ensures r.Err? ==> r.error == Internal && View() == old(View())
    {
      var failed := Fails();
      if failed {
        return Err(Internal);
      }
      outbox := outbox + [e];
      r := Ok(());
    }
  }
}
