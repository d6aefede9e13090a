/** The service operations, statement by statement, over stores that may fail at any of them and
    that other callers use as well. Each operation's mid is the thread its transaction found:
    what was there when its checks read it, and whatever others have committed since. */
module ThreadManagers {
  import opened Wrappers
  import opened ThreadModel
  import opened UnitOfWorks
  import O = ThreadOps
  import V = PreviewStore
  import P = Permissions

  /** What a transaction does to the thread it found: success commits exactly what the operation
      specifies; an error commits nothing, and is either the database's or the one specified. */
  predicate Commits<T>(before: ThreadState, after: ThreadState, spec: Result<ThreadState>, r: Result<T>) {
    match r
    case Ok(_) => spec == Ok(after)
    case Err(e) => after == before && (e == Internal || spec == Err(e))
  }

  /** The same inside the transaction, where an error leaves anything behind for the rollback. */
  predicate Does<T>(after: ThreadState, spec: Result<ThreadState>, r: Result<T>) {
    match r
    case Ok(_) => spec == Ok(after)
    case Err(e) => e == Internal || spec == Err(e)
  }

  class ThreadManager {
    const uow: UnitOfWork

    constructor (uow: UnitOfWork)
      ensures this.uow == uow
    {
      this.uow := uow;
    }

    // ----- steps inside a transaction -----

    method PublishReleased(m: MemberId, position: nat, reason: Reason, next: Option<MemberId>) returns (r: Result<()>)
      modifies uow
      ensures Does(uow.View(), Ok(O.PublishReleased(old(uow.View()), m, position, reason, next)), r)
    {
      r := uow.Publish(Released(m, position, reason, next));
    }

    method PublishGranted(m: MemberId, previous: Option<Entry>, position: nat, reason: Reason, resume: bool)
        returns (r: Result<()>)
      modifies uow
      ensures Does(uow.View(), Ok(O.PublishGranted(old(uow.View()), m, previous, position, reason, resume)), r)
    {
      if previous.Some? {
        var _ :- PublishReleased(previous.value.member, previous.value.position, reason, Some(m));
      }
      r := uow.Publish(Granted(m, position, reason, resume, previous));
      assert r.Ok? ==> uow.outbox == old(uow.outbox) + O.GrantEvents(m, previous, position, reason, resume);
    }

    method AdoptUntracked(newcomer: MemberId) returns (r: Result<()>)
      modifies uow
      ensures Does(uow.View(), O.AdoptUntracked(old(uow.View()), newcomer), r)
    {
      var adopted :- uow.AdoptUntrackedBot(newcomer);
      if adopted.None? {
        return Ok(());
      }
      var _ :- uow.Push(adopted.value);
      r := Ok(());
    }

    method ActivateBot(m: MemberId) returns (r: Result<()>)
      modifies uow
      ensures Does(uow.View(), O.ActivateBot(old(uow.View()), m), r)
    {
      var _ :- AdoptUntracked(m);
      var previous :- uow.Push(m);
      r := PublishGranted(m, previous, O.PositionAfterPush(previous), Transferred, false);
    }

    method ReleaseControlToAgent() returns (r: Result<()>)
      modifies uow
      ensures Does(uow.View(), Ok(O.ReleaseToAgent(old(uow.View()))), r)
    {
      var released :- uow.ClearController();
      if released.None? {
        return Ok(());
      }
      r := PublishReleased(released.value, 0, AgentTakeover, None);
    }

    method RestoreControlAfterAgent() returns (r: Result<()>)
      modifies uow
      ensures Does(uow.View(), Ok(O.RestoreAfterAgent(old(uow.View()))), r)
    {
      if HasOperator(uow.dialogs) {
        return Ok(());
      }
      var restored :- uow.RestoreController();
      var controller, granted := restored.0, restored.1;
      if controller.None? || !granted {
        return Ok(());
      }
      r := PublishGranted(controller.value.member, None, controller.value.position, AgentLeft, true);
    }

    method RunHook(c: ContactId, hook: O.Hook) returns (r: Result<()>)
      modifies uow
      ensures Does(uow.View(), O.RunHook(old(uow.View()), c, hook), r)
    {
      if hook.NoHook? {
        return Ok(());
      }
      var active :- uow.GetActivePreview(c, hook.now);
      if active.None? {
        return Err(FailedPrecondition);
      }
      r := uow.RevokePreview(active.value, ByUpgrade);
    }

    // ----- adding -----

    method AddMember(req: O.AddRequest, hook: O.Hook) returns (r: Result<MemberId>, ghost mid: ThreadState)
      modifies uow
      ensures Older(old(uow.View()), mid)
      ensures Commits(mid, uow.View(), O.AddMember(old(uow.View()), mid, req, hook), r)
    {
      mid := uow.View();
      var initiator: Option<MemberId> := None;
      if req.initiator.Some? {
        initiator :- uow.FindContact(req.initiator.value);
      }
      var target :- uow.FindContact(req.contact);
      if target.Some? {
        return Err(AlreadyExists), mid;
      }
      if !req.systemCall && req.initiator.Some? {
        var refusal := P.VerifyAdd(O.DialogOf(uow.View(), initiator), req.contact, req.role, req.invitable);
        if refusal.Some? {
          return Err(refusal.value), mid;
        }
      }
      if P.DefaultByRole(req.role).None? {
        return Err(Unknown), mid;
      }
      uow.Overtaken();
      mid := uow.View();
      uow.Begin();
      var saved := uow.View();
      var body := AddMemberTx(old(uow.View()), req, hook);
      r := uow.Finish(saved, body);
    }

    method AddMemberTx(ghost seen: ThreadState, req: O.AddRequest, hook: O.Hook) returns (r: Result<MemberId>)
      requires O.AdmitAdd(seen, req).None?
      modifies uow
      ensures Does(uow.View(), O.AddMember(seen, old(uow.View()), req, hook), r)
    {
      var _ :- uow.LockForUpdate();
      var _ :- RunHook(req.contact, hook);
      var m :- uow.CreateDialog(O.AddDialog(req));
      if req.isBot {
        var _ :- ActivateBot(m);
      } else if IsOperator(false, req.role) {
        var _ :- ReleaseControlToAgent();
      }
      r := Ok(m);
    }

    method UpgradePreviewToFullMember(c: ContactId, initiator: ContactId, role: Role, isBot: bool, now: int)
        returns (r: Result<MemberId>, ghost mid: ThreadState)
      modifies uow
      ensures Older(old(uow.View()), mid)
      ensures Commits(mid, uow.View(), O.UpgradePreview(old(uow.View()), mid, c, initiator, role, isBot, now), r)
    {
      mid := uow.View();
      if P.DefaultByRole(role).None? {
        return Err(InvalidArgument), mid;
      }
      r, mid := AddMember(O.UpgradeRequest(c, initiator, role, isBot, now), O.ClosePreview(now));
    }

    // ----- transferring -----

    /** A failure to remove the initiator's stack entry is only logged, but the transaction it
        happened in does not commit: what is committed is always the clean transfer. */
    method Transfer(req: O.TransferRequest) returns (r: Result<MemberId>, ghost mid: ThreadState)
      modifies uow
      ensures Older(old(uow.View()), mid)
      ensures Commits(mid, uow.View(), O.Transfer(old(uow.View()), mid, req, true), r)
    {
      mid := uow.View();
      var initiator :- uow.FindContact(req.initiator);
      if initiator.None? {
        return Err(NotFound), mid;
      }
      var target :- uow.FindContact(req.contact);
      if target.Some? {
        return Err(AlreadyExists), mid;
      }
      if P.DefaultByRole(req.role).None? {
        return Err(Unknown), mid;
      }
      var refusal := P.VerifyAdd(O.DialogOf(uow.View(), initiator), req.contact, req.role, req.invitable);
      if refusal.Some? {
        return Err(refusal.value), mid;
      }
      var joining, fromBot := O.TransferDialog(uow.View(), req), uow.dialogs[initiator.value].isBot;
      uow.Overtaken();
      mid := uow.View();
      uow.Begin();
      var saved := uow.View();
      var body, cleaned := TransferTx(old(uow.View()), req, joining, initiator.value, fromBot);
      r := uow.Finish(saved, body);
    }

    /** cleaned is false when the initiator's entry could not be removed. */
    method TransferTx(ghost seen: ThreadState, req: O.TransferRequest, joining: Dialog, initiator: MemberId,
        fromBot: bool)
      returns (r: Result<MemberId>, ghost cleaned: bool)
      requires O.AdmitTransfer(seen, req).None? && Older(seen, uow.View())
      requires ThreadModel.FindContact(seen.dialogs, req.initiator) == Some(initiator)
      requires joining == O.TransferDialog(seen, req) && fromBot == seen.dialogs[initiator].isBot
      modifies uow
      ensures cleaned ==> Does(uow.View(), O.Transfer(seen, old(uow.View()), req, true), r)
      ensures !cleaned ==> r.Ok? && uow.aborted
    {
      cleaned := true;
      var _ :- uow.LockForUpdate();
      var m :- uow.CreateDialog(joining);
      var _ :- uow.DeleteDialog(initiator);
      if req.targetIsBot {
        var _ :- ActivateBot(m);
        if fromBot {
          var popped := uow.Pop(initiator, Transferred);
          cleaned := popped.Ok? || popped.error == NotFound;
        }
      } else if fromBot {
        // A handoff reports no new top, so there is nobody to grant.
        var popped := uow.Pop(initiator, Handoff);
        if popped.Err? {
          return Err(Internal), true;
        }
      } else if IsOperator(false, req.role) {
        var _ :- ReleaseControlToAgent();
      }
      r := Ok(m);
    }

    // ----- removing -----

    method RemoveMember(req: O.RemoveRequest) returns (r: Result<()>, ghost mid: ThreadState)
      modifies uow
      ensures Older(old(uow.View()), mid)
      ensures Commits(mid, uow.View(), O.RemoveMember(old(uow.View()), mid, req), r)
    {
      mid := uow.View();
      var initiator: Option<MemberId> := None;
      if req.initiator.Some? {
        initiator :- uow.FindContact(req.initiator.value);
      }
      if !IsMember(uow.View(), req.target) {
        return Err(NotFound), mid;
      }
      var row := uow.dialogs[req.target];
      var target := row.(isBot := req.carriesBotFlags && row.isBot, autoLeave := req.carriesBotFlags && row.autoLeave);
      if !req.systemCall && req.initiator.Some? {
        var refusal := P.VerifyRemove(initiator, req.target, uow.dialogs, target.isBot);
        if refusal.Some? {
          return Err(refusal.value), mid;
        }
      }
      uow.Overtaken();
      mid := uow.View();
      uow.Begin();
      var saved := uow.View();
      var body := RemoveMemberTx(old(uow.View()), req, target);
      r := uow.Finish(saved, body);
    }

    method RemoveMemberTx(ghost seen: ThreadState, req: O.RemoveRequest, target: Dialog) returns (r: Result<()>)
      requires O.AdmitRemove(seen, req).None? && Older(seen, uow.View())
      requires target == seen.dialogs[req.target].(isBot := req.carriesBotFlags && seen.dialogs[req.target].isBot,
                                                   autoLeave := req.carriesBotFlags
                                                       && seen.dialogs[req.target].autoLeave)
      modifies uow
      ensures Does(uow.View(), O.RemoveMember(seen, old(uow.View()), req), r)
    {
      var _ :- uow.LockForUpdate();
      if target.isBot {
        var popped := uow.Pop(req.target, Removed);
        if popped.Err? {
          return Err(Internal);
        }
        var newTop := popped.value;
        if newTop.Some? {
          var _ :- PublishGranted(newTop.value.member, Some(Entry(req.target, newTop.value.position + 1)),
              newTop.value.position, Removed, true);
        }
        if !target.autoLeave {
          var _ :- uow.DeleteDialog(req.target);
        }
      } else {
        var _ :- uow.DeleteDialog(req.target);
        if IsOperator(target.isBot, target.role) {
          var _ :- RestoreControlAfterAgent();
        }
      }
      r := Ok(());
    }

    // ----- completing and releasing -----

    method CompleteBotControl(m: MemberId) returns (r: Result<()>, ghost mid: ThreadState)
      modifies uow
      ensures Older(old(uow.View()), mid)
      ensures Commits(mid, uow.View(), O.CompleteBotControl(old(uow.View()), mid, m), r)
    {
      mid := uow.View();
      uow.Begin();
      var stack :- uow.GetStack();
      var owner := uow.owner;
      uow.Overtaken();
      mid := uow.View();
      var saved := uow.View();
      var body := CompleteBotControlTx(old(uow.View()), stack, owner, m);
      r := uow.Finish(saved, body);
    }

    /** What follows the look at the stack and the owner. */
    method CompleteBotControlTx(ghost seen: ThreadState, stack: seq<Entry>, owner: Option<MemberId>, m: MemberId)
        returns (r: Result<()>)
      requires stack == seen.stack && owner == seen.owner
      modifies uow
      ensures Does(uow.View(), O.CompleteBotControl(seen, old(uow.View()), m), r)
    {
      if stack == [] {
        return Ok(());
      }
      var completing: Option<Entry> := None;
      var i := 0;
      while i < |stack|
        invariant 0 <= i <= |stack|
        invariant forall k :: 0 <= k < i ==> stack[k].member != m
        invariant PositionOf(stack, m) == PositionOf(stack[i..], m)
      {
        if stack[i].member == m {
          completing := Some(stack[i]);
          break;
        }
        assert stack[i..][1..] == stack[i + 1..];
        i := i + 1;
      }
      if completing.None? {
        return Ok(());
      }
      assert stack[i].member == m;
      var wasActiveController := stack[|stack| - 1].member == m;
      if owner == Some(m) {
        return Ok(());
      }
      var newTop :- uow.Pop(m, Completed);
      if !wasActiveController || newTop.None? || Some(newTop.value.member) == owner {
        return Ok(());
      }
      r := PublishGranted(newTop.value.member, Some(Entry(m, completing.value.position)), newTop.value.position,
          Completed, true);
    }

    method ReleaseBotControl() returns (r: Result<()>, ghost mid: ThreadState)
      modifies uow
      ensures Older(old(uow.View()), mid)
      ensures Commits(mid, uow.View(), O.ReleaseBotControl(old(uow.View()), mid), r)
    {
      mid := uow.View();
      uow.Begin();
      var stack :- uow.GetStack();
      uow.Overtaken();
      mid := uow.View();
      var saved := uow.View();
      var body := ReleaseBotControlTx(old(uow.View()), stack);
      r := uow.Finish(saved, body);
    }

    /** What follows the look at the stack. */
    method ReleaseBotControlTx(ghost seen: ThreadState, stack: seq<Entry>) returns (r: Result<()>)
      requires stack == seen.stack
      modifies uow
      ensures Does(uow.View(), O.ReleaseBotControl(seen, old(uow.View())), r)
    {
      if stack == [] {
        var released :- uow.ClearController();
        if released.None? {
          return Ok(());
        }
        r := PublishReleased(released.value, 0, ClientLeave, None);
        return;
      }
      var active := stack[|stack| - 1];
      assert OnStack(stack, active.member);
      var newTop :- uow.Pop(active.member, ClientLeave);
      var next := if newTop.Some? then Some(newTop.value.member) else None;
      var _ :- PublishReleased(active.member, active.position, ClientLeave, next);
      if newTop.None? {
        return Ok(());
      }
      r := PublishGranted(newTop.value.member, Some(active), newTop.value.position, ClientLeave, true);
    }

    // ----- operators -----

    method VerifyOperator(c: ContactId) returns (r: Result<()>)
      ensures r.Ok? ==> O.ActsAsOperator(uow.View(), c)
      ensures r.Err? ==> r.error == Internal || (r.error == Forbidden && !O.ActsAsOperator(uow.View(), c))
    {
      var m :- uow.FindContact(c);
      if m.None? || !IsOperator(uow.dialogs[m.value].isBot, uow.dialogs[m.value].role) {
        return Err(Forbidden);
      }
      r := Ok(());
    }

    method HandBackToBot(c: ContactId) returns (r: Result<()>, ghost mid: ThreadState)
      modifies uow
      ensures Older(old(uow.View()), mid)
      ensures Commits(mid, uow.View(), O.HandBackToBot(old(uow.View()), mid, c), r)
    {
      mid := uow.View();
      var _ :- VerifyOperator(c);
      uow.Overtaken();
      mid := uow.View();
      uow.Begin();
      var saved := uow.View();
      var body := HandBackToBotTx(old(uow.View()), c);
      r := uow.Finish(saved, body);
    }

    method HandBackToBotTx(ghost seen: ThreadState, c: ContactId) returns (r: Result<()>)
      requires O.ActsAsOperator(seen, c)
      modifies uow
      ensures Does(uow.View(), O.HandBackToBot(seen, old(uow.View()), c), r)
    {
      var restored :- uow.RestoreController();
      if restored.0.None? {
        return Err(FailedPrecondition);
      }
      r := PublishGranted(restored.0.value.member, None, restored.0.value.position, AgentHandback, true);
    }

    method TakeOverFromBot(c: ContactId) returns (r: Result<()>, ghost mid: ThreadState)
      modifies uow
      ensures Older(old(uow.View()), mid)
      ensures Commits(mid, uow.View(), O.TakeOverFromBot(old(uow.View()), mid, c), r)
    {
      mid := uow.View();
      var _ :- VerifyOperator(c);
      uow.Overtaken();
      mid := uow.View();
      uow.Begin();
      var saved := uow.View();
      var body := ReleaseControlToAgent();
      r := uow.Finish(saved, body);
    }

    // ----- existing threads -----

    /** The thread row has just been inserted, so its stores are empty. */
    method CreateDirectThread(from: ContactId, to: ContactId, toIsBot: bool, began: int) returns (r: Result<()>)
      requires uow.View() == ThreadState([], [], None, None, [], [], uow.botContacts)
      modifies uow
      ensures Commits(old(uow.View()), uow.View(), O.CreateDirectThread(from, to, toIsBot, uow.botContacts, began), r)
    {
      uow.Begin();
      var saved := uow.View();
      var body := CreateDirectThreadTx(from, to, toIsBot, began);
      r := uow.Finish(saved, body);
    }

    method CreateDirectThreadTx(from: ContactId, to: ContactId, toIsBot: bool, began: int) returns (r: Result<()>)
      requires uow.View() == ThreadState([], [], None, None, [], [], uow.botContacts)
      modifies uow
      ensures Does(uow.View(), O.CreateDirectThread(from, to, toIsBot, uow.botContacts, began), r)
    {
      var _ :- uow.CreateDialog(Dialog(from, Owner, P.FULL, false, false, true, began));
      var bot :- uow.CreateDialog(Dialog(to, Owner, P.FULL, toIsBot, false, true, began));
      if toIsBot {
        var _ :- uow.Push(bot);
        var _ :- PublishGranted(bot, None, 0, Initial, false);
      }
      r := Ok(());
    }

    /** A failure to restore bot control is only logged; ensured says whether it went through. The
        transaction reads the stack in the state read and writes in the state mid. */
    method EnsureDirectThread(to: ContactId, listed: seq<MemberId>)
      returns (r: Result<()>, ensured: bool, ghost read: ThreadState, ghost mid: ThreadState)
      modifies uow
      ensures Older(old(uow.View()), read) && Older(read, mid)
      ensures ensured && r.Ok? ==> O.EnsureDirectThread(old(uow.View()), read, mid, to, listed) == Ok(uow.View())
      ensures !ensured || r.Err? ==> uow.View() == mid
    {
      read, mid := uow.View(), uow.View();
      ensured := false;
      var found :- uow.FindContact(to);
      if uow.controller.None? && found.Some? && uow.dialogs[found.value].isBot {
        var bot := O.FirstBot(uow.View(), listed);
        if bot.Some? && !HasOperator(uow.dialogs) {
          uow.Overtaken();
          read := uow.View();
          uow.Begin();
          var stack := uow.GetStack();
          uow.Overtaken();
          mid := uow.View();
          var saved := uow.View();
          if stack.Ok? {
            var body := EnsureBotControlTx(old(uow.View()), read, stack.value, bot.value, listed);
            var finished := uow.Finish(saved, body);
            ensured := finished.Ok?;
          }
          return Ok(()), ensured, read, mid;
        }
      }
      ensured := true;
      r := Ok(());
    }

    /** What follows the look at the stack. */
    method EnsureBotControlTx(ghost seen: ThreadState, ghost read: ThreadState, stack: seq<Entry>, bot: MemberId,
        ghost listed: seq<MemberId>)
      returns (r: Result<()>)
      requires O.FirstBot(seen, listed) == Some(bot) && !HasOperator(seen.dialogs) && stack == read.stack
      modifies uow
      ensures Does(uow.View(), O.EnsureBotControl(seen, read, old(uow.View()), listed), r)
    {
      if stack != [] {
        var _ :- uow.SetController(stack[|stack| - 1].member);
      } else {
        var _ :- uow.Push(bot);
      }
      r := PublishGranted(bot, None, 0, Initial, false);
    }

    // ----- previews and permissions -----

    method GivePreview(c: ContactId, ttl: int, now: int) returns (r: Result<()>, ghost mid: ThreadState)
      modifies uow
      ensures Older(old(uow.View()), mid)
      ensures Commits(mid, uow.View(), O.GivePreview(mid, c, ttl, now), r)
    {
      mid := uow.View();
      if ttl <= 0 || V.MAX_PREVIEW_MS < ttl {
        return Err(InvalidArgument), mid;
      }
      uow.Overtaken();
      mid := uow.View();
      uow.Begin();
      var saved := uow.View();
      var body := GivePreviewTx(c, ttl, now);
      r := uow.Finish(saved, body);
    }

    method GivePreviewTx(c: ContactId, ttl: int, now: int) returns (r: Result<()>)
      requires 0 < ttl <= V.MAX_PREVIEW_MS
      modifies uow
      ensures Does(uow.View(), O.GivePreview(old(uow.View()), c, ttl, now), r)
    {
      var _ :- uow.LockForUpdate();
      var member :- uow.FindContact(c);
      if member.Some? {
        return Err(AlreadyExists);
      }
      r := uow.UpsertPreview(c, ttl, now);
    }

    method RemoveFromPreview(c: ContactId, now: int) returns (r: Result<()>, ghost mid: ThreadState)
      modifies uow
      ensures Older(old(uow.View()), mid)
      ensures Commits(mid, uow.View(), O.RemoveFromPreview(mid, c, now), r)
    {
      mid := uow.View();
      uow.Overtaken();
      mid := uow.View();
      uow.Begin();
      var saved := uow.View();
      var body := RemoveFromPreviewTx(c, now);
      r := uow.Finish(saved, body);
    }

    method RemoveFromPreviewTx(c: ContactId, now: int) returns (r: Result<()>)
      modifies uow
      ensures Does(uow.View(), O.RemoveFromPreview(old(uow.View()), c, now), r)
    {
      var active :- uow.GetActivePreview(c, now);
      if active.None? {
        return Ok(());
      }
      r := uow.RevokePreview(active.value, ByRemove);
    }

    /** One statement, without a transaction: when it finds several rows it writes them all, and
        only then reports an error. */
    method UpdatePermissions(req: O.PermitRequest) returns (r: Result<()>, ghost mid: ThreadState)
      modifies uow
      ensures Older(old(uow.View()), mid)
      ensures |O.Matching(mid, req)| <= 1
          ==> Commits(mid, uow.View(), O.UpdatePermissions(old(uow.View()), mid, req), r)
      ensures |O.Matching(mid, req)| > 1 ==>
        r.Err? && (uow.View() == mid || O.UpdatePermissions(old(uow.View()), mid, req) == Ok(uow.View()))
    {
      mid := uow.View();
      if req.initiator.Some? {
        var i :- uow.FindContact(req.initiator.value);
        if i.None? || req.target.OfContact? || !IsMember(uow.View(), req.target.member) {
          return Err(Unknown), mid;
        }
        var refusal := P.VerifyChange(i.value, req.target.member, uow.dialogs, req.changes, req.loadsReact);
        if refusal.Some? {
          return Err(refusal.value), mid;
        }
      }
      uow.Overtaken();
      mid := uow.View();
      r := uow.UpdatePermissions(req);
      if O.Matching(mid, req) == {} {
        O.NoMatchRewritesNothing(mid, req);
      }
    }
  }
}
