/** Control between the bot and the people in the thread: taking over, handing back, leaving. */
module OperatorControl {
  import opened Wrappers
  import opened ThreadModel
  import opened BotControlStore
  import opened ThreadOps
  import opened ThreadMachine
  import opened ThreadInvariant
  import opened Histories
  import opened Strandings
  import opened Announcements

  lemma HolderIsTheFallback(s: ThreadState)
    requires Core(s) && s.controller.Some?
    ensures RestoreController(s.(controller := None)).state == s
    ensures RestoreController(s.(controller := None)).granted
  {
  }

  lemma TakeOverClears(s: ThreadState, a: ContactId)
    requires s.controller.Some? && ActsAsOperator(s, a)
    ensures Step(s, TakeOver(a)) ==
      s.(controller := None, outbox := s.outbox + [Released(s.controller.value, 0, AgentTakeover, None)])
  {
  }

  /** Taking over and handing back restores the thread to the row and appends exactly the two
      announcements, whichever operators do it. */
  lemma HandBackUndoesTakeOver(s: ThreadState, a: ContactId, b: ContactId)
    requires Core(s) && s.controller.Some? && ActsAsOperator(s, a) && ActsAsOperator(s, b)
    ensures
      var c := s.controller.value;
      Run(s, [TakeOver(a), HandBack(b)]) ==
      s.(outbox := s.outbox + [Released(c, 0, AgentTakeover, None),
                               Granted(c, PositionOf(s.stack, c), AgentHandback, true, None)])
  {
    var c := s.controller.value;
    var t := Step(s, TakeOver(a));
    TakeOverClears(s, a);
    HolderIsTheFallback(s);
    var g := Granted(c, PositionOf(s.stack, c), AgentHandback, true, None);
    assert Step(t, HandBack(b)) == t.(controller := Some(c), outbox := t.outbox + ([] + [g]));
    assert t.outbox + ([] + [g]) == s.outbox + [Released(c, 0, AgentTakeover, None), g];
    RunOfTwo(s, TakeOver(a), HandBack(b));
  }

  lemma RepeatedTakeOverIsQuiet(s: ThreadState, a: ContactId, b: ContactId)
    requires ActsAsOperator(s, a)
    ensures Step(Step(s, TakeOver(a)), TakeOver(b)) == Step(s, TakeOver(a))
  {
  }

  /** An operator leaves: as long as another one stays nothing happens to control; after the last
      one a bot holds it if the thread has any, and it is told so exactly when nobody held it. */
  lemma LastOperatorLeaves(seen: ThreadState, s: ThreadState, req: RemoveRequest)
    requires RemoveMember(seen, s, req).Ok?
    requires IsOperator(seen.dialogs[req.target].isBot, seen.dialogs[req.target].role)
    ensures
      var t := RemoveMember(seen, s, req).value;
      if HasOperator(t.dialogs) then t.controller == s.controller && t.outbox == s.outbox
      else
        && (s.stack != [] || s.owner.Some? ==> t.controller.Some?)
        && (s.controller.Some? ==> t.controller == s.controller && t.outbox == s.outbox)
        && (s.controller.None? && t.controller.Some? ==>
              && t.controller == Fallback(s)
              && t.outbox == s.outbox
                  + [Granted(t.controller.value, PositionOf(s.stack, t.controller.value), AgentLeft, true, None)])
        && (s.controller.None? && t.controller.None? ==> t.outbox == s.outbox)
  {
  }

  // ----- a grant that names somebody who is gone -----

  predicate GrantsLiveBots(s: ThreadState, t: ThreadState) {
    && |s.outbox| <= |t.outbox|
    && forall i :: |s.outbox| <= i < |t.outbox| && t.outbox[i].Granted? ==>
         IsMember(t, t.outbox[i].member) && t.dialogs[t.outbox[i].member].isBot
  }

  /** The removal is one of the last operator, and nobody holds control. */
  predicate RestoresTheFallback(seen: ThreadState, s: ThreadState, req: RemoveRequest)
    requires IsMember(seen, req.target)
  {
    && IsOperator(req.carriesBotFlags && seen.dialogs[req.target].isBot, seen.dialogs[req.target].role)
    && !HasOperator(Leave(s.dialogs, req.target))
    && s.controller.None?
  }

  /** Whom an operation grants control, other than a bot that is just joining: the one it falls
      back to, or the one an Ensure names. */
  function FallsTo(seen: ThreadState, s: ThreadState, op: Op): (m: Option<MemberId>) {
    match op
    case Remove(req) =>
      if !IsMember(seen, req.target) then None
      else if RemovalPops(seen, req, req.target) then FallbackWithout(s, req.target)
      else if RestoresTheFallback(seen, s, req) then Fallback(s)
      else None
    case Complete(m) =>
      if seen.owner != Some(m) && Grants(seen, s, m) then FallbackWithout(s, m) else None
    case Release => if seen.stack == [] then None else Top(Minus(s.stack, {seen.stack[|seen.stack| - 1].member}))
    case HandBack(_) => Fallback(s)
    case Ensure(to, listed) => if Ensures(seen, to, listed) then FirstBot(seen, listed) else None
    case _ => None
  }

  /** That one has left the thread, or leaves it with this very operation. */
  predicate GrantsTheDeparted(seen: ThreadState, s: ThreadState, op: Op) {
    var m := FallsTo(seen, s, op);
    m.Some? && (!IsMember(s, m.value) || (op.Remove? && m.value == op.remove.target))
  }

  lemma GrantIsLiveIff(s: ThreadState, t: ThreadState, m: MemberId, previous: Option<Entry>, position: nat,
      reason: Reason, resume: bool)
    requires t.outbox == s.outbox + GrantEvents(m, previous, position, reason, resume)
    ensures GrantsLiveBots(s, t) <==> IsMember(t, m) && t.dialogs[m].isBot
  {
    assert t.outbox[|t.outbox| - 1] == Granted(m, position, reason, resume, previous);
  }

  lemma ActivationIsLive(s: ThreadState, m: MemberId)
    requires ActivateBot(s, m).Ok? && IsMember(s, m) && s.dialogs[m].isBot
    ensures GrantsLiveBots(s, ActivateBot(s, m).value)
    ensures IsMember(ActivateBot(s, m).value, m) && ActivateBot(s, m).value.dialogs[m].isBot
  {
    var s1 := AdoptUntracked(s, m).value;
    var previous := StackTop(s1.stack);
    GrantIsLiveIff(s, ActivateBot(s, m).value, m, previous, PositionAfterPush(previous), Transferred, false);
  }

  /** What a pop reports: a bot other than the popped one, live exactly if it was. */
  lemma PoppedTop(s: ThreadState, m: MemberId, reason: Reason)
    requires Core(s) && OnStack(s.stack, m) && reason != Handoff
    ensures
      var rest := Minus(s.stack, {m});
      var popped := Pop(s, m, reason).value;
      && (forall k :: k != m ==> (IsMember(popped.state, k) <==> IsMember(s, k)))
      && if rest != [] then
           var top := rest[|rest| - 1].member;
           popped.newTop == Some(rest[|rest| - 1]) && top != m && IsBotRow(s, top) && IsBotRow(popped.state, top)
         else popped.newTop == if reason == ClientLeave then None else Some(Entry(s.owner.value, 0))
  {
    PopReportsTheController(s, m, reason);
    MinusMembers(s.stack, {m});
    var rest := Minus(s.stack, {m});
    if rest != [] {
      assert OnStack(rest, rest[|rest| - 1].member);
    }
  }

  lemma RestoredIsLiveIff(s: ThreadState)
    requires Core(s)
    ensures GrantsLiveBots(s, RestoreAfterAgent(s)) <==>
      (!HasOperator(s.dialogs) && s.controller.None? && Fallback(s).Some? ==> IsMember(s, Fallback(s).value))
  {
    var r := RestoreController(s);
    if !HasOperator(s.dialogs) && r.granted {
      GrantIsLiveIff(s, RestoreAfterAgent(s), r.holder.value.member, None, r.holder.value.position, AgentLeft, true);
    }
  }

  lemma BotRemovalGrantsLiveBotsIff(seen: ThreadState, s: ThreadState, req: RemoveRequest)
    requires Core(s) && Older(seen, s) && RemoveMember(seen, s, req).Ok? && RemovalPops(seen, req, req.target)
    ensures GrantsLiveBots(s, RemoveMember(seen, s, req).value) <==> !GrantsTheDeparted(seen, s, Remove(req))
  {
    var m := req.target;
    PoppedTop(s, m, Removed);
    var top := Pop(s, m, Removed).value.newTop.value;
    GrantIsLiveIff(s, RemoveMember(seen, s, req).value, top.member, Some(Entry(m, top.position + 1)), top.position,
        Removed, true);
  }

  lemma RowRemovalGrantsLiveBotsIff(seen: ThreadState, s: ThreadState, req: RemoveRequest)
    requires Core(s) && Older(seen, s) && RemoveMember(seen, s, req).Ok? && !RemovalPops(seen, req, req.target)
    ensures GrantsLiveBots(s, RemoveMember(seen, s, req).value) <==> !GrantsTheDeparted(seen, s, Remove(req))
  {
    LeaveKeeps(s, req.target, {});
    RestoredIsLiveIff(s.(dialogs := Leave(s.dialogs, req.target)));
  }

  lemma RemovalGrantsLiveBotsIff(seen: ThreadState, s: ThreadState, req: RemoveRequest)
    requires Core(s) && Older(seen, s) && RemoveMember(seen, s, req).Ok?
    ensures GrantsLiveBots(s, RemoveMember(seen, s, req).value) <==> !GrantsTheDeparted(seen, s, Remove(req))
  {
    if RemovalPops(seen, req, req.target) {
      BotRemovalGrantsLiveBotsIff(seen, s, req);
    } else {
      RowRemovalGrantsLiveBotsIff(seen, s, req);
    }
  }

  lemma CompletionGrantsLiveBotsIff(seen: ThreadState, s: ThreadState, m: MemberId)
    requires Core(seen) && Core(s) && Older(seen, s) && CompleteBotControl(seen, s, m).Ok?
    ensures GrantsLiveBots(s, CompleteBotControl(seen, s, m).value) <==> !GrantsTheDeparted(seen, s, Complete(m))
  {
    if OnStack(seen.stack, m) && seen.owner != Some(m) {
      PoppedTop(s, m, Completed);
      var top := Pop(s, m, Completed).value.newTop.value;
      if Grants(seen, s, m) {
        GrantIsLiveIff(s, CompleteBotControl(seen, s, m).value, top.member, Some(Entry(m, PositionOf(seen.stack, m))),
                       top.position, Completed, true);
      }
    } else if Top(seen.stack) == Some(m) {
      assert seen.stack[|seen.stack| - 1].member == m;
    }
  }

  lemma ReleaseGrantsLiveBotsIff(seen: ThreadState, s: ThreadState)
    requires Core(s) && ReleaseBotControl(seen, s).Ok?
    ensures GrantsLiveBots(s, ReleaseBotControl(seen, s).value) <==> !GrantsTheDeparted(seen, s, Release)
  {
    if seen.stack != [] {
      var active := seen.stack[|seen.stack| - 1];
      PoppedTop(s, active.member, ClientLeave);
      var popped := Pop(s, active.member, ClientLeave).value;
      if popped.newTop.Some? {
        var top := popped.newTop.value;
        var s1 := PublishReleased(popped.state, active.member, active.position, ClientLeave, Some(top.member));
        GrantIsLiveIff(s1, ReleaseBotControl(seen, s).value, top.member, Some(active), top.position, ClientLeave, true);
      }
    }
  }

  lemma SwapControlGrantsLiveBots(s: ThreadState, joined: MemberId, left: MemberId, fromBot: bool, toBot: bool,
      role: Role, cleaned: bool)
    requires SwapControl(s, joined, left, fromBot, toBot, role, cleaned).Ok? && joined != left
    requires toBot ==> IsMember(s, joined) && s.dialogs[joined].isBot
    ensures GrantsLiveBots(s, SwapControl(s, joined, left, fromBot, toBot, role, cleaned).value)
  {
    if toBot {
      ActivationIsLive(s, joined);
      assert GrantsLiveBots(s, ActivateBot(s, joined).value);
      if OnStack(ActivateBot(s, joined).value.stack, left) {
        PopSparesOthers(ActivateBot(s, joined).value, left, joined, Transferred);
      }
    }
  }

  lemma PopSparesOthers(s: ThreadState, m: MemberId, other: MemberId, reason: Reason)
    requires m != other && Pop(s, m, reason).Ok?
    ensures |Pop(s, m, reason).value.state.dialogs| == |s.dialogs|
    ensures other < |s.dialogs| ==> Pop(s, m, reason).value.state.dialogs[other] == s.dialogs[other]
    ensures Pop(s, m, reason).value.state.outbox == s.outbox
  {
  }

  lemma TransferGrantsLiveBots(seen: ThreadState, s: ThreadState, req: TransferRequest, cleaned: bool)
    requires Core(s) && Older(seen, s) && Transfer(seen, s, req, cleaned).Ok?
    ensures GrantsLiveBots(s, Transfer(seen, s, req, cleaned).value)
  {
    var i := FindContact(seen.dialogs, req.initiator).value;
    var d := TransferDialog(seen, req);
    SwapDialogsKeeps(s, d, i);
    SwapControlGrantsLiveBots(SwapDialogs(s, d, i).value, |s.dialogs|, i, seen.dialogs[i].isBot, req.targetIsBot,
        req.role, cleaned);
  }

  lemma AddGrantsLiveBots(seen: ThreadState, s: ThreadState, req: AddRequest, hook: Hook)
    requires AddMember(seen, s, req, hook).Ok?
    ensures GrantsLiveBots(s, AddMember(seen, s, req, hook).value)
  {
    if req.isBot {
      var s1 := RunHook(s, req.contact, hook).value;
      var d := AddDialog(req);
      ActivationIsLive(Create(s1, d).value, |s1.dialogs|);
    }
  }

  lemma HandBackGrantsLiveBotsIff(seen: ThreadState, s: ThreadState, c: ContactId)
    requires Core(s) && HandBackToBot(seen, s, c).Ok?
    ensures GrantsLiveBots(s, HandBackToBot(seen, s, c).value) <==> !GrantsTheDeparted(seen, s, HandBack(c))
  {
    var r := RestoreController(s);
    GrantIsLiveIff(s, HandBackToBot(seen, s, c).value, r.holder.value.member, None, r.holder.value.position,
        AgentHandback, true);
  }

  lemma EnsureGrantsLiveBotsIff(seen: ThreadState, s: ThreadState, to: ContactId, listed: seq<MemberId>)
    requires Core(s) && Older(seen, s)
    ensures GrantsLiveBots(s, EnsureDirectThread(seen, s, s, to, listed).value)
        <==> !GrantsTheDeparted(seen, s, Ensure(to, listed))
  {
    if Ensures(seen, to, listed) {
      var bot := FirstBot(seen, listed).value;
      assert IsBotRow(s, bot);
      GrantIsLiveIff(s, EnsureDirectThread(seen, s, s, to, listed).value, bot, None, 0, Initial, false);
    }
  }

  /** Every grant goes to a live bot of the thread, exactly unless control falls to a member that is
      gone: a stranded entry, or the owner, whose column outlives its membership. */
  lemma GrantsGoToLiveBotsIff(seen: ThreadState, s: ThreadState, op: Op)
    requires Core(seen) && Core(s) && Older(seen, s) && Attempt(seen, s, op).Ok?
    ensures GrantsLiveBots(s, Commit(seen, s, op)) <==> !GrantsTheDeparted(seen, s, op)
  {
    match op
    case Add(req) => AddGrantsLiveBots(seen, s, req, NoHook);
    case Transfers(req, cleaned) => TransferGrantsLiveBots(seen, s, req, cleaned);
    case Remove(req) => RemovalGrantsLiveBotsIff(seen, s, req);
    case Complete(m) => CompletionGrantsLiveBotsIff(seen, s, m);
    case Release => ReleaseGrantsLiveBotsIff(seen, s);
    case HandBack(c) => HandBackGrantsLiveBotsIff(seen, s, c);
    case TakeOver(_) =>
    case Ensure(to, listed) => EnsureGrantsLiveBotsIff(seen, s, to, listed);
    case Give(_, _, _) =>
    case Withdraw(_, _) =>
    case Upgrade(c, i, role, isBot, now) =>
      AddGrantsLiveBots(seen, s, UpgradeRequest(c, i, role, isBot, now), ClosePreview(now));
    case Permit(_) =>
  }
}
