/** The invariant of bot control, and exactly which operations strand an entry on the stack. */
module ThreadInvariant {
  import opened ThreadModel
  import opened BotControlStore
  import opened PreviewStore
  import opened ThreadOps
  import opened ThreadMachine

  /** Foreign keys, and: only a bot is marked auto_leave, only a bot is the owner or on the stack. */
  predicate RowsFit(s: ThreadState) {
    && (forall i :: 0 <= i < |s.stack| ==> IsBotRow(s, s.stack[i].member))
    && (s.owner.Some? ==> IsBotRow(s, s.owner.value))
    && (forall m :: 0 <= m < |s.dialogs| && s.dialogs[m].autoLeave ==> s.dialogs[m].isBot)
  }

  predicate IsBotRow(s: ThreadState, m: MemberId) {
    m < |s.dialogs| && s.dialogs[m].isBot
  }

  /** Every live auto_leave bot, but for members on their way in, is on the stack. */
  predicate AutoLeaversOnStack(s: ThreadState, joining: set<MemberId>) {
    forall m :: 0 <= m < |s.dialogs| && s.dialogs[m].live && s.dialogs[m].autoLeave && m !in joining
        ==> OnStack(s.stack, m)
  }

  /** A thread that ever had a bot has an owner bot. */
  predicate BotsHaveAnOwner(s: ThreadState, joining: set<MemberId>) {
    s.owner.None? ==> s.stack == [] && forall m :: 0 <= m < |s.dialogs| && s.dialogs[m].isBot ==> m in joining
  }

  /** Nobody, the stack top, or the owner once the stack is empty. */
  predicate ControllerFits(s: ThreadState) {
    s.controller.None? || s.controller == Fallback(s)
  }

  predicate OneDialogPerContact(dialogs: seq<Dialog>) {
    forall i, j :: 0 <= i < j < |dialogs| && dialogs[i].live && dialogs[j].live
        ==> dialogs[i].contact != dialogs[j].contact
  }

  /** The invariant inside a transaction that is moving some members in. */
  predicate Settling(s: ThreadState, joining: set<MemberId>) {
    && RowsFit(s)
    && Ordered(s.stack)
    && AutoLeaversOnStack(s, joining)
    && BotsHaveAnOwner(s, joining)
    && ControllerFits(s)
    && OneDialogPerContact(s.dialogs)
    && OneOpen(s.previews)
  }

  /** What every operation keeps. */
  predicate Core(s: ThreadState) {
    Settling(s, {})
  }

  /** An entry whose dialog is not live any more. */
  predicate Stranded(s: ThreadState, m: MemberId) {
    OnStack(s.stack, m) && !IsMember(s, m)
  }

  /** And nobody is stranded: every entry is a live bot of the thread. */
  predicate Inv(s: ThreadState) {
    Core(s) && forall i :: 0 <= i < |s.stack| ==> IsMember(s, s.stack[i].member)
  }

  lemma NobodyIsStranded(s: ThreadState)
    requires Core(s)
    ensures Inv(s) <==> forall m :: !Stranded(s, m)
  {
    if !Inv(s) {
      var i :| 0 <= i < |s.stack| && !IsMember(s, s.stack[i].member);
      assert Stranded(s, s.stack[i].member);
    }
  }

  // ----- the statements -----

  lemma PushKeeps(s: ThreadState, m: MemberId, joining: set<MemberId>)
    requires Settling(s, joining + {m})
    requires IsBotRow(s, m) && !OnStack(s.stack, m) && (s.owner.Some? || IsMember(s, m))
    ensures Push(s, m).Ok? && Settling(Push(s, m).value, joining)
  {
    var t := Push(s, m).value;
    var n := |s.stack|;
    assert IsMember(s, m) ==> BotOffStack(s.dialogs, s.stack, m);
    OrderedPush(s.stack, Entry(m, NextPosition(s.stack)));
    assert t.stack[n].member == m;
    forall k | 0 <= k < |t.dialogs| && t.dialogs[k].live && t.dialogs[k].autoLeave && k !in joining
      ensures OnStack(t.stack, k)
    {
      if k != m {
        var i :| 0 <= i < n && s.stack[i].member == k;
        assert t.stack[i].member == k;
      }
    }
  }

  lemma PopFitsController(s: ThreadState, m: MemberId, reason: Reason)
    requires OnStack(s.stack, m)
    ensures Pop(s, m, reason).Ok? && ControllerFits(Pop(s, m, reason).value.state)
  {
    if Minus(s.stack, {m}) == [] {
      EmptiedByItsTop(s.stack, m);
    }
  }

  /** Popping a member settles the thread, for every reason, whether its dialog is live or not. */
  lemma PopKeeps(s: ThreadState, m: MemberId, reason: Reason)
    requires Core(s) && OnStack(s.stack, m)
    ensures Pop(s, m, reason).Ok? && Core(Pop(s, m, reason).value.state)
  {
    PopFitsController(s, m, reason);
    MinusOrdered(s.stack, {m});
    MinusMembers(s.stack, {m});
    MinusKeepsEntries(s.stack, {m});
  }

  lemma AdoptKeeps(s: ThreadState, m: MemberId)
    requires Settling(s, {m})
    ensures AdoptUntracked(s, m).Ok? && Settling(AdoptUntracked(s, m).value, {m})
    ensures OnStack(AdoptUntracked(s, m).value.stack, m) <==> OnStack(s.stack, m)
    ensures |AdoptUntracked(s, m).value.dialogs| == |s.dialogs|
    ensures m < |s.dialogs| ==> AdoptUntracked(s, m).value.dialogs[m] == s.dialogs[m]
  {
    var adopted := AdoptUntrackedBot(s, m);
    if adopted.bot.Some? {
      var e := adopted.bot.value;
      assert Settling(adopted.state, {m} + {e});
      PushKeeps(adopted.state, e, {m});
    }
  }

  lemma ActivateKeeps(s: ThreadState, m: MemberId)
    requires Settling(s, {m}) && IsMember(s, m) && s.dialogs[m].isBot && !OnStack(s.stack, m)
    ensures ActivateBot(s, m).Ok? && Core(ActivateBot(s, m).value)
  {
    AdoptKeeps(s, m);
    var s1 := AdoptUntracked(s, m).value;
    assert {} + {m} == {m};
    PushKeeps(s1, m, {});
  }

  lemma RestoreKeeps(s: ThreadState)
    requires Core(s)
    ensures Core(RestoreAfterAgent(s)) && Core(RestoreController(s).state)
  {
  }

  lemma CreateKeeps(s: ThreadState, d: Dialog)
    requires Core(s) && d.live && (d.autoLeave ==> d.isBot) && Create(s, d).Ok?
    ensures Settling(Create(s, d).value, {|s.dialogs|})
    ensures !d.isBot ==> Core(Create(s, d).value)
    ensures !OnStack(Create(s, d).value.stack, |s.dialogs|)
  {
  }

  lemma LeaveKeeps(s: ThreadState, m: MemberId, joining: set<MemberId>)
    requires Settling(s, joining) && m < |s.dialogs|
    ensures Settling(s.(dialogs := Leave(s.dialogs, m)), joining)
  {
  }

  /** The invariant says nothing about the outbox. */
  lemma OutboxIsFree(s: ThreadState, t: ThreadState)
    requires Core(s) && t == s.(outbox := t.outbox)
    ensures Core(t)
  {
  }

  // ----- the operations -----

  lemma HookKeeps(s: ThreadState, c: ContactId, hook: Hook)
    requires Core(s)
    ensures RunHook(s, c, hook).Ok? ==> Core(RunHook(s, c, hook).value)
    ensures RunHook(s, c, hook).Ok? ==> RunHook(s, c, hook).value == s.(previews := RunHook(s, c, hook).value.previews)
  {
  }

  lemma AddKeeps(seen: ThreadState, s: ThreadState, req: AddRequest, hook: Hook)
    requires Core(s) && AddMember(seen, s, req, hook).Ok?
    ensures Core(AddMember(seen, s, req, hook).value)
  {
    HookKeeps(s, req.contact, hook);
    var s1 := RunHook(s, req.contact, hook).value;
    var d := AddDialog(req);
    CreateKeeps(s1, d);
    if req.isBot {
      ActivateKeeps(Create(s1, d).value, |s1.dialogs|);
    }
  }

  lemma SwapControlKeeps(s: ThreadState, joined: MemberId, left: MemberId, fromBot: bool, toBot: bool, role: Role,
      cleaned: bool)
    requires
      if toBot then Settling(s, {joined}) && IsMember(s, joined) && s.dialogs[joined].isBot && !OnStack(s.stack, joined)
      else Core(s)
    requires SwapControl(s, joined, left, fromBot, toBot, role, cleaned).Ok?
    ensures Core(SwapControl(s, joined, left, fromBot, toBot, role, cleaned).value)
  {
    if toBot {
      ActivateKeeps(s, joined);
      var s1 := ActivateBot(s, joined).value;
      if fromBot && OnStack(s1.stack, left) {
        PopKeeps(s1, left, Transferred);
      }
    } else if fromBot {
      PopKeeps(s, left, Handoff);
    }
  }

  lemma SwapDialogsKeeps(s: ThreadState, d: Dialog, left: MemberId)
    requires Core(s) && d.live && (d.autoLeave ==> d.isBot) && left < |s.dialogs| && SwapDialogs(s, d, left).Ok?
    ensures
      var t := SwapDialogs(s, d, left).value;
      && Settling(t, {|s.dialogs|}) && (!d.isBot ==> Core(t))
      && t.stack == s.stack && !OnStack(t.stack, |s.dialogs|)
      && IsMember(t, |s.dialogs|) && t.dialogs[|s.dialogs|].isBot == d.isBot
  {
    CreateKeeps(s, d);
    var s1 := Create(s, d).value;
    LeaveKeeps(s1, left, {|s.dialogs|});
    if !d.isBot {
      LeaveKeeps(s1, left, {});
    }
  }

  lemma TransferKeeps(seen: ThreadState, s: ThreadState, req: TransferRequest, cleaned: bool)
    requires Core(s) && Older(seen, s) && Transfer(seen, s, req, cleaned).Ok?
    ensures Core(Transfer(seen, s, req, cleaned).value)
  {
    var i := FindContact(seen.dialogs, req.initiator).value;
    var d := TransferDialog(seen, req);
    SwapDialogsKeeps(s, d, i);
    SwapControlKeeps(SwapDialogs(s, d, i).value, |s.dialogs|, i, seen.dialogs[i].isBot, req.targetIsBot, req.role,
        cleaned);
  }

  lemma RemoveKeeps(seen: ThreadState, s: ThreadState, req: RemoveRequest)
    requires Core(s) && Older(seen, s) && RemoveMember(seen, s, req).Ok?
    ensures Core(RemoveMember(seen, s, req).value)
  {
    var m := req.target;
    if req.carriesBotFlags && seen.dialogs[m].isBot {
      PopKeeps(s, m, Removed);
      LeaveKeeps(Pop(s, m, Removed).value.state, m, {});
    } else {
      LeaveKeeps(s, m, {});
      RestoreKeeps(s.(dialogs := Leave(s.dialogs, m)));
    }
  }

  lemma CompleteKeeps(seen: ThreadState, s: ThreadState, m: MemberId)
    requires Core(s) && CompleteBotControl(seen, s, m).Ok?
    ensures Core(CompleteBotControl(seen, s, m).value)
  {
    if OnStack(s.stack, m) {
      PopKeeps(s, m, Completed);
    }
  }

  lemma ReleaseKeeps(seen: ThreadState, s: ThreadState)
    requires Core(s) && ReleaseBotControl(seen, s).Ok?
    ensures Core(ReleaseBotControl(seen, s).value)
  {
    if seen.stack != [] {
      var m := seen.stack[|seen.stack| - 1].member;
      PopKeeps(s, m, ClientLeave);
      OutboxIsFree(Pop(s, m, ClientLeave).value.state, ReleaseBotControl(seen, s).value);
    }
  }

  lemma HandBackKeeps(seen: ThreadState, s: ThreadState, c: ContactId)
    requires Core(s) && HandBackToBot(seen, s, c).Ok?
    ensures Core(HandBackToBot(seen, s, c).value)
  {
    RestoreKeeps(s);
    OutboxIsFree(RestoreController(s).state, HandBackToBot(seen, s, c).value);
  }

  lemma TakeOverKeeps(s: ThreadState)
    requires Core(s)
    ensures Core(ReleaseToAgent(s))
  {
  }

  lemma PermitKeeps(seen: ThreadState, s: ThreadState, req: PermitRequest)
    requires Core(s) && UpdatePermissions(seen, s, req).Ok?
    ensures Core(UpdatePermissions(seen, s, req).value)
  {
  }

  lemma EnsureKeeps(seen: ThreadState, s: ThreadState, to: ContactId, listed: seq<MemberId>)
    requires Core(s) && Older(seen, s)
    ensures EnsureDirectThread(seen, s, s, to, listed).Ok? && Core(EnsureDirectThread(seen, s, s, to, listed).value)
  {
    var bot := FirstBot(seen, listed);
    if bot.Some? {
      assert IsBotRow(s, bot.value);
      if s.stack == [] {
        assert {} + {bot.value} == {bot.value};
        assert Settling(s, {bot.value});
        PushKeeps(s, bot.value, {});
      }
    }
  }

  /** When the stack moves between the transaction's look at it and its write, an Ensure that found
      entries leaves the core exactly if the top it found is still who control falls back to. */
  lemma OvertakenEnsureKeepsIff(seen: ThreadState, read: ThreadState, s: ThreadState, listed: seq<MemberId>)
    requires Core(s) && Older(seen, s) && FirstBot(seen, listed).Some? && !HasOperator(seen.dialogs)
    requires EnsureBotControl(seen, read, s, listed).Ok?
    ensures Core(EnsureBotControl(seen, read, s, listed).value) <==> read.stack == [] || Top(read.stack) == Fallback(s)
  {
    var bot := FirstBot(seen, listed).value;
    assert IsBotRow(s, bot);
    if read.stack == [] {
      assert {} + {bot} == {bot};
      assert Settling(s, {bot});
      PushKeeps(s, bot, {});
      OutboxIsFree(Push(s, bot).value, EnsureBotControl(seen, read, s, listed).value);
    }
  }

  lemma PreviewStepKeeps(s: ThreadState, c: ContactId, ttl: int, now: int)
    requires Core(s)
    ensures GivePreview(s, c, ttl, now).Ok? ==> Core(GivePreview(s, c, ttl, now).value)
    ensures Core(RemoveFromPreview(s, c, now).value)
  {
    UpsertKeepsOneOpen(s.previews, c, ttl, now);
  }

  /** Every operation keeps the core of the invariant, however old the state its checks read is. */
  lemma StepKeepsCore(seen: ThreadState, s: ThreadState, op: Op)
    requires Core(s) && Older(seen, s)
    ensures Core(Commit(seen, s, op))
  {
    if Attempt(seen, s, op).Ok? {
      match op
      case Add(req) => AddKeeps(seen, s, req, NoHook);
      case Transfers(req, cleaned) => TransferKeeps(seen, s, req, cleaned);
      case Remove(req) => RemoveKeeps(seen, s, req);
      case Complete(m) => CompleteKeeps(seen, s, m);
      case Release => ReleaseKeeps(seen, s);
      case HandBack(c) => HandBackKeeps(seen, s, c);
      case TakeOver(_) => TakeOverKeeps(s);
      case Ensure(to, listed) => EnsureKeeps(seen, s, to, listed);
      case Give(c, ttl, now) => PreviewStepKeeps(s, c, ttl, now);
      case Withdraw(c, now) => PreviewStepKeeps(s, c, 1, now);
      case Upgrade(c, i, role, isBot, now) =>
        AddKeeps(seen, s, UpgradeRequest(c, i, role, isBot, now), ClosePreview(now));
      case Permit(req) => PermitKeeps(seen, s, req);
    }
  }
}
