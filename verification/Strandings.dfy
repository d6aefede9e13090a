/** Entries left on the stack by members who are gone: exactly which operations leave them. */
module Strandings {
  import opened Wrappers
  import opened ThreadModel
  import opened BotControlStore
  import opened ThreadOps
  import opened ThreadMachine
  import opened ThreadInvariant
  import opened Histories

  // ----- when -----

  /** A transfer pops the initiator's entry, when the initiator was seen to be a bot. */
  predicate TransferPops(seen: ThreadState, req: TransferRequest, cleaned: bool, m: MemberId) {
    && FindContact(seen.dialogs, req.initiator) == Some(m) && seen.dialogs[m].isBot
    && (req.targetIsBot ==> cleaned)
  }

  /** A removal pops the target's entry, when the lookup carried the mark of a bot. */
  predicate RemovalPops(seen: ThreadState, req: RemoveRequest, m: MemberId) {
    m == req.target && req.carriesBotFlags && IsBotRow(seen, m)
  }

  /** The bot an Ensure pushes, when it does. */
  predicate EnsurePushes(seen: ThreadState, s: ThreadState, to: ContactId, listed: seq<MemberId>, m: MemberId) {
    Ensures(seen, to, listed) && s.stack == [] && FirstBot(seen, listed) == Some(m)
  }

  /** The retroactive grant runs: the addressee is a bot, nobody holds control, no operator is there. */
  predicate Ensures(seen: ThreadState, to: ContactId, listed: seq<MemberId>) {
    var m := FindContact(seen.dialogs, to);
    && seen.controller.None? && m.Some? && seen.dialogs[m.value].isBot
    && FirstBot(seen, listed).Some? && !HasOperator(seen.dialogs)
  }

  /** The operation ends m's membership and leaves its entry, or pushes one for a bot that is gone. */
  predicate Strands(seen: ThreadState, s: ThreadState, op: Op, m: MemberId) {
    match op
    case Remove(req) => m == req.target && OnStack(s.stack, m) && !RemovalPops(seen, req, m)
    case Transfers(req, cleaned) =>
      FindContact(seen.dialogs, req.initiator) == Some(m) && OnStack(s.stack, m) && !TransferPops(seen, req, cleaned, m)
    case Ensure(to, listed) => EnsurePushes(seen, s, to, listed, m) && !IsMember(s, m)
    case _ => false
  }

  /** The operation takes m's entry off the stack. */
  predicate Unlists(seen: ThreadState, s: ThreadState, op: Op, m: MemberId) {
    match op
    case Remove(req) => RemovalPops(seen, req, m)
    case Transfers(req, cleaned) => TransferPops(seen, req, cleaned, m)
    case Complete(caller) => m == caller && OnStack(seen.stack, m) && seen.owner != Some(m)
    case Release => Top(seen.stack) == Some(m)
    case _ => false
  }

  // ----- the statements -----

  lemma PushedOnly(stack: seq<Entry>, e: Entry, m: MemberId)
    ensures OnStack(stack + [e], m) <==> OnStack(stack, m) || m == e.member
  {
    if OnStack(stack, m) {
      var i :| 0 <= i < |stack| && stack[i].member == m;
      assert (stack + [e])[i].member == m;
    }
    assert (stack + [e])[|stack|] == e;
  }

  lemma ActivateStrandsNobody(s: ThreadState, joined: MemberId, m: MemberId)
    requires IsMember(s, joined) && ActivateBot(s, joined).Ok?
    ensures Stranded(ActivateBot(s, joined).value, m) <==> Stranded(s, m)
  {
    var s1 := AdoptUntracked(s, joined).value;
    var t := ActivateBot(s, joined).value;
    if s1.stack != s.stack {
      PushedOnly(s.stack, s1.stack[|s.stack|], m);
    }
    PushedOnly(s1.stack, t.stack[|s1.stack|], m);
  }

  lemma PopStrandsNobody(s: ThreadState, popped: MemberId, reason: Reason, m: MemberId)
    requires OnStack(s.stack, popped)
    ensures Stranded(Pop(s, popped, reason).value.state, m) <==> Stranded(s, m) && m != popped
  {
    MinusMembers(s.stack, {popped});
  }

  lemma LeaveStrands(s: ThreadState, left: MemberId, m: MemberId)
    requires left < |s.dialogs|
    ensures
      Stranded(s.(dialogs := Leave(s.dialogs, left)), m)
      <==> Stranded(s, m) || (m == left && OnStack(s.stack, left))
  {
  }

  lemma CreateStrandsNobody(s: ThreadState, d: Dialog, m: MemberId)
    requires Core(s) && Create(s, d).Ok?
    ensures Stranded(Create(s, d).value, m) <==> Stranded(s, m)
  {
  }

  // ----- the operations -----

  lemma AddStrandsNobody(seen: ThreadState, s: ThreadState, req: AddRequest, hook: Hook, m: MemberId)
    requires Core(s) && AddMember(seen, s, req, hook).Ok?
    ensures Stranded(AddMember(seen, s, req, hook).value, m) <==> Stranded(s, m)
  {
    HookKeeps(s, req.contact, hook);
    var s1 := RunHook(s, req.contact, hook).value;
    var d := AddDialog(req);
    CreateStrandsNobody(s1, d, m);
    if req.isBot {
      ActivateStrandsNobody(Create(s1, d).value, |s1.dialogs|, m);
    }
  }

  lemma SwapControlStrands(s: ThreadState, joined: MemberId, left: MemberId, fromBot: bool, toBot: bool, role: Role,
      cleaned: bool, m: MemberId)
    requires toBot ==> IsMember(s, joined)
    requires left < |s.dialogs| && !s.dialogs[left].live
    requires SwapControl(s, joined, left, fromBot, toBot, role, cleaned).Ok?
    ensures
      Stranded(SwapControl(s, joined, left, fromBot, toBot, role, cleaned).value, m)
      <==> Stranded(s, m) && !(m == left && fromBot && (toBot ==> cleaned))
  {
    if toBot {
      ActivateStrandsNobody(s, joined, m);
      var s1 := ActivateBot(s, joined).value;
      ActivateAges(s, joined);
      if OnStack(s1.stack, left) {
        PopStrandsNobody(s1, left, Transferred, m);
      }
    } else if fromBot {
      PopStrandsNobody(s, left, Handoff, m);
    }
  }

  lemma TransferStrands(seen: ThreadState, s: ThreadState, req: TransferRequest, cleaned: bool, m: MemberId)
    requires Core(s) && Older(seen, s) && Transfer(seen, s, req, cleaned).Ok?
    ensures
      Stranded(Transfer(seen, s, req, cleaned).value, m)
      <==> Strands(seen, s, Transfers(req, cleaned), m) || (Stranded(s, m) && !TransferPops(seen, req, cleaned, m))
  {
    var i := FindContact(seen.dialogs, req.initiator).value;
    var d := TransferDialog(seen, req);
    CreateStrandsNobody(s, d, m);
    LeaveStrands(Create(s, d).value, i, m);
    SwapDialogsKeeps(s, d, i);
    SwapControlStrands(SwapDialogs(s, d, i).value, |s.dialogs|, i, seen.dialogs[i].isBot, req.targetIsBot, req.role,
        cleaned, m);
  }

  lemma RemoveStrands(seen: ThreadState, s: ThreadState, req: RemoveRequest, m: MemberId)
    requires Core(s) && Older(seen, s) && RemoveMember(seen, s, req).Ok?
    ensures
      Stranded(RemoveMember(seen, s, req).value, m)
      <==> Strands(seen, s, Remove(req), m) || (Stranded(s, m) && !RemovalPops(seen, req, m))
  {
    if req.carriesBotFlags && seen.dialogs[req.target].isBot {
      PopStrandsNobody(s, req.target, Removed, m);
      MinusMembers(s.stack, {req.target});
      LeaveStrands(Pop(s, req.target, Removed).value.state, req.target, m);
    } else {
      LeaveStrands(s, req.target, m);
    }
  }

  lemma EnsureStrands(seen: ThreadState, s: ThreadState, to: ContactId, listed: seq<MemberId>, m: MemberId)
    requires Core(s)
    ensures
      Stranded(EnsureDirectThread(seen, s, s, to, listed).value, m)
      <==> Strands(seen, s, Ensure(to, listed), m) || Stranded(s, m)
  {
    if Ensures(seen, to, listed) && s.stack == [] {
      var bot := FirstBot(seen, listed).value;
      PushedOnly(s.stack, Entry(bot, 0), m);
    }
  }

  lemma CompleteStrandsNobody(seen: ThreadState, s: ThreadState, caller: MemberId, m: MemberId)
    requires CompleteBotControl(seen, s, caller).Ok?
    ensures
      Stranded(CompleteBotControl(seen, s, caller).value, m)
      <==> Stranded(s, m) && !(m == caller && OnStack(seen.stack, m) && seen.owner != Some(m))
  {
    if OnStack(s.stack, caller) {
      PopStrandsNobody(s, caller, Completed, m);
    }
  }

  lemma ReleaseStrandsNobody(seen: ThreadState, s: ThreadState, m: MemberId)
    requires ReleaseBotControl(seen, s).Ok?
    ensures Stranded(ReleaseBotControl(seen, s).value, m) <==> Stranded(s, m) && Top(seen.stack) != Some(m)
  {
    if seen.stack != [] {
      PopStrandsNobody(s, seen.stack[|seen.stack| - 1].member, ClientLeave, m);
    }
  }

  lemma PermitStrandsNobody(seen: ThreadState, s: ThreadState, req: PermitRequest, m: MemberId)
    requires UpdatePermissions(seen, s, req).Ok?
    ensures Stranded(UpdatePermissions(seen, s, req).value, m) <==> Stranded(s, m)
  {
  }

  /** After an operation, exactly these are stranded: whom it strands, and who was before unless it
      takes the entry off the stack. */
  lemma StepStrandsExactly(seen: ThreadState, s: ThreadState, op: Op, m: MemberId)
    requires Core(s) && Older(seen, s) && Attempt(seen, s, op).Ok?
    ensures
      Stranded(Commit(seen, s, op), m)
      <==> Strands(seen, s, op, m) || (Stranded(s, m) && !Unlists(seen, s, op, m))
  {
    match op
    case Add(req) => AddStrandsNobody(seen, s, req, NoHook, m);
    case Transfers(req, cleaned) => TransferStrands(seen, s, req, cleaned, m);
    case Remove(req) => RemoveStrands(seen, s, req, m);
    case Complete(caller) => CompleteStrandsNobody(seen, s, caller, m);
    case Release => ReleaseStrandsNobody(seen, s, m);
    case Ensure(to, listed) => EnsureStrands(seen, s, to, listed, m);
    case Upgrade(c, i, role, isBot, now) =>
      AddStrandsNobody(seen, s, UpgradeRequest(c, i, role, isBot, now), ClosePreview(now), m);
    case Permit(req) => PermitStrandsNobody(seen, s, req, m);
    case _ =>
  }

  // ----- one caller after the other -----

  /** A transfer loses the initiator's entry unless its removal, when one is needed, fails. */
  predicate CleanTransfer(s: ThreadState, req: TransferRequest, cleaned: bool) {
    var i := FindContact(s.dialogs, req.initiator);
    cleaned || !req.targetIsBot || i.None? || !OnStack(s.stack, i.value)
  }

  /** A removal whose lookup does not carry the bot columns leaves a stacked bot's entry behind. */
  predicate SoundRemove(s: ThreadState, req: RemoveRequest) {
    req.carriesBotFlags || !OnStack(s.stack, req.target)
  }

  /** The guard under which an operation keeps the invariant. */
  predicate Sound(s: ThreadState, op: Op) {
    match op
    case Remove(req) => SoundRemove(s, req)
    case Transfers(req, cleaned) => CleanTransfer(s, req, cleaned)
    case _ => true
  }

  lemma OlderThanItself(s: ThreadState)
    ensures Older(s, s)
  {
  }

  lemma SoundStrandsNobody(s: ThreadState, op: Op)
    requires Core(s) && Reads(s, op) && Apply(s, op).Ok?
    ensures Sound(s, op) <==> forall m :: !Strands(s, s, op, m)
  {
    if op.Remove? && !SoundRemove(s, op.remove) {
      assert Strands(s, s, op, op.remove.target);
    }
    if op.Transfers? && !CleanTransfer(s, op.transfer, op.cleaned) {
      assert Strands(s, s, op, FindContact(s.dialogs, op.transfer.initiator).value);
    }
  }

  /** Every operation but two keeps the invariant outright; a removal and a transfer keep it
      exactly under their guard. */
  lemma StepKeepsInvIff(s: ThreadState, op: Op)
    requires Inv(s) && Reads(s, op) && Apply(s, op).Ok?
    ensures Inv(Apply(s, op).value) <==> Sound(s, op)
  {
    var t := Apply(s, op).value;
    OlderThanItself(s);
    StepKeepsCore(s, s, op);
    NobodyIsStranded(s);
    NobodyIsStranded(t);
    SoundStrandsNobody(s, op);
    forall m
      ensures Stranded(t, m) <==> Strands(s, s, op, m)
    {
      StepStrandsExactly(s, s, op, m);
    }
  }

  lemma RemoveKeepsIff(s: ThreadState, req: RemoveRequest)
    requires Inv(s) && RemoveMember(s, s, req).Ok?
    ensures Inv(RemoveMember(s, s, req).value) <==> SoundRemove(s, req)
  {
    StepKeepsInvIff(s, Remove(req));
  }

  lemma TransferToBotKeepsIff(s: ThreadState, req: TransferRequest, cleaned: bool)
    requires Inv(s) && req.targetIsBot && Transfer(s, s, req, cleaned).Ok?
    ensures Inv(Transfer(s, s, req, cleaned).value) <==> CleanTransfer(s, req, cleaned)
  {
    StepKeepsInvIff(s, Transfers(req, cleaned));
  }

  lemma TransferToHumanKeeps(s: ThreadState, req: TransferRequest, cleaned: bool)
    requires Inv(s) && !req.targetIsBot && Transfer(s, s, req, cleaned).Ok?
    ensures Inv(Transfer(s, s, req, cleaned).value)
  {
    StepKeepsInvIff(s, Transfers(req, cleaned));
  }

  ghost predicate SoundRun(s: ThreadState, ops: seq<Op>)
    decreases |ops|
  {
    ops != [] ==> Reads(s, ops[0]) && Sound(s, ops[0]) && SoundRun(Step(s, ops[0]), ops[1..])
  }

  /** A run whose removals and transfers meet their guards strands nobody. */
  lemma {:induction false} RunKeepsInv(s: ThreadState, ops: seq<Op>)
    requires Inv(s) && SoundRun(s, ops)
    ensures Inv(Run(s, ops))
    decreases |ops|
  {
    if ops != [] {
      if Apply(s, ops[0]).Ok? {
        StepKeepsInvIff(s, ops[0]);
      }
      RunKeepsInv(Step(s, ops[0]), ops[1..]);
    }
  }

  // ----- any history -----

  /** Call i of a history strands m. */
  predicate StrandedBy(s: ThreadState, calls: seq<Call>, i: nat, m: MemberId)
    requires Timely(calls) && i < |calls|
  {
    var h := History(s, calls);
    && Attempt(h[calls[i].checked], h[i], calls[i].op).Ok?
    && Strands(h[calls[i].checked], h[i], calls[i].op, m)
  }

  /** Whoever is stranded at the end of any history was stranded before it, or by one of its calls. */
  lemma {:induction false} StrandedBySomeCall(s: ThreadState, calls: seq<Call>, m: MemberId) returns (i: nat)
    requires Core(s) && Timely(calls) && !Stranded(s, m) && Stranded(Last(History(s, calls)), m)
    ensures i < |calls| && StrandedBy(s, calls, i, m)
    decreases |calls|
  {
    var n := |calls| - 1;
    BeforeLast(s, calls);
    var h, earlier := History(s, calls), History(s, calls[..n]);
    HistoryKeepsCore(s, calls);
    HistoryAges(s, calls);
    if Stranded(h[n], m) {
      i := StrandedBySomeCall(s, calls[..n], m);
      assert h[i] == earlier[i] && h[calls[i].checked] == earlier[calls[i].checked];
    } else {
      i := n;
      StepStrandsExactly(h[calls[n].checked], h[n], calls[n].op, m);
    }
  }

  // ----- a new thread -----

  /** The two peers' dialogs, before any bot control. */
  function TwoPeers(from: ContactId, to: ContactId, toIsBot: bool, botContacts: set<ContactId>,
      began: int): (s: ThreadState) {
    ThreadState([Dialog(from, Owner, P.FULL, false, false, true, began),
        Dialog(to, Owner, P.FULL, toIsBot, false, true, began)],
                [], None, None, [], [], botContacts)
  }

  lemma CreatedFromPeers(from: ContactId, to: ContactId, toIsBot: bool, botContacts: set<ContactId>, began: int)
    requires from != to
    ensures
      var s := TwoPeers(from, to, toIsBot, botContacts, began);
      CreateDirectThread(from, to, toIsBot, botContacts, began) ==
      if toIsBot then Ok(PublishGranted(Push(s, 1).value, 1, None, 0, Initial, false)) else Ok(s)
  {
    var one := [Dialog(from, Owner, P.FULL, false, false, true, began)];
    assert one[..0] == [];
    assert FindContact(one, to).None?;
    assert one + [Dialog(to, Owner, P.FULL, toIsBot, false, true, began)]
        == TwoPeers(from, to, toIsBot, botContacts, began).dialogs;
  }

  /** A thread starts fit. */
  lemma CreatedFits(from: ContactId, to: ContactId, toIsBot: bool, botContacts: set<ContactId>, began: int)
    requires from != to
    ensures CreateDirectThread(from, to, toIsBot, botContacts, began).Ok?
    ensures Inv(CreateDirectThread(from, to, toIsBot, botContacts, began).value)
    ensures toIsBot ==> CreateDirectThread(from, to, toIsBot, botContacts, began).value.owner == Some(1)
    ensures toIsBot ==> CreateDirectThread(from, to, toIsBot, botContacts, began).value.controller == Some(1)
  {
    CreatedFromPeers(from, to, toIsBot, botContacts, began);
    var s := TwoPeers(from, to, toIsBot, botContacts, began);
    if toIsBot {
      assert Settling(s, {} + {1});
      PushKeeps(s, 1, {});
      assert BotOffStack(s.dialogs, s.stack, 1);
      FirstPushMakesTheOwnerIff(s, 1);
      OutboxIsFree(Push(s, 1).value, CreateDirectThread(from, to, toIsBot, botContacts, began).value);
    }
  }

  /** The shipped lookup of a removal selects neither bot column: removing the bot of any fresh
      thread through it leaves a dead dialog on the stack that still holds control. */
  lemma ShippedRemovalStrandsTheBot(from: ContactId, to: ContactId, botContacts: set<ContactId>, began: int)
    requires from != to
    ensures
      var s := CreateDirectThread(from, to, true, botContacts, began).value;
      var op := Remove(RemoveRequest(1, None, true, false));
      Apply(s, op).Ok? && Stranded(Step(s, op), 1) && !Inv(Step(s, op)) && Step(s, op).controller == Some(1)
  {
    var s := CreateDirectThread(from, to, true, botContacts, began).value;
    CreatedFromPeers(from, to, true, botContacts, began);
    assert s.stack[0].member == 1;
    CreatedFits(from, to, true, botContacts, began);
    RemoveKeepsIff(s, RemoveRequest(1, None, true, false));
  }
}
