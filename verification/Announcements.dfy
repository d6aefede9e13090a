/** What the outbox tells its consumers about who holds control. */
module Announcements {
  import opened Wrappers
  import opened ThreadModel
  import opened BotControlStore
  import opened ThreadOps
  import opened ThreadMachine
  import opened ThreadInvariant
  import opened Histories
  import opened Strandings

  // ----- a release precedes every grant that names a previous holder -----

  predicate Linked(outbox: seq<Event>) {
    forall i :: 0 <= i < |outbox| && outbox[i].Granted? && outbox[i].previous.Some? ==>
      && 0 < i
      && outbox[i - 1] == Released(outbox[i].previous.value.member, outbox[i].previous.value.position,
                                   outbox[i].reason, Some(outbox[i].member))
  }

  lemma GrantStaysLinked(outbox: seq<Event>, m: MemberId, previous: Option<Entry>, position: nat, reason: Reason,
      resume: bool)
    requires Linked(outbox)
    ensures Linked(outbox + GrantEvents(m, previous, position, reason, resume))
  {
  }

  // ----- what a consumer believes -----

  function Hear(holder: Option<MemberId>, e: Event): (now: Option<MemberId>) {
    match e
    case Granted(m, _, _, _, _) => Some(m)
    case Released(m, _, _, _) => if holder == Some(m) then None else holder
  }

  /** The holder a consumer arrives at that hears every event in order. */
  function Replay(outbox: seq<Event>): (holder: Option<MemberId>) {
    if outbox == [] then None else Hear(Replay(outbox[..|outbox| - 1]), outbox[|outbox| - 1])
  }

  lemma ReplayNext(outbox: seq<Event>, e: Event)
    ensures Replay(outbox + [e]) == Hear(Replay(outbox), e)
  {
    assert (outbox + [e])[..|outbox|] == outbox;
  }

  lemma ReplayGrant(outbox: seq<Event>, m: MemberId, previous: Option<Entry>, position: nat, reason: Reason,
      resume: bool)
    ensures Replay(outbox + GrantEvents(m, previous, position, reason, resume)) == Some(m)
  {
    var events := GrantEvents(m, previous, position, reason, resume);
    var k := |events| - 1;
    assert outbox + events == outbox + events[..k] + [events[k]];
    ReplayNext(outbox + events[..k], events[k]);
  }

  /** The outbox tells the truth about the thread. */
  predicate Told(s: ThreadState) {
    Replay(s.outbox) == s.controller
  }

  /** t's outbox extends s's, and every grant it adds names t's controller. */
  predicate GrantsController(s: ThreadState, t: ThreadState) {
    && |s.outbox| <= |t.outbox| && t.outbox[..|s.outbox|] == s.outbox
    && forall i :: |s.outbox| <= i < |t.outbox| && t.outbox[i].Granted? ==> t.controller == Some(t.outbox[i].member)
  }

  // ----- one batch of events -----

  lemma AfterGrant(s: ThreadState, t: ThreadState, m: MemberId, previous: Option<Entry>, position: nat,
      reason: Reason, resume: bool)
    requires t.outbox == s.outbox + GrantEvents(m, previous, position, reason, resume)
    ensures Linked(s.outbox) ==> Linked(t.outbox)
    ensures Replay(t.outbox) == Some(m)
    ensures GrantsController(s, t) <==> t.controller == Some(m)
  {
    ReplayGrant(s.outbox, m, previous, position, reason, resume);
    if Linked(s.outbox) {
      GrantStaysLinked(s.outbox, m, previous, position, reason, resume);
    }
    assert t.outbox[|t.outbox| - 1] == Granted(m, position, reason, resume, previous);
  }

  lemma AfterRelease(s: ThreadState, t: ThreadState, m: MemberId, position: nat, reason: Reason, next: Option<MemberId>)
    requires t.outbox == s.outbox + [Released(m, position, reason, next)]
    ensures Linked(s.outbox) ==> Linked(t.outbox)
    ensures Replay(t.outbox) == if Replay(s.outbox) == Some(m) then None else Replay(s.outbox)
    ensures GrantsController(s, t)
  {
    ReplayNext(s.outbox, Released(m, position, reason, next));
  }

  /** From s to t the outbox stays linked and its new grants name the controller. */
  predicate Speaks(s: ThreadState, t: ThreadState) {
    (Linked(s.outbox) ==> Linked(t.outbox)) && GrantsController(s, t)
  }

  // ----- the operations -----

  lemma ActivateSpeaks(s: ThreadState, m: MemberId)
    requires ActivateBot(s, m).Ok?
    ensures Speaks(s, ActivateBot(s, m).value) && Told(ActivateBot(s, m).value)
    ensures ActivateBot(s, m).value.controller == Some(m)
    ensures ActivateBot(s, m).value.stack != [] && Top(ActivateBot(s, m).value.stack) == Some(m)
  {
    var s1 := AdoptUntracked(s, m).value;
    var previous := StackTop(s1.stack);
    AfterGrant(s, ActivateBot(s, m).value, m, previous, PositionAfterPush(previous), Transferred, false);
  }

  lemma ReleaseToAgentSpeaks(s: ThreadState)
    ensures Speaks(s, ReleaseToAgent(s))
    ensures Told(s) ==> Told(ReleaseToAgent(s))
  {
    if s.controller.Some? {
      AfterRelease(s, ReleaseToAgent(s), s.controller.value, 0, AgentTakeover, None);
    }
  }

  lemma RestoreAfterAgentSpeaks(s: ThreadState)
    ensures Speaks(s, RestoreAfterAgent(s))
    ensures Told(s) ==> Told(RestoreAfterAgent(s))
  {
    var r := RestoreController(s);
    if !HasOperator(s.dialogs) && r.granted {
      AfterGrant(s, RestoreAfterAgent(s), r.holder.value.member, None, r.holder.value.position, AgentLeft, true);
    }
  }

  lemma AddSpeaks(seen: ThreadState, s: ThreadState, req: AddRequest, hook: Hook)
    requires AddMember(seen, s, req, hook).Ok?
    ensures Speaks(s, AddMember(seen, s, req, hook).value)
    ensures Told(s) ==> Told(AddMember(seen, s, req, hook).value)
  {
    var s1 := RunHook(s, req.contact, hook).value;
    var d := AddDialog(req);
    var s2 := Create(s1, d).value;
    if req.isBot {
      ActivateSpeaks(s2, |s1.dialogs|);
    } else {
      ReleaseToAgentSpeaks(s2);
    }
  }

  lemma SwapControlSpeaks(s: ThreadState, joined: MemberId, left: MemberId, fromBot: bool, toBot: bool, role: Role,
      cleaned: bool)
    requires SwapControl(s, joined, left, fromBot, toBot, role, cleaned).Ok? && joined != left
    ensures Speaks(s, SwapControl(s, joined, left, fromBot, toBot, role, cleaned).value)
    ensures Told(s) ==>
      (Told(SwapControl(s, joined, left, fromBot, toBot, role, cleaned).value)
       <==> !(!toBot && fromBot && s.controller.Some?))
  {
    if toBot {
      ActivateSpeaks(s, joined);
      var s1 := ActivateBot(s, joined).value;
      if OnStack(s1.stack, left) {
        MinusTop(s1.stack, {left});
      }
    } else if !fromBot {
      ReleaseToAgentSpeaks(s);
    }
  }

  lemma TransferSpeaks(seen: ThreadState, s: ThreadState, req: TransferRequest, cleaned: bool)
    requires Older(seen, s) && Transfer(seen, s, req, cleaned).Ok?
    ensures Speaks(s, Transfer(seen, s, req, cleaned).value)
    ensures Told(s) ==> (Told(Transfer(seen, s, req, cleaned).value) <==> !SilentHandoff(seen, s, req))
  {
    var i := FindContact(seen.dialogs, req.initiator).value;
    SwapControlSpeaks(SwapDialogs(s, TransferDialog(seen, req), i).value, |s.dialogs|, i, seen.dialogs[i].isBot,
                      req.targetIsBot, req.role, cleaned);
  }

  lemma RemoveSpeaks(seen: ThreadState, s: ThreadState, req: RemoveRequest)
    requires RemoveMember(seen, s, req).Ok?
    ensures Speaks(s, RemoveMember(seen, s, req).value)
    ensures Core(s) && Told(s) ==> Told(RemoveMember(seen, s, req).value)
  {
    var m := req.target;
    if req.carriesBotFlags && seen.dialogs[m].isBot {
      var popped := Pop(s, m, Removed).value;
      PopReportsTheController(s, m, Removed);
      if popped.newTop.Some? {
        var top := popped.newTop.value;
        AfterGrant(s, RemoveMember(seen, s, req).value, top.member, Some(Entry(m, top.position + 1)), top.position,
            Removed, true);
      }
    } else {
      RestoreAfterAgentSpeaks(s.(dialogs := Leave(s.dialogs, m)));
    }
  }

  lemma CompleteSpeaks(seen: ThreadState, s: ThreadState, m: MemberId)
    requires CompleteBotControl(seen, s, m).Ok?
    ensures Speaks(s, CompleteBotControl(seen, s, m).value)
    ensures Told(s) ==> (Told(CompleteBotControl(seen, s, m).value) <==> !SilentCompletion(seen, s, m))
  {
    if OnStack(seen.stack, m) && seen.owner != Some(m) {
      var popped := Pop(s, m, Completed).value;
      PopReportsTheController(s, m, Completed);
      PopFallsBack(s, m);
      if Grants(seen, s, m) {
        var top := popped.newTop.value;
        AfterGrant(s, CompleteBotControl(seen, s, m).value, top.member, Some(Entry(m, PositionOf(seen.stack, m))),
                   top.position, Completed, true);
      }
    }
  }

  lemma ReleaseSpeaks(seen: ThreadState, s: ThreadState)
    requires ReleaseBotControl(seen, s).Ok?
    ensures Speaks(s, ReleaseBotControl(seen, s).value)
    ensures Core(s) && Told(s) ==> Told(ReleaseBotControl(seen, s).value)
  {
    var t := ReleaseBotControl(seen, s).value;
    if seen.stack == [] {
      if s.controller.Some? {
        AfterRelease(s, t, s.controller.value, 0, ClientLeave, None);
      }
    } else {
      var active := seen.stack[|seen.stack| - 1];
      PopReportsTheController(s, active.member, ClientLeave);
      var popped := Pop(s, active.member, ClientLeave).value;
      if popped.newTop.None? {
        EmptiedByItsTop(s.stack, active.member);
      }
      var next := if popped.newTop.Some? then Some(popped.newTop.value.member) else None;
      var s1 := PublishReleased(popped.state, active.member, active.position, ClientLeave, next);
      AfterRelease(s, s1, active.member, active.position, ClientLeave, next);
      if popped.newTop.Some? {
        var top := popped.newTop.value;
        AfterGrant(s1, t, top.member, Some(active), top.position, ClientLeave, true);
      }
    }
  }

  lemma HandBackSpeaks(seen: ThreadState, s: ThreadState, c: ContactId)
    requires HandBackToBot(seen, s, c).Ok?
    ensures Speaks(s, HandBackToBot(seen, s, c).value) && Told(HandBackToBot(seen, s, c).value)
  {
    var r := RestoreController(s);
    AfterGrant(s, HandBackToBot(seen, s, c).value, r.holder.value.member, None, r.holder.value.position,
        AgentHandback, true);
  }

  lemma EnsureSpeaks(seen: ThreadState, s: ThreadState, to: ContactId, listed: seq<MemberId>)
    ensures Linked(s.outbox) ==> Linked(EnsureDirectThread(seen, s, s, to, listed).value.outbox)
    ensures GrantsController(s, EnsureDirectThread(seen, s, s, to, listed).value) <==> !WrongGrant(seen, s, to, listed)
    ensures Told(s) ==> (Told(EnsureDirectThread(seen, s, s, to, listed).value) <==> !WrongGrant(seen, s, to, listed))
  {
    if Ensures(seen, to, listed) && EnsureBotControl(seen, s, s, listed).Ok? {
      AfterGrant(s, EnsureDirectThread(seen, s, s, to, listed).value, FirstBot(seen, listed).value, None, 0, Initial,
          false);
    }
  }

  // ----- when the outbox does not tell -----

  /** A bot that held or shared the thread hands it to a human: control is cleared without a word. */
  predicate SilentHandoff(seen: ThreadState, s: ThreadState, req: TransferRequest) {
    var i := FindContact(seen.dialogs, req.initiator);
    !req.targetIsBot && i.Some? && seen.dialogs[i.value].isBot && s.controller.Some?
  }

  /** A completion publishes a grant: its caller was seen on top, and control falls to somebody
      other than the owner. */
  predicate Grants(seen: ThreadState, s: ThreadState, m: MemberId) {
    Top(seen.stack) == Some(m) && FallbackWithout(s, m).Some? && FallbackWithout(s, m) != seen.owner
  }

  /** A completion that moves control without an event: below the top it hands control to the top
      if the top did not hold it, and on top it falls back to the owner. */
  predicate SilentCompletion(seen: ThreadState, s: ThreadState, m: MemberId) {
    && OnStack(seen.stack, m) && seen.owner != Some(m)
    && !Grants(seen, s, m) && FallbackWithout(s, m) != s.controller
  }

  // ----- a completion that is overtaken -----

  /** A caller that was on top when it looked and is not when it is popped grants control to the
      bot on top, which has it. */
  lemma OvertakenCompletionGrantsTheTop(seen: ThreadState, s: ThreadState, m: MemberId)
    requires Top(seen.stack) == Some(m) && seen.owner != Some(m)
    requires OnStack(s.stack, m) && Top(s.stack) != Some(m) && Top(s.stack) != seen.owner
    ensures CompleteBotControl(seen, s, m).Ok?
    ensures
      var t := CompleteBotControl(seen, s, m).value;
      && t.controller == Top(s.stack)
      && t.outbox == s.outbox + GrantEvents(Top(s.stack).value, Some(Entry(m, PositionOf(seen.stack, m))),
                                            s.stack[|s.stack| - 1].position, Completed, true)
  {
    assert OnStack(seen.stack, seen.stack[|seen.stack| - 1].member);
    MinusTop(s.stack, {m});
  }

  /** What the caller saw matters exactly if it was on top then and is not now, or the other way
      round, and control falls to somebody other than the owner. */
  lemma OvertakenCompletionDiffersIff(seen: ThreadState, s: ThreadState, m: MemberId)
    requires OnStack(seen.stack, m) && OnStack(s.stack, m) && seen.owner == s.owner
    requires PositionOf(seen.stack, m) == PositionOf(s.stack, m)
    ensures CompleteBotControl(seen, s, m) != CompleteBotControl(s, s, m)
       <==> && s.owner != Some(m) && (Top(seen.stack) == Some(m) <==> Top(s.stack) != Some(m))
            && FallbackWithout(s, m).Some? && FallbackWithout(s, m) != s.owner
  {
    if s.owner != Some(m) {
      var popped := Pop(s, m, Completed).value;
      PopReportsTheController(s, m, Completed);
      PopFallsBack(s, m);
      if FallbackWithout(s, m).Some? {
        var top := popped.newTop.value;
        GrantsAreNews(popped.state, top.member, Some(Entry(m, PositionOf(s.stack, m))), top.position, Completed, true);
      }
    }
  }

  lemma GrantsAreNews(s: ThreadState, m: MemberId, previous: Option<Entry>, position: nat, reason: Reason, resume: bool)
    ensures PublishGranted(s, m, previous, position, reason, resume) != s
  {
    assert |PublishGranted(s, m, previous, position, reason, resume).outbox| > |s.outbox|;
  }

  /** The retroactive grant re-points control at the stack top but grants the first bot listed. */
  predicate WrongGrant(seen: ThreadState, s: ThreadState, to: ContactId, listed: seq<MemberId>) {
    Ensures(seen, to, listed) && s.stack != [] && Top(s.stack) != FirstBot(seen, listed)
  }

  predicate Silent(seen: ThreadState, s: ThreadState, op: Op) {
    match op
    case Transfers(req, _) => SilentHandoff(seen, s, req)
    case Complete(m) => SilentCompletion(seen, s, m)
    case Ensure(to, listed) => WrongGrant(seen, s, to, listed)
    case _ => false
  }

  predicate Misnames(seen: ThreadState, s: ThreadState, op: Op) {
    op.Ensure? && WrongGrant(seen, s, op.to, op.listed)
  }

  /** Every grant an operation publishes names the controller it commits, except for one branch. */
  lemma GrantsNameTheController(seen: ThreadState, s: ThreadState, op: Op)
    requires Older(seen, s)
    ensures GrantsController(s, Commit(seen, s, op)) <==> !Misnames(seen, s, op)
  {
    if Attempt(seen, s, op).Ok? {
      OpSpeaks(seen, s, op);
    }
  }

  /** A consumer that knew who holds control still knows it after an operation, exactly unless the
      operation is one of the silent ones. */
  lemma TellsIffNotSilent(seen: ThreadState, s: ThreadState, op: Op)
    requires Core(s) && Older(seen, s) && Told(s) && Attempt(seen, s, op).Ok?
    ensures Told(Commit(seen, s, op)) <==> !Silent(seen, s, op)
  {
    OpSpeaks(seen, s, op);
  }

  lemma OpSpeaks(seen: ThreadState, s: ThreadState, op: Op)
    requires Older(seen, s) && Attempt(seen, s, op).Ok?
    ensures Linked(s.outbox) ==> Linked(Commit(seen, s, op).outbox)
    ensures GrantsController(s, Commit(seen, s, op)) <==> !Misnames(seen, s, op)
    ensures Core(s) && Told(s) ==> (Told(Commit(seen, s, op)) <==> !Silent(seen, s, op))
  {
    match op
    case Add(req) => AddSpeaks(seen, s, req, NoHook);
    case Transfers(req, cleaned) => TransferSpeaks(seen, s, req, cleaned);
    case Remove(req) => RemoveSpeaks(seen, s, req);
    case Complete(m) => CompleteSpeaks(seen, s, m);
    case Release => ReleaseSpeaks(seen, s);
    case HandBack(c) => HandBackSpeaks(seen, s, c);
    case TakeOver(_) => ReleaseToAgentSpeaks(s);
    case Ensure(to, listed) => EnsureSpeaks(seen, s, to, listed);
    case Give(_, _, _) =>
    case Withdraw(_, _) =>
    case Upgrade(c, i, role, isBot, now) =>
      AddSpeaks(seen, s, UpgradeRequest(c, i, role, isBot, now), ClosePreview(now));
    case Permit(_) =>
  }

  /** In every outbox a history produces, a grant that names a previous holder directly follows that
      holder's release, for the same reason and naming the granted member as next. */
  lemma {:induction false} HistoryStaysLinked(s: ThreadState, calls: seq<Call>)
    requires Linked(s.outbox) && Timely(calls)
    ensures Linked(Last(History(s, calls)).outbox)
    decreases |calls|
  {
    if calls != [] {
      var n := |calls| - 1;
      BeforeLast(s, calls);
      HistoryStaysLinked(s, calls[..n]);
      HistoryAges(s, calls);
      var h := History(s, calls);
      if Attempt(h[calls[n].checked], h[n], calls[n].op).Ok? {
        OpSpeaks(h[calls[n].checked], h[n], calls[n].op);
      }
    }
  }

  predicate NeverSilent(s: ThreadState, calls: seq<Call>)
    requires Timely(calls)
  {
    forall i :: 0 <= i < |calls| ==> !SilentCall(s, calls, i)
  }

  predicate SilentCall(s: ThreadState, calls: seq<Call>, i: nat)
    requires Timely(calls) && i < |calls|
  {
    var h := History(s, calls);
    && Attempt(h[calls[i].checked], h[i], calls[i].op).Ok?
    && Silent(h[calls[i].checked], h[i], calls[i].op)
  }

  lemma SilentEarlier(s: ThreadState, calls: seq<Call>)
    requires Timely(calls) && calls != [] && NeverSilent(s, calls)
    ensures Timely(calls[..|calls| - 1]) && NeverSilent(s, calls[..|calls| - 1])
  {
    var n := |calls| - 1;
    BeforeLast(s, calls);
    forall i | 0 <= i < n
      ensures !SilentCall(s, calls[..n], i)
    {
      assert !SilentCall(s, calls, i);
      assert calls[..n][i] == calls[i];
    }
  }

  /** Replaying the outbox of a whole history without a silent step yields the thread's controller. */
  lemma {:induction false} HistoryTellsTheController(s: ThreadState, calls: seq<Call>)
    requires Core(s) && Told(s) && Timely(calls) && NeverSilent(s, calls)
    ensures Told(Last(History(s, calls)))
    decreases |calls|
  {
    if calls != [] {
      var n := |calls| - 1;
      BeforeLast(s, calls);
      SilentEarlier(s, calls);
      HistoryTellsTheController(s, calls[..n]);
      HistoryAges(s, calls);
      HistoryKeepsCore(s, calls);
      var h := History(s, calls);
      assert !SilentCall(s, calls, n);
      if Attempt(h[calls[n].checked], h[n], calls[n].op).Ok? {
        TellsIffNotSilent(h[calls[n].checked], h[n], calls[n].op);
      }
    }
  }

  /** A fresh thread's outbox is linked and tells its controller. */
  lemma CreatedTells(from: ContactId, to: ContactId, toIsBot: bool, botContacts: set<ContactId>, began: int)
    requires from != to
    ensures CreateDirectThread(from, to, toIsBot, botContacts, began).Ok?
    ensures Told(CreateDirectThread(from, to, toIsBot, botContacts, began).value)
    ensures Linked(CreateDirectThread(from, to, toIsBot, botContacts, began).value.outbox)
  {
    CreatedFits(from, to, toIsBot, botContacts, began);
    if toIsBot {
      ReplayGrant([], 1, None, 0, Initial, false);
    }
  }
}
