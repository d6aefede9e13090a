/** Short runs from a new direct thread into each of the cases in which the service does something
    other than its documentation says. Contact 0 opens the thread, contact 1 is its bot. */
module Witnesses {
  import opened Wrappers
  import opened ThreadModel
  import opened BotControlStore
  import opened ThreadOps
  import opened ThreadMachine
  import opened ThreadInvariant
  import opened Histories
  import opened Strandings
  import opened Announcements
  import opened OperatorControl

  // ----- the steps the runs are made of -----

  function JoinBot(c: ContactId, role: Role): (op: Op) {
    Add(AddRequest(c, None, role, true, None, true, true, 0))
  }

  /** A join whose contact is not known for a bot, in a transaction that began at the given time. */
  function JoinUnmarked(c: ContactId, began: int): (op: Op) {
    Add(AddRequest(c, None, Member, false, None, true, true, began))
  }

  function JoinLate(c: ContactId, began: int): (op: Op) {
    Add(AddRequest(c, None, Member, true, None, true, true, began))
  }

  /** A verified join of a person. */
  function Invite(inviter: ContactId, c: ContactId, role: Role): (op: Op) {
    Add(AddRequest(c, Some(inviter), role, false, None, false, true, 0))
  }

  function JoinOperator(c: ContactId): (op: Op) {
    Add(AddRequest(c, None, Member, false, None, true, true, 0))
  }

  /** Hands the thread over to a person. */
  function HandOff(from: ContactId, to: ContactId, role: Role): (op: Op) {
    Transfers(TransferRequest(to, from, role, false, None, true, 0), true)
  }

  /** A fit thread whose outbox tells who holds control. */
  ghost predicate Sane(s: ThreadState) {
    Core(s) && Told(s)
  }

  lemma StaysSane(s: ThreadState, op: Op)
    requires Sane(s) && !Silent(s, s, op)
    ensures Sane(Step(s, op))
  {
    OlderThanItself(s);
    StepKeepsCore(s, s, op);
    if Apply(s, op).Ok? {
      TellsIffNotSilent(s, s, op);
    }
  }

  lemma FoundAt(dialogs: seq<Dialog>, m: MemberId)
    requires OneDialogPerContact(dialogs) && m < |dialogs| && dialogs[m].live
    ensures FindContact(dialogs, dialogs[m].contact) == Some(m)
  {
  }

  /** A thread that contact 0 has just opened with the bot of contact 1. */
  ghost predicate Opened(s: ThreadState) {
    && Sane(s) && s.stack == [Entry(1, 0)] && s.controller == Some(1) && s.owner == Some(1)
    && s.dialogs == [Dialog(0, Owner, P.FULL, false, false, true, 0), Dialog(1, Owner, P.FULL, true, false, true, 0)]
  }

  lemma OpenThread() returns (s: ThreadState)
    ensures CreateDirectThread(0, 1, true, {}, 0) == Ok(s) && Opened(s)
  {
    CreatedFits(0, 1, true, {}, 0);
    CreatedFromPeers(0, 1, true, {}, 0);
    CreatedTells(0, 1, true, {}, 0);
    s := CreateDirectThread(0, 1, true, {}, 0).value;
  }

  lemma BotJoins(s: ThreadState, c: ContactId, role: Role)
    requires Sane(s) && s.owner.Some? && s.stack != [] && role != Unspecified && !HasContact(s, c)
    ensures
      var t := Step(s, JoinBot(c, role));
      && Sane(t) && t.dialogs == s.dialogs + [Dialog(c, role, P.DefaultByRole(role).value, true, true, true, 0)]
      && t.stack == s.stack + [Entry(|s.dialogs|, NextPosition(s.stack))]
      && t.controller == Some(|s.dialogs|) && t.owner == s.owner
  {
    StaysSane(s, JoinBot(c, role));
    assert FindContact(s.dialogs, c).None?;
  }

  lemma OperatorJoins(s: ThreadState, c: ContactId)
    requires Sane(s) && !HasContact(s, c)
    ensures
      var t := Step(s, JoinOperator(c));
      && Sane(t) && t.dialogs == s.dialogs + [Dialog(c, Member, P.REGULAR, false, false, true, 0)]
      && t.stack == s.stack && t.controller == None && t.owner == s.owner
  {
    StaysSane(s, JoinOperator(c));
    assert FindContact(s.dialogs, c).None?;
  }

  lemma BotHandsOff(s: ThreadState, m: MemberId, to: ContactId, role: Role)
    requires Core(s) && IsMember(s, m) && s.dialogs[m].isBot && OnStack(s.stack, m) && !HasContact(s, to)
    requires s.dialogs[m].perms == P.FULL && Unspecified != role && Rank(role) <= Rank(s.dialogs[m].role)
        && s.dialogs[m].contact != to
    ensures
      var op := HandOff(s.dialogs[m].contact, to, role);
      && Apply(s, op).Ok? && Core(Step(s, op))
      && |Step(s, op).dialogs| == |s.dialogs| + 1
      && (forall k :: 0 <= k < |s.dialogs| ==>
            Step(s, op).dialogs[k] == if k == m then s.dialogs[m].(live := false) else s.dialogs[k])
      && Step(s, op).dialogs[|s.dialogs|].(perms := P.FULL) == Dialog(to, role, P.FULL, false, false, true, 0)
      && Step(s, op).stack == Minus(s.stack, {m}) && Step(s, op).controller == None && Step(s, op).owner == s.owner
      && (s.controller.Some? ==> Silent(s, s, op))
  {
    FoundAt(s.dialogs, m);
    assert FindContact(s.dialogs, to).None?;
    OlderThanItself(s);
    StepKeepsCore(s, s, HandOff(s.dialogs[m].contact, to, role));
  }

  /** Three bots on the stack, the last two of one role. */
  ghost predicate ThreeBots(s: ThreadState, role: Role) {
    && Sane(s) && s.stack == [Entry(1, 0), Entry(2, 1), Entry(3, 2)] && s.controller == Some(3) && s.owner == Some(1)
    && s.dialogs == [Dialog(0, Owner, P.FULL, false, false, true, 0), Dialog(1, Owner, P.FULL, true, false, true, 0),
                     Dialog(2, role, P.FULL, true, true, true, 0), Dialog(3, role, P.FULL, true, true, true, 0)]
  }

  lemma SecondBotJoins(s: ThreadState, role: Role) returns (t: ThreadState)
    requires Opened(s) && (role == Owner || role == Admin)
    ensures t == Step(s, JoinBot(2, role)) && Sane(t)
    ensures t.dialogs == s.dialogs + [Dialog(2, role, P.FULL, true, true, true, 0)]
    ensures t.stack == [Entry(1, 0), Entry(2, 1)] && t.controller == Some(2) && t.owner == Some(1)
  {
    BotJoins(s, 2, role);
    t := Step(s, JoinBot(2, role));
  }

  lemma ThirdBotJoins(s: ThreadState, role: Role) returns (t: ThreadState)
    requires Sane(s) && s.stack == [Entry(1, 0), Entry(2, 1)] && s.owner == Some(1) && (role == Owner || role == Admin)
    requires s.dialogs == [Dialog(0, Owner, P.FULL, false, false, true, 0),
        Dialog(1, Owner, P.FULL, true, false, true, 0),
                           Dialog(2, role, P.FULL, true, true, true, 0)]
    ensures t == Step(s, JoinBot(3, role)) && ThreeBots(t, role)
  {
    BotJoins(s, 3, role);
    t := Step(s, JoinBot(3, role));
  }

  lemma OpenWithThreeBots(role: Role) returns (s: ThreadState, t: ThreadState)
    requires role == Owner || role == Admin
    ensures CreateDirectThread(0, 1, true, {}, 0) == Ok(s)
    ensures t == Run(s, [JoinBot(2, role), JoinBot(3, role)]) && ThreeBots(t, role)
  {
    s := OpenThread();
    var s1 := SecondBotJoins(s, role);
    t := ThirdBotJoins(s1, role);
    RunOfTwo(s, JoinBot(2, role), JoinBot(3, role));
  }

  // ----- the cases -----

  lemma RemoveBelowTheTop(s: ThreadState) returns (t: ThreadState)
    requires ThreeBots(s, Admin)
    ensures t == Step(s, Remove(RemoveRequest(2, None, true, false))) && Core(t)
    ensures t.stack == s.stack && t.controller == Some(3) && t.owner == Some(1) && !IsMember(t, 2)
  {
    var op := Remove(RemoveRequest(2, None, true, false));
    StaysSane(s, op);
    t := Step(s, op);
  }

  lemma CompleteOverTheRemoved(s: ThreadState)
    requires Core(s) && s.stack == [Entry(1, 0), Entry(2, 1), Entry(3, 2)] && s.controller == Some(3)
    requires s.owner == Some(1) && !IsMember(s, 2)
    ensures Step(s, Complete(3)).controller == Some(2) && !GrantsLiveBots(s, Step(s, Complete(3)))
  {
    MinusTopEntry(s.stack);
    assert s.stack[2].member == 3 && s.stack[..2][1].member == 2;
    OlderThanItself(s);
    CompletionGrantsLiveBotsIff(s, s, 3);
  }

  /** A bot that the shipped lookup let be removed from below the top is granted control when the top completes. */
  lemma RemovedBotIsGranted() returns (s: ThreadState, t: ThreadState, u: ThreadState)
    ensures CreateDirectThread(0, 1, true, {}, 0) == Ok(s)
    ensures t == Step(Run(s, [JoinBot(2, Admin), JoinBot(3, Admin)]), Remove(RemoveRequest(2, None, true, false)))
    ensures u == Step(t, Complete(3))
    ensures !IsMember(t, 2) && t.owner == Some(1) && u.controller == Some(2) && !GrantsLiveBots(t, u)
  {
    var s1;
    s, s1 := OpenWithThreeBots(Admin);
    t := RemoveBelowTheTop(s1);
    CompleteOverTheRemoved(t);
    u := Step(t, Complete(3));
  }

  /** A bot's handover to a person clears control, and nobody is told. */
  lemma HandoffIsSilent() returns (s: ThreadState, t: ThreadState)
    ensures CreateDirectThread(0, 1, true, {}, 0) == Ok(s) && t == Step(s, HandOff(1, 2, Member))
    ensures Told(s) && t.controller == None && !Told(t)
  {
    s := OpenThread();
    assert s.stack[0].member == 1;
    BotHandsOff(s, 1, 2, Member);
    OlderThanItself(s);
    TellsIffNotSilent(s, s, HandOff(1, 2, Member));
    t := Step(s, HandOff(1, 2, Member));
  }

  /** And a later hand back grants control to the bot that has left: the owner column still names it. */
  lemma DepartedOwnerIsGranted() returns (s: ThreadState, t: ThreadState, u: ThreadState)
    ensures CreateDirectThread(0, 1, true, {}, 0) == Ok(s)
    ensures t == Step(s, HandOff(1, 2, Member)) && u == Step(t, HandBack(2))
    ensures !IsMember(t, 1) && t.owner == Some(1) && u.controller == Some(1) && !GrantsLiveBots(t, u)
  {
    s := OpenThread();
    t := OwnerLeaves(s);
    HandBackToTheDeparted(t);
    u := Step(t, HandBack(2));
  }

  lemma OwnerLeaves(s: ThreadState) returns (t: ThreadState)
    requires Opened(s)
    ensures t == Step(s, HandOff(1, 2, Member)) && Core(t) && |t.dialogs| == 3
    ensures t.stack == [] && t.controller == None && t.owner == Some(1) && !IsMember(t, 1)
    ensures IsMember(t, 2) && t.dialogs[2].contact == 2 && IsOperator(t.dialogs[2].isBot, t.dialogs[2].role)
  {
    assert s.stack[0].member == 1;
    BotHandsOff(s, 1, 2, Member);
    MinusTopEntry(s.stack);
    t := Step(s, HandOff(1, 2, Member));
  }

  lemma HandBackToTheDeparted(s: ThreadState)
    requires Core(s) && s.stack == [] && s.controller == None && s.owner == Some(1) && !IsMember(s, 1)
    requires IsMember(s, 2) && s.dialogs[2].contact == 2 && IsOperator(s.dialogs[2].isBot, s.dialogs[2].role)
    ensures Step(s, HandBack(2)).controller == Some(1) && !GrantsLiveBots(s, Step(s, HandBack(2)))
  {
    FoundAt(s.dialogs, 2);
    OlderThanItself(s);
    HandBackGrantsLiveBotsIff(s, s, 2);
  }

  lemma OwnerIsLeftOnTop(s: ThreadState)
    requires Sane(s) && s.stack == [Entry(1, 0), Entry(2, 1)] && s.owner == Some(1)
    ensures Step(s, Complete(2)).controller == Some(1) && !Told(Step(s, Complete(2)))
  {
    assert s.stack[1].member == 2 && s.stack[..1] == [Entry(1, 0)];
    MinusTopEntry(s.stack);
    OlderThanItself(s);
    TellsIffNotSilent(s, s, Complete(2));
  }

  /** The bot on top completes and the owner takes control back: nobody is told. */
  lemma FallToTheOwnerIsSilent() returns (s: ThreadState, t: ThreadState, u: ThreadState)
    ensures CreateDirectThread(0, 1, true, {}, 0) == Ok(s)
    ensures t == Step(s, JoinBot(2, Admin)) && u == Step(t, Complete(2))
    ensures Told(t) && t.controller == Some(2) && u.controller == Some(1) && !Told(u)
  {
    s := OpenThread();
    t := SecondBotJoins(s, Admin);
    OwnerIsLeftOnTop(t);
    u := Step(t, Complete(2));
  }

  lemma OperatorTakesThreeBots(s: ThreadState) returns (t: ThreadState)
    requires ThreeBots(s, Admin)
    ensures t == Step(s, JoinOperator(4)) && Sane(t) && t.stack == s.stack && t.controller == None && t.owner == Some(1)
  {
    OperatorJoins(s, 4);
    t := Step(s, JoinOperator(4));
  }

  lemma LowerBotCompletes(s: ThreadState)
    requires Sane(s) && s.stack == [Entry(1, 0), Entry(2, 1), Entry(3, 2)] && s.controller == None && s.owner == Some(1)
    ensures OnStack(s.stack, 2) && DocumentedController(s, 2) == None
    ensures Step(s, Complete(2)).controller == Some(3) && !Told(Step(s, Complete(2)))
  {
    assert s.stack[1].member == 2;
    MinusTop(s.stack, {2});
    OlderThanItself(s);
    TellsIffNotSilent(s, s, Complete(2));
  }

  /** A bot below the top completes while an operator holds the thread: the pop hands control to the
      top, where its documentation leaves it alone, and nobody is told. */
  lemma LowerCompletionEndsATakeOver() returns (s: ThreadState, t: ThreadState, u: ThreadState)
    ensures CreateDirectThread(0, 1, true, {}, 0) == Ok(s)
    ensures t == Step(Run(s, [JoinBot(2, Admin), JoinBot(3, Admin)]), JoinOperator(4)) && u == Step(t, Complete(2))
    ensures Told(t) && t.controller == None && OnStack(t.stack, 2) && DocumentedController(t, 2) == None
    ensures u.controller == Some(3) && !Told(u)
  {
    var s1;
    s, s1 := OpenWithThreeBots(Admin);
    t := OperatorTakesThreeBots(s1);
    LowerBotCompletes(t);
    u := Step(t, Complete(2));
  }

  lemma TopHandsOff(s: ThreadState) returns (t: ThreadState)
    requires ThreeBots(s, Owner)
    ensures t == Step(s, HandOff(3, 4, Owner)) && Core(t)
    ensures t.stack == [Entry(1, 0), Entry(2, 1)] && t.controller == None && |t.dialogs| == 5
    ensures forall k :: 0 <= k < 5 ==>
      t.dialogs[k].contact == k && t.dialogs[k].role == Owner && t.dialogs[k].live == (k != 3)
    ensures forall k :: 0 <= k < 5 ==> t.dialogs[k].isBot == (1 <= k <= 3)
  {
    assert s.stack[2].member == 3 && s.stack[..2] == [Entry(1, 0), Entry(2, 1)];
    BotHandsOff(s, 3, 4, Owner);
    MinusTopEntry(s.stack);
    t := Step(s, HandOff(3, 4, Owner));
  }

  lemma EnsureOverTwoBots(s: ThreadState)
    requires Core(s) && s.stack == [Entry(1, 0), Entry(2, 1)] && s.controller == None && |s.dialogs| == 5
    requires forall k :: 0 <= k < 5 ==>
      s.dialogs[k].contact == k && s.dialogs[k].role == Owner && s.dialogs[k].live == (k != 3)
    requires forall k :: 0 <= k < 5 ==> s.dialogs[k].isBot == (1 <= k <= 3)
    ensures
      var op := Ensure(1, [0, 1, 2, 4]);
      Reads(s, op) && Step(s, op).controller == Some(2) && !GrantsController(s, Step(s, op))
  {
    FoundAt(s.dialogs, 1);
    assert FirstBot(s, [0, 1, 2, 4]) == Some(1) by {
      assert [0, 1, 2, 4][1..] == [1, 2, 4];
    }
    OlderThanItself(s);
    EnsureSpeaks(s, s, 1, [0, 1, 2, 4]);
  }

  /** Control that nobody holds is re-pointed at the bot on top, and another bot is granted it. */
  lemma EnsureGrantsTheWrongBot() returns (s: ThreadState, t: ThreadState, u: ThreadState)
    ensures CreateDirectThread(0, 1, true, {}, 0) == Ok(s)
    ensures t == Step(Run(s, [JoinBot(2, Owner), JoinBot(3, Owner)]), HandOff(3, 4, Owner))
    ensures u == Step(t, Ensure(1, [0, 1, 2, 4])) && Reads(t, Ensure(1, [0, 1, 2, 4]))
    ensures u.controller == Some(2) && !GrantsController(t, u)
  {
    var s1;
    s, s1 := OpenWithThreeBots(Owner);
    t := TopHandsOff(s1);
    EnsureOverTwoBots(t);
    u := Step(t, Ensure(1, [0, 1, 2, 4]));
  }

  // ----- callers that overtake each other -----

  lemma UntrackedBotJoins(s: ThreadState) returns (t: ThreadState)
    requires Core(s) && s == TwoPeers(0, 1, false, {2}, 0)
    ensures t == Step(s, JoinUnmarked(2, 5))
    ensures Core(t) && t.stack == [] && t.owner == None && t.botContacts == {2}
    ensures t.dialogs == [Dialog(0, Owner, P.FULL, false, false, true, 0),
        Dialog(1, Owner, P.FULL, false, false, true, 0),
                          Dialog(2, Member, P.REGULAR, false, false, true, 5)]
  {
    var op := JoinUnmarked(2, 5);
    OlderThanItself(s);
    StepKeepsCore(s, s, op);
    assert FindContact(s.dialogs, 2).None?;
    t := Step(s, op);
  }

  lemma OlderBotJoins(s: ThreadState) returns (t: ThreadState)
    requires Core(s) && s.stack == [] && s.owner == None && s.botContacts == {2}
    requires s.dialogs == [Dialog(0, Owner, P.FULL, false, false, true, 0),
        Dialog(1, Owner, P.FULL, false, false, true, 0),
                           Dialog(2, Member, P.REGULAR, false, false, true, 5)]
    ensures t == Step(s, JoinLate(3, 4))
    ensures t.stack == [Entry(2, 0), Entry(3, 1)] && t.owner == Some(3) && Step(t, Complete(3)) == t
  {
    var req := JoinLate(3, 4).add;
    assert FindContact(s.dialogs, 3).None?;
    var joined := Create(s, AddDialog(req)).value;
    var e := EarliestUntracked(joined, 3, 4);
    assert Untracked(joined, 3, 2);
    assert e == Some(2);
    assert Before(joined.dialogs, 3, 2);
    ActivatedBotOwnsIff(joined, 3);
    t := Step(s, JoinLate(3, 4));
  }

  /** A bot whose add began before a bot was put into the thread unmarked, and waited for it, adopts
      that bot and yet becomes the owner. It then never completes, so the adopted bot below it does
      not get control back. */
  lemma NewcomerOwnsTheThread() returns (s: ThreadState, t: ThreadState, u: ThreadState)
    ensures CreateDirectThread(0, 1, false, {2}, 0) == Ok(s)
    ensures t == Step(s, JoinUnmarked(2, 5))
    ensures u == Step(t, JoinLate(3, 4))
    ensures u.stack == [Entry(2, 0), Entry(3, 1)] && u.owner == Some(3) && Step(u, Complete(3)) == u
  {
    CreatedFits(0, 1, false, {2}, 0);
    CreatedFromPeers(0, 1, false, {2}, 0);
    s := TwoPeers(0, 1, false, {2}, 0);
    t := UntrackedBotJoins(s);
    u := OlderBotJoins(t);
  }

  /** A bot completes, and before its entry is popped another one is pushed on top and takes control:
      that bot, which is already running, is granted control once more. */
  lemma RunningBotIsGrantedAgain() returns (s: ThreadState, seen: ThreadState, t: ThreadState, u: ThreadState)
    ensures CreateDirectThread(0, 1, true, {}, 0) == Ok(s)
    ensures seen == Step(s, JoinBot(2, Admin)) && t == Step(seen, JoinBot(3, Admin))
    ensures u == Commit(seen, t, Complete(2))
    ensures t.controller == Some(3) && u.controller == Some(3) && |u.outbox| == |t.outbox| + 2
    ensures u.outbox[|t.outbox| + 1].Granted? && u.outbox[|t.outbox| + 1].member == 3
    ensures Step(t, Complete(2)).outbox == t.outbox
  {
    s := OpenThread();
    seen := SecondBotJoins(s, Admin);
    t := ThirdBotJoins(seen, Admin);
    CompletesTooLate(seen, t);
    u := Commit(seen, t, Complete(2));
  }

  lemma CompletesTooLate(seen: ThreadState, s: ThreadState)
    requires seen.stack == [Entry(1, 0), Entry(2, 1)] && seen.owner == Some(1)
    requires s.stack == [Entry(1, 0), Entry(2, 1), Entry(3, 2)] && s.owner == Some(1)
    ensures
      var u := Commit(seen, s, Complete(2));
      && u.controller == Some(3) && |u.outbox| == |s.outbox| + 2
      && u.outbox[|s.outbox| + 1].Granted? && u.outbox[|s.outbox| + 1].member == 3
    ensures Step(s, Complete(2)).outbox == s.outbox
  {
    assert seen.stack[1].member == 2 && s.stack[1].member == 2;
    OvertakenCompletionGrantsTheTop(seen, s, 2);
  }

  // ----- roles -----

  /** A supervisor brings in an admin, who may change what its inviter may not. */
  lemma SupervisorBringsInAnAdmin() returns (s: ThreadState, t: ThreadState, u: ThreadState)
    ensures CreateDirectThread(0, 1, true, {}, 0) == Ok(s)
    ensures t == Step(s, Invite(0, 2, Supervisor))
    ensures u == Step(t, Invite(2, 3, Admin))
    ensures IsMember(u, 3) && u.dialogs[3].perms == P.FULL && !u.dialogs[2].perms.changeMembersPermissions
  {
    s := OpenThread();
    t := SupervisorJoins(s);
    u := AdminJoins(t);
  }

  lemma SupervisorJoins(s: ThreadState) returns (t: ThreadState)
    requires Opened(s)
    ensures t == Step(s, Invite(0, 2, Supervisor))
    ensures Core(t) && |t.dialogs| == 3 && t.dialogs[2] == Dialog(2, Supervisor, P.REGULAR, false, false, true, 0)
    ensures !HasContact(t, 3)
  {
    var op := Invite(0, 2, Supervisor);
    FoundAt(s.dialogs, 0);
    assert FindContact(s.dialogs, 2).None?;
    OlderThanItself(s);
    StepKeepsCore(s, s, op);
    t := Step(s, op);
  }

  lemma AdminJoins(s: ThreadState) returns (t: ThreadState)
    requires Core(s) && |s.dialogs| == 3 && s.dialogs[2] == Dialog(2, Supervisor, P.REGULAR, false, false, true, 0)
    requires !HasContact(s, 3)
    ensures t == Step(s, Invite(2, 3, Admin))
    ensures t.dialogs == s.dialogs + [Dialog(3, Admin, P.FULL, false, false, true, 0)]
    ensures IsMember(t, 3) && t.dialogs[3].perms == P.FULL && !t.dialogs[2].perms.changeMembersPermissions
  {
    FoundAt(s.dialogs, 2);
    assert FindContact(s.dialogs, 3).None?;
    t := Step(s, Invite(2, 3, Admin));
  }

  /** The person who opened a thread with a bot cannot release that bot, though a lookup that
      carries the bot columns would allow it. */
  lemma OwnerCannotReclaimTheThread() returns (s: ThreadState)
    ensures CreateDirectThread(0, 1, true, {}, 0) == Ok(s)
    ensures Apply(s, Remove(RemoveRequest(1, Some(0), false, false))) == Err(Forbidden)
    ensures AdmitRemove(s, RemoveRequest(1, Some(0), false, true)).None?
  {
    s := OpenThread();
    FoundAt(s.dialogs, 0);
  }
}
