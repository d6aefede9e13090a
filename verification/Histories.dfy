/** Threads over whole histories, in which calls may act on checks that others have overtaken. */
module Histories {
  import opened Wrappers
  import opened ThreadModel
  import opened BotControlStore
  import opened ThreadOps
  import opened ThreadMachine
  import opened ThreadInvariant

  // ----- rows only age -----

  lemma OlderIsTransitive(s: ThreadState, mid: ThreadState, t: ThreadState)
    requires Older(s, mid) && Older(mid, t)
    ensures Older(s, t)
  {
    forall m | 0 <= m < |s.dialogs|
      ensures OlderRow(s.dialogs[m], t.dialogs[m])
    {
      assert OlderRow(s.dialogs[m], mid.dialogs[m]) && OlderRow(mid.dialogs[m], t.dialogs[m]);
    }
  }

  lemma ActivateAges(s: ThreadState, m: MemberId)
    requires ActivateBot(s, m).Ok?
    ensures Older(s, ActivateBot(s, m).value) && |ActivateBot(s, m).value.dialogs| == |s.dialogs|
    ensures forall k :: 0 <= k < |s.dialogs| ==> ActivateBot(s, m).value.dialogs[k].live == s.dialogs[k].live
  {
  }

  lemma AddAges(seen: ThreadState, s: ThreadState, req: AddRequest, hook: Hook)
    requires AddMember(seen, s, req, hook).Ok?
    ensures Older(s, AddMember(seen, s, req, hook).value)
  {
    var s1 := RunHook(s, req.contact, hook).value;
    var d := AddDialog(req);
    var s2 := Create(s1, d).value;
    if req.isBot {
      ActivateAges(s2, |s1.dialogs|);
      OlderIsTransitive(s, s2, AddMember(seen, s, req, hook).value);
    }
  }

  lemma SwapControlAges(s: ThreadState, joined: MemberId, left: MemberId, fromBot: bool, toBot: bool, role: Role,
      cleaned: bool)
    requires SwapControl(s, joined, left, fromBot, toBot, role, cleaned).Ok?
    ensures Older(s, SwapControl(s, joined, left, fromBot, toBot, role, cleaned).value)
  {
    if toBot {
      ActivateAges(s, joined);
      OlderIsTransitive(s, ActivateBot(s, joined).value,
          SwapControl(s, joined, left, fromBot, toBot, role, cleaned).value);
    }
  }

  lemma TransferAges(seen: ThreadState, s: ThreadState, req: TransferRequest, cleaned: bool)
    requires Transfer(seen, s, req, cleaned).Ok?
    ensures Older(s, Transfer(seen, s, req, cleaned).value)
  {
    var i := FindContact(seen.dialogs, req.initiator).value;
    var swapped := SwapDialogs(s, TransferDialog(seen, req), i).value;
    SwapControlAges(swapped, |s.dialogs|, i, seen.dialogs[i].isBot, req.targetIsBot, req.role, cleaned);
    OlderIsTransitive(s, swapped, Transfer(seen, s, req, cleaned).value);
  }

  lemma RemoveAges(seen: ThreadState, s: ThreadState, req: RemoveRequest)
    requires RemoveMember(seen, s, req).Ok?
    ensures Older(s, RemoveMember(seen, s, req).value)
  {
  }

  lemma CompleteAges(seen: ThreadState, s: ThreadState, m: MemberId)
    ensures CompleteBotControl(seen, s, m).Ok? ==> Older(s, CompleteBotControl(seen, s, m).value)
  {
  }

  lemma ReleaseAges(seen: ThreadState, s: ThreadState)
    ensures ReleaseBotControl(seen, s).Ok? ==> Older(s, ReleaseBotControl(seen, s).value)
  {
  }

  lemma EnsureAges(seen: ThreadState, s: ThreadState, to: ContactId, listed: seq<MemberId>)
    ensures Older(s, EnsureDirectThread(seen, s, s, to, listed).value)
  {
  }

  lemma PermitAges(seen: ThreadState, s: ThreadState, req: PermitRequest)
    requires UpdatePermissions(seen, s, req).Ok?
    ensures Older(s, UpdatePermissions(seen, s, req).value)
  {
  }

  /** No operation revives a dialog, changes its contact, role or auto_leave mark, makes a bot a
      person, or replaces the owner bot. */
  lemma StepAges(seen: ThreadState, s: ThreadState, op: Op)
    ensures Older(s, Commit(seen, s, op))
  {
    if Attempt(seen, s, op).Ok? {
      match op
      case Add(req) => AddAges(seen, s, req, NoHook);
      case Transfers(req, cleaned) => TransferAges(seen, s, req, cleaned);
      case Upgrade(c, i, role, isBot, now) =>
        AddAges(seen, s, UpgradeRequest(c, i, role, isBot, now), ClosePreview(now));
      case Remove(req) => RemoveAges(seen, s, req);
      case Complete(m) => CompleteAges(seen, s, m);
      case Release => ReleaseAges(seen, s);
      case Ensure(to, listed) => EnsureAges(seen, s, to, listed);
      case Permit(req) => PermitAges(seen, s, req);
      case _ =>
    }
  }

  // ----- histories -----

  function Last(h: seq<ThreadState>): (t: ThreadState)
    requires h != []
  {
    h[|h| - 1]
  }

  /** Before the last call there was a history of the others. */
  lemma BeforeLast(s: ThreadState, calls: seq<Call>)
    requires Timely(calls) && calls != []
    ensures
      var n := |calls| - 1;
      && Timely(calls[..n]) && calls[n].checked < |History(s, calls[..n])|
      && History(s, calls) == History(s, calls[..n])
          + [Commit(History(s, calls)[calls[n].checked], History(s, calls)[n], calls[n].op)]
  {
  }

  lemma {:induction false} HistoryAges(s: ThreadState, calls: seq<Call>)
    requires Timely(calls)
    ensures forall j, k :: 0 <= j <= k <= |calls| ==> Older(History(s, calls)[j], History(s, calls)[k])
    decreases |calls|
  {
    if calls != [] {
      var n := |calls| - 1;
      BeforeLast(s, calls);
      HistoryAges(s, calls[..n]);
      var h := History(s, calls);
      StepAges(h[calls[n].checked], h[n], calls[n].op);
      forall j | 0 <= j <= n
        ensures Older(h[j], h[n + 1])
      {
        assert Older(History(s, calls[..n])[j], History(s, calls[..n])[n]);
        OlderIsTransitive(h[j], h[n], h[n + 1]);
      }
    }
  }

  /** Safety over every history: whatever the calls, however they overtake each other's checks. */
  lemma {:induction false} HistoryKeepsCore(s: ThreadState, calls: seq<Call>)
    requires Core(s) && Timely(calls)
    ensures forall k :: 0 <= k <= |calls| ==> Core(History(s, calls)[k])
    decreases |calls|
  {
    if calls != [] {
      var n := |calls| - 1;
      BeforeLast(s, calls);
      HistoryKeepsCore(s, calls[..n]);
      HistoryAges(s, calls);
      var h := History(s, calls);
      assert Core(History(s, calls[..n])[n]);
      StepKeepsCore(h[calls[n].checked], h[n], calls[n].op);
    }
  }

  /** The owner bot is for good: no history ever replaces it, not even one that removes its membership. */
  lemma HistoryKeepsOwner(s: ThreadState, calls: seq<Call>, j: nat, k: nat)
    requires Timely(calls) && j <= k <= |calls| && History(s, calls)[j].owner.Some?
    ensures History(s, calls)[k].owner == History(s, calls)[j].owner
  {
    HistoryAges(s, calls);
  }

  // ----- who becomes the owner -----

  /** The thread as a joining member finds it, when its row has just been inserted. */
  function Joined(seen: ThreadState, s: ThreadState, op: Op): (r: Result<ThreadState>) {
    match op
    case Add(req) => if AdmitAdd(seen, req).None? then Create(s, AddDialog(req)) else Err(Unknown)
    case Upgrade(c, i, role, isBot, now) =>
      var req := UpgradeRequest(c, i, role, isBot, now);
      if P.DefaultByRole(role).Some? && AdmitAdd(seen, req).None? then Create(s, AddDialog(req)) else Err(Unknown)
    case Transfers(req, _) =>
      if AdmitTransfer(seen, req).None?
      then SwapDialogs(s, TransferDialog(seen, req), FindContact(seen.dialogs, req.initiator).value) else Err(Unknown)
    case _ => Err(Unknown)
  }

  /** A bot is adopted whose row was created after that of the bot it makes room for. */
  predicate AdoptsAYounger(s: ThreadState, newcomer: MemberId)
    requires newcomer < |s.dialogs|
  {
    var adopted := AdoptUntrackedBot(s, newcomer);
    adopted.bot.Some? && Before(s.dialogs, newcomer, adopted.bot.value)
  }

  /** The first bot pushed, at the bottom of the stack, becomes the owner, exactly unless it was
      adopted and is younger than the newcomer: then the newcomer does. */
  lemma FirstPushedBotOwnsIff(seen: ThreadState, s: ThreadState, op: Op)
    requires Core(s) && Older(seen, s) && s.owner.None? && Commit(seen, s, op).owner.Some?
    ensures Joined(seen, s, op).Ok? && |s.dialogs| < |Joined(seen, s, op).value.dialogs|
    ensures Commit(seen, s, op).stack != []
    ensures
      var t := Commit(seen, s, op);
      && (t.owner == Some(t.stack[0].member) <==> !AdoptsAYounger(Joined(seen, s, op).value, |s.dialogs|))
      && (t.owner == Some(t.stack[0].member) || t.owner == Some(|s.dialogs|))
  {
    match op
    case Add(req) => AddedBotOwnsIff(seen, s, req, NoHook);
    case Upgrade(c, i, role, isBot, now) =>
      AddedBotOwnsIff(seen, s, UpgradeRequest(c, i, role, isBot, now), ClosePreview(now));
    case Transfers(req, cleaned) => TransferredBotOwnsIff(seen, s, req, cleaned);
    case Ensure(_, _) => assert false;
    case _ =>
  }

  lemma TransferredBotOwnsIff(seen: ThreadState, s: ThreadState, req: TransferRequest, cleaned: bool)
    requires Core(s) && Older(seen, s) && s.owner.None?
    requires Transfer(seen, s, req, cleaned).Ok? && Transfer(seen, s, req, cleaned).value.owner.Some?
    ensures
      var i := FindContact(seen.dialogs, req.initiator).value;
      var swapped := SwapDialogs(s, TransferDialog(seen, req), i);
      var t := Transfer(seen, s, req, cleaned).value;
      && swapped.Ok? && |s.dialogs| < |swapped.value.dialogs| && t.stack != []
      && (t.owner == Some(t.stack[0].member) <==> !AdoptsAYounger(swapped.value, |s.dialogs|))
      && (t.owner == Some(t.stack[0].member) || t.owner == Some(|s.dialogs|))
  {
    var i := FindContact(seen.dialogs, req.initiator).value;
    assert !seen.dialogs[i].isBot;
    ActivatedBotOwnsIff(SwapDialogs(s, TransferDialog(seen, req), i).value, |s.dialogs|);
  }

  lemma AddedBotOwnsIff(seen: ThreadState, s: ThreadState, req: AddRequest, hook: Hook)
    requires Core(s) && s.owner.None? && AddMember(seen, s, req, hook).Ok?
        && AddMember(seen, s, req, hook).value.owner.Some?
    ensures Create(s, AddDialog(req)).Ok? && AddMember(seen, s, req, hook).value.stack != []
    ensures
      var t := AddMember(seen, s, req, hook).value;
      && (t.owner == Some(t.stack[0].member) <==> !AdoptsAYounger(Create(s, AddDialog(req)).value, |s.dialogs|))
      && (t.owner == Some(t.stack[0].member) || t.owner == Some(|s.dialogs|))
  {
    var s1 := RunHook(s, req.contact, hook).value;
    var joined, joined1 := Create(s, AddDialog(req)).value, Create(s1, AddDialog(req)).value;
    assert joined1 == joined.(previews := s1.previews);
    UntrackedIgnoresPreviews(joined, joined1, |s.dialogs|, |joined.dialogs|);
    ActivatedBotOwnsIff(joined1, |s.dialogs|);
  }

  lemma {:induction false} UntrackedIgnoresPreviews(s: ThreadState, t: ThreadState, newcomer: MemberId, n: nat)
    requires t == s.(previews := t.previews) && n <= |s.dialogs|
    ensures EarliestUntracked(s, newcomer, n) == EarliestUntracked(t, newcomer, n)
  {
    if n > 0 {
      UntrackedIgnoresPreviews(s, t, newcomer, n - 1);
    }
  }

  lemma ActivatedBotOwnsIff(s: ThreadState, m: MemberId)
    requires s.owner.None? && s.stack == [] && IsMember(s, m) && s.dialogs[m].isBot
    requires forall k :: 0 <= k < |s.dialogs| && s.dialogs[k].isBot ==> k == m
    ensures ActivateBot(s, m).Ok? && ActivateBot(s, m).value.stack != []
    ensures
      var t := ActivateBot(s, m).value;
      && (t.owner == Some(t.stack[0].member) <==> !AdoptsAYounger(s, m))
      && (t.owner == Some(t.stack[0].member) || t.owner == Some(m))
  {
    var adopted := AdoptUntrackedBot(s, m);
    if adopted.bot.Some? {
      var e := adopted.bot.value;
      var dialogs := adopted.state.dialogs;
      assert BotOffStack(dialogs, [], e) && BotOffStack(dialogs, [], m);
      assert forall k :: 0 <= k < |dialogs| && BotOffStack(dialogs, [], k) ==> k == e || k == m;
      assert Before(dialogs, m, e) <==> Before(s.dialogs, m, e);
    } else {
      assert BotOffStack(s.dialogs, [], m);
    }
  }

  // ----- runs are histories in which nobody is overtaken -----

  function Serial(ops: seq<Op>): (calls: seq<Call>)
    ensures |calls| == |ops| && forall i :: 0 <= i < |ops| ==> calls[i] == Call(ops[i], i)
  {
    seq(|ops|, i requires 0 <= i < |ops| => Call(ops[i], i))
  }

  lemma {:induction false} RunOfPrefix(s: ThreadState, ops: seq<Op>, op: Op)
    ensures Run(s, ops + [op]) == Step(Run(s, ops), op)
    decreases |ops|
  {
    if ops == [] {
      assert Run(s, [op]) == Run(Step(s, op), []);
    } else {
      assert (ops + [op])[1..] == ops[1..] + [op];
      RunOfPrefix(Step(s, ops[0]), ops[1..], op);
    }
  }

  lemma RunOfTwo(s: ThreadState, a: Op, b: Op)
    ensures Run(s, [a, b]) == Step(Step(s, a), b)
  {
    RunOfPrefix(s, [a], b);
    RunOfPrefix(s, [], a);
    assert [] + [a] == [a] && [a] + [b] == [a, b];
  }

  lemma {:induction false} RunIsASerialHistory(s: ThreadState, ops: seq<Op>)
    ensures Last(History(s, Serial(ops))) == Run(s, ops)
    decreases |ops|
  {
    if ops != [] {
      var n := |ops| - 1;
      assert Serial(ops)[..n] == Serial(ops[..n]);
      assert ops == ops[..n] + [ops[n]];
      RunIsASerialHistory(s, ops[..n]);
      RunOfPrefix(s, ops[..n], ops[n]);
    }
  }

  lemma RunKeepsCore(s: ThreadState, ops: seq<Op>)
    requires Core(s)
    ensures Core(Run(s, ops))
  {
    HistoryKeepsCore(s, Serial(ops));
    RunIsASerialHistory(s, ops);
  }
}
