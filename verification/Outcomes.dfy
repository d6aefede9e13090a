/** What each operation leaves behind and answers, said in rows, entries, events and roles alone. */
module Outcomes {
  import opened Wrappers
  import opened ThreadModel
  import opened BotControlStore
  import opened PreviewStore
  import opened ThreadOps
  import opened ThreadInvariant
  import opened Strandings
  import P = Permissions

  // ----- words -----

  /** A person who acts for the thread: anybody but a bot or the client, who is its owner. */
  predicate Acts(d: Dialog) {
    d.live && !d.isBot && d.role in {Unspecified, Member, Admin, Supervisor}
  }

  predicate SomebodyActs(dialogs: seq<Dialog>) {
    exists k :: 0 <= k < |dialogs| && Acts(dialogs[k])
  }

  /** The stack holds m between x and y. */
  predicate Holds(stack: seq<Entry>, x: seq<Entry>, e: Entry, y: seq<Entry>) {
    Ordered(stack) && stack == x + [e] + y
  }

  /** The dialogs once m's entry is popped. */
  function Popping(dialogs: seq<Dialog>, m: MemberId): (after: seq<Dialog>) {
    if m < |dialogs| && dialogs[m].autoLeave then dialogs[m := dialogs[m].(live := false)] else dialogs
  }

  function LastMember(stack: seq<Entry>): (m: Option<MemberId>) {
    if stack == [] then None else Some(stack[|stack| - 1].member)
  }

  /** An outbox that only says who lost control, if anybody. */
  function Losing(outbox: seq<Event>, holder: Option<MemberId>, reason: Reason): (after: seq<Event>) {
    if holder.None? then outbox else outbox + [Released(holder.value, 0, reason, None)]
  }

  /** An outbox that passes control from one entry to another. */
  function Passing(outbox: seq<Event>, from: Entry, to: Entry, reason: Reason, resume: bool): (after: seq<Event>) {
    outbox + [Released(from.member, from.position, reason, Some(to.member)),
              Granted(to.member, to.position, reason, resume, Some(from))]
  }

  lemma PoppedStack(stack: seq<Entry>, x: seq<Entry>, e: Entry, y: seq<Entry>)
    requires Holds(stack, x, e, y)
    ensures OnStack(stack, e.member) && Minus(stack, {e.member}) == x + y
    ensures Top(stack) == Some(e.member) <==> y == []
    ensures PositionOf(stack, e.member) == e.position
  {
    assert stack[|x|] == e;
    PlacedAt(stack, |x|);
    MinusInTheMiddle(x, e, y);
  }

  lemma {:induction false} PlacedAt(stack: seq<Entry>, i: nat)
    requires Ordered(stack) && i < |stack|
    ensures PositionOf(stack, stack[i].member) == stack[i].position
    decreases |stack|
  {
    if i > 0 {
      assert stack[1..][i - 1] == stack[i];
      PlacedAt(stack[1..], i - 1);
    }
  }

  lemma {:induction false} MinusInTheMiddle(x: seq<Entry>, e: Entry, y: seq<Entry>)
    requires Ordered(x + [e] + y)
    ensures Minus(x + [e] + y, {e.member}) == x + y
    decreases |y|
  {
    var stack := x + [e] + y;
    if y == [] {
      assert stack[|stack| - 1] == e && stack[..|stack| - 1] == x;
      MinusTopEntry(stack);
    } else {
      var n := |y| - 1;
      assert stack[..|stack| - 1] == x + [e] + y[..n];
      assert stack[|stack| - 1] == y[n] && stack[|x|] == e;
      MinusInTheMiddle(x, e, y[..n]);
    }
  }

  // ----- completing -----

  /** The whole outcome of a completion: the entry goes, control passes to what is on top then or
      else to the owner, and it is announced only if the caller looked on top and somebody other
      than the owner gets it. */
  lemma CompletionOutcome(seen: ThreadState, s: ThreadState, m: MemberId, u: seq<Entry>, p: nat, v: seq<Entry>,
      x: seq<Entry>, p': nat, y: seq<Entry>)
    requires Holds(seen.stack, u, Entry(m, p), v) && Holds(s.stack, x, Entry(m, p'), y) && seen.owner != Some(m)
    ensures
      var rest := x + y;
      var to := if rest == [] then Entry(if s.owner.Some? then s.owner.value else 0, 0) else rest[|rest| - 1];
      var next := if rest == [] then s.owner else Some(to.member);
      CompleteBotControl(seen, s, m) ==
      Ok(s.(stack := rest, dialogs := Popping(s.dialogs, m), controller := next,
            outbox := if v == [] && next.Some? && next != seen.owner
                      then Passing(s.outbox, Entry(m, p), to, Completed, true) else s.outbox))
  {
    PoppedStack(seen.stack, u, Entry(m, p), v);
    PoppedStack(s.stack, x, Entry(m, p'), y);
    if x + y == [] {
      EmptiedByItsTop(s.stack, m);
    }
    PassingIsGrant(s.outbox, Entry(m, p), m, 0, Completed, true);
  }

  lemma PassingIsGrant(outbox: seq<Event>, from: Entry, to: MemberId, position: nat, reason: Reason, resume: bool)
    ensures forall e: Entry ::
      Passing(outbox, from, e, reason, resume) == outbox + GrantEvents(e.member, Some(from), e.position, reason, resume)
  {
  }

  lemma FirstGrant(outbox: seq<Event>, reason: Reason, resume: bool)
    ensures forall m, position ::
      outbox + [Granted(m, position, reason, resume, None)] == outbox + GrantEvents(m, None, position, reason, resume)
  {
  }

  lemma CompletionIsIdle(seen: ThreadState, s: ThreadState, m: MemberId)
    requires seen.owner == Some(m) || forall i :: 0 <= i < |seen.stack| ==> seen.stack[i].member != m
    ensures CompleteBotControl(seen, s, m) == Ok(s)
  {
  }

  lemma CompletionCameTooLate(seen: ThreadState, s: ThreadState, m: MemberId, i: nat)
    requires i < |seen.stack| && seen.stack[i].member == m && seen.owner != Some(m)
    requires forall i :: 0 <= i < |s.stack| ==> s.stack[i].member != m
    ensures CompleteBotControl(seen, s, m) == Err(NotFound)
  {
  }

  /** The ordinary case: the bot on top completes and the one below resumes. */
  lemma CompletionResumesTheNext(s: ThreadState, rest: seq<Entry>, m: MemberId, p: nat, n: MemberId, q: nat)
    requires Ordered(s.stack) && s.stack == rest + [Entry(n, q), Entry(m, p)] && s.owner != Some(m)
        && s.owner != Some(n)
    ensures
      CompleteBotControl(s, s, m) ==
      Ok(s.(stack := rest + [Entry(n, q)], dialogs := Popping(s.dialogs, m), controller := Some(n),
            outbox := s.outbox + [Released(m, p, Completed, Some(n)),
                                  Granted(n, q, Completed, true, Some(Entry(m, p)))]))
  {
    var x := rest + [Entry(n, q)];
    assert s.stack == x + [Entry(m, p)] + [] && x + [] == x;
    CompletionOutcome(s, s, m, x, p, [], x, p, []);
  }

  // ----- releasing -----

  /** The client lets go of a bot that is on no stack: control is cleared and said to be. */
  lemma ReleaseOfNobody(seen: ThreadState, s: ThreadState)
    requires seen.stack == []
    ensures
      ReleaseBotControl(seen, s) == Ok(s.(controller := None, outbox := Losing(s.outbox, s.controller, ClientLeave)))
  {
  }

  /** The client lets go of the bot seen on top: its release is said twice when another bot resumes,
      and the owner does not. */
  lemma ReleaseOutcome(seen: ThreadState, s: ThreadState, u: seq<Entry>, m: MemberId, p: nat,
      x: seq<Entry>, p': nat, y: seq<Entry>)
    requires seen.stack == u + [Entry(m, p)] && Holds(s.stack, x, Entry(m, p'), y)
    ensures
      var rest := x + y;
      ReleaseBotControl(seen, s) ==
      Ok(s.(stack := rest, dialogs := Popping(s.dialogs, m), controller := LastMember(rest),
            outbox :=
              var told := s.outbox + [Released(m, p, ClientLeave, LastMember(rest))];
              if rest == [] then told else Passing(told, Entry(m, p), rest[|rest| - 1], ClientLeave, true)))
  {
    PoppedStack(s.stack, x, Entry(m, p'), y);
    PassingIsGrant(s.outbox + [Released(m, p, ClientLeave, LastMember(x + y))], Entry(m, p), m, 0, ClientLeave, true);
  }

  // ----- operators -----

  lemma OnlyDialogOf(dialogs: seq<Dialog>, c: ContactId)
    requires OneDialogPerContact(dialogs)
    ensures forall k :: 0 <= k < |dialogs| && dialogs[k].live && dialogs[k].contact == c ==>
      FindContact(dialogs, c) == Some(k)
  {
  }

  /** Exactly the people who act for a thread can take it over, and then nobody holds control. */
  lemma TakeOverOutcome(seen: ThreadState, s: ThreadState, c: ContactId)
    requires OneDialogPerContact(seen.dialogs)
    ensures
      TakeOverFromBot(seen, s, c) ==
      if exists k :: 0 <= k < |seen.dialogs| && seen.dialogs[k].contact == c && Acts(seen.dialogs[k])
      then Ok(s.(controller := None, outbox := Losing(s.outbox, s.controller, AgentTakeover)))
      else Err(Forbidden)
  {
    OnlyDialogOf(seen.dialogs, c);
  }

  /** Exactly they can hand it back, if there is a bot: the holder, else the top, else the owner. */
  lemma HandBackOutcome(seen: ThreadState, s: ThreadState, c: ContactId)
    requires OneDialogPerContact(seen.dialogs)
    ensures
      var to := if s.controller.Some? then s.controller else if s.stack != [] then LastMember(s.stack) else s.owner;
      HandBackToBot(seen, s, c) ==
      if !exists k :: 0 <= k < |seen.dialogs| && seen.dialogs[k].contact == c && Acts(seen.dialogs[k])
          then Err(Forbidden)
      else if to.None? then Err(FailedPrecondition)
      else Ok(s.(controller := to,
                 outbox := s.outbox + [Granted(to.value, PositionOf(s.stack, to.value), AgentHandback, true, None)]))
  {
    OnlyDialogOf(seen.dialogs, c);
    FirstGrant(s.outbox, AgentHandback, true);
  }

  /** The position a resumed bot is announced with: its entry's, or 0 when it has none. */
  lemma {:induction false} EntryPositions(stack: seq<Entry>)
    ensures Ordered(stack) ==> forall i :: 0 <= i < |stack| ==> PositionOf(stack, stack[i].member) == stack[i].position
    ensures forall m :: (forall i :: 0 <= i < |stack| ==> stack[i].member != m) ==> PositionOf(stack, m) == 0
  {
    if Ordered(stack) {
      forall i | 0 <= i < |stack|
        ensures PositionOf(stack, stack[i].member) == stack[i].position
      {
        PlacedAt(stack, i);
      }
    }
    if stack != [] {
      EntryPositions(stack[1..]);
      forall m | forall i :: 0 <= i < |stack| ==> stack[i].member != m
        ensures PositionOf(stack, m) == 0
      {
        assert stack[0].member != m;
        assert forall i :: 0 <= i < |stack[1..]| ==> stack[1..][i] == stack[i + 1];
      }
    }
  }

  // ----- joining -----

  /** A person joins: one who acts for the thread takes control from the bot, the client does not. */
  lemma PersonJoins(seen: ThreadState, s: ThreadState, req: AddRequest)
    requires AddMember(seen, s, req, NoHook).Ok? && !req.isBot
    ensures
      var rights := if req.role in {Owner, Admin} then Rights(true, true, true, true, true, true, true)
                    else Rights(true, true, true, false, false, true, true);
      var t := s.(dialogs := s.dialogs + [Dialog(req.contact, req.role, rights, false, false, true, req.began)]);
      AddMember(seen, s, req, NoHook) ==
      Ok(if req.role == Owner then t
          else t.(controller := None, outbox := Losing(s.outbox, s.controller, AgentTakeover)))
  {
  }

  /** A bot joins others on the stack: it is put on top of them and takes control over. */
  lemma BotJoinsOthers(seen: ThreadState, s: ThreadState, req: AddRequest, x: seq<Entry>, e: Entry)
    requires AddMember(seen, s, req, NoHook).Ok? && req.isBot
    requires Core(s) && s.stack == x + [e]
    ensures
      var n := |s.dialogs|;
      var rights := if req.role in {Owner, Admin} then Rights(true, true, true, true, true, true, true)
                    else Rights(true, true, true, false, false, true, true);
      var d := Dialog(req.contact, req.role, rights, true, req.autoLeave != Some(false), true, req.began);
      AddMember(seen, s, req, NoHook) ==
      Ok(s.(dialogs := s.dialogs + [d], stack := s.stack + [Entry(n, e.position + 1)], controller := Some(n),
            outbox := Passing(s.outbox, e, Entry(n, e.position + 1), Transferred, false)))
  {
    NoEntryOfANewRow(s);
    ActivatedOnTop(s.(dialogs := s.dialogs + [Inserted(AddDialog(req))]), |s.dialogs|, x, e);
  }

  predicate Marked(s: ThreadState, k: MemberId)
    requires k < |s.dialogs|
  {
    s.dialogs[k].live && !s.dialogs[k].isBot && s.dialogs[k].contact in s.botContacts
  }

  /** A bot joins an empty stack of a thread without unmarked bots. */
  lemma BotJoinsAlone(seen: ThreadState, s: ThreadState, req: AddRequest)
    requires Core(s) && AddMember(seen, s, req, NoHook).Ok? && req.isBot && s.stack == []
    requires forall k :: 0 <= k < |s.dialogs| ==> !Marked(s, k)
    ensures
      var n := |s.dialogs|;
      var t := AddMember(seen, s, req, NoHook).value;
      && t.stack == [Entry(n, 0)] && t.controller == Some(n) && t.dialogs[..n] == s.dialogs
      && t.outbox == s.outbox + [Granted(n, 0, Transferred, false, None)]
      && t.owner == if s.owner.Some? then s.owner else Some(n)
  {
    var joined := Create(s, AddDialog(req)).value;
    assert forall k :: 0 <= k < |s.dialogs| && Untracked(joined, |s.dialogs|, k) ==> Marked(s, k);
    assert AdoptUntrackedBot(joined, |s.dialogs|).bot.None?;
    FirstGrant(s.outbox, Transferred, false);
    if s.owner.None? {
      assert BotOffStack(joined.dialogs, [], |s.dialogs|);
    }
  }

  /** It joins one with such a bot: the one created first is marked and put below it, first to have
      control and first to lose it. */
  lemma BotJoinsTheUnmarked(seen: ThreadState, s: ThreadState, req: AddRequest, e: MemberId)
    requires Core(s) && AddMember(seen, s, req, NoHook).Ok? && req.isBot && s.stack == []
    requires e < |s.dialogs| && Marked(s, e)
    requires forall k :: 0 <= k < |s.dialogs| && Marked(s, k) && k != e ==>
      s.dialogs[e].created < s.dialogs[k].created || (s.dialogs[e].created == s.dialogs[k].created && e < k)
    ensures
      var n := |s.dialogs|;
      var t := AddMember(seen, s, req, NoHook).value;
      && t.stack == [Entry(e, 0), Entry(n, 1)] && t.controller == Some(n)
      && t.dialogs[..n] == s.dialogs[e := s.dialogs[e].(isBot := true)]
      && t.outbox == Passing(s.outbox, Entry(e, 0), Entry(n, 1), Transferred, false)
  {
    var n, joined := |s.dialogs|, Create(s, AddDialog(req)).value;
    assert Untracked(joined, n, e);
    var adopted := AdoptUntrackedBot(joined, n).bot;
    assert adopted.Some? && Untracked(joined, n, adopted.value) && adopted.value < n;
    assert Marked(s, adopted.value);
    PassingIsGrant(s.outbox, Entry(e, 0), 0, 0, Transferred, false);
  }

  // ----- transferring -----

  /** The rows of a transfer: the new dialog, with the initiator's permissions when the roles agree,
      and the initiator gone. */
  function Swapped(seen: ThreadState, s: ThreadState, req: TransferRequest, i: MemberId): (dialogs: seq<Dialog>)
    requires i < |seen.dialogs| && i < |s.dialogs|
  {
    var rights :=
      if seen.dialogs[i].role == req.role then seen.dialogs[i].perms.(reactMessages := true)
      else if req.role in {Owner, Admin} then Rights(true, true, true, true, true, true, true)
      else Rights(true, true, true, false, false, true, true);
    s.dialogs[i := s.dialogs[i].(live := false)]
    + [Dialog(req.contact, req.role, rights, req.targetIsBot, req.targetIsBot && req.autoLeave != Some(false), true,
        req.began)]
  }

  /** Whoever asks for a transfer. */
  predicate Initiates(seen: ThreadState, req: TransferRequest, i: MemberId) {
    i < |seen.dialogs| && seen.dialogs[i].live && seen.dialogs[i].contact == req.initiator
  }

  lemma InitiatorIs(seen: ThreadState, req: TransferRequest, i: MemberId)
    requires OneDialogPerContact(seen.dialogs) && Initiates(seen, req, i)
    ensures FindContact(seen.dialogs, req.initiator) == Some(i)
  {
    OnlyDialogOf(seen.dialogs, req.initiator);
  }

  /** From person to person: one who acts for the thread takes control from the bot, and that is
      said; another client does not. */
  lemma PersonFollowsPerson(seen: ThreadState, s: ThreadState, req: TransferRequest, cleaned: bool, i: MemberId)
    requires OneDialogPerContact(seen.dialogs) && Older(seen, s) && Initiates(seen, req, i)
    requires Transfer(seen, s, req, cleaned).Ok? && !seen.dialogs[i].isBot && !req.targetIsBot
    ensures
      var t := s.(dialogs := Swapped(seen, s, req, i));
      Transfer(seen, s, req, cleaned) ==
      Ok(if req.role == Owner then t
          else t.(controller := None, outbox := Losing(s.outbox, s.controller, AgentTakeover)))
  {
    InitiatorIs(seen, req, i);
    SwappedRows(seen, s, req, i);
  }

  /** From bot to person: the bot's entry goes, nobody holds control, and nothing is said. */
  lemma PersonFollowsBot(seen: ThreadState, s: ThreadState, req: TransferRequest, cleaned: bool, i: MemberId,
      x: seq<Entry>, p: nat, y: seq<Entry>)
    requires OneDialogPerContact(seen.dialogs) && Older(seen, s) && Initiates(seen, req, i)
    requires Transfer(seen, s, req, cleaned).Ok? && seen.dialogs[i].isBot && !req.targetIsBot
    requires Holds(s.stack, x, Entry(i, p), y)
    ensures
      Transfer(seen, s, req, cleaned) ==
      Ok(s.(dialogs := Swapped(seen, s, req, i), stack := x + y, controller := None))
  {
    InitiatorIs(seen, req, i);
    SwappedRows(seen, s, req, i);
    PoppedStack(s.stack, x, Entry(i, p), y);
    assert Popping(Swapped(seen, s, req, i), i) == Swapped(seen, s, req, i);
  }

  lemma SwappedRows(seen: ThreadState, s: ThreadState, req: TransferRequest, i: MemberId)
    requires OneDialogPerContact(seen.dialogs) && Older(seen, s) && Initiates(seen, req, i)
    requires AdmitTransfer(seen, req).None? && SwapDialogs(s, TransferDialog(seen, req), i).Ok?
    ensures SwapDialogs(s, TransferDialog(seen, req), i) == Ok(s.(dialogs := Swapped(seen, s, req, i)))
  {
    InitiatorIs(seen, req, i);
    assert SwapDialogs(s, TransferDialog(seen, req), i).value.dialogs == Swapped(seen, s, req, i);
  }

  /** A bot that joins others on the stack is put on top of them and takes control over. */
  lemma ActivatedOnTop(s: ThreadState, m: MemberId, x: seq<Entry>, e: Entry)
    requires s.stack == x + [e] && s.owner.Some? && forall k :: 0 <= k < |s.stack| ==> s.stack[k].member != m
    ensures
      ActivateBot(s, m) ==
      Ok(s.(stack := s.stack + [Entry(m, e.position + 1)], controller := Some(m),
            outbox := Passing(s.outbox, e, Entry(m, e.position + 1), Transferred, false)))
  {
    PassingIsGrant(s.outbox, e, 0, 0, Transferred, false);
  }

  /** Removing the entry of a dead bot below a new top changes nothing else. */
  lemma CleanedBelowTheTop(s: ThreadState, i: MemberId, x: seq<Entry>, p: nat, y: seq<Entry>, top: Entry)
    requires Ordered(s.stack) && s.stack == x + [Entry(i, p)] + y + [top] && s.controller == Some(top.member)
    requires i < |s.dialogs| && !s.dialogs[i].live
    ensures CleanUp(s, i, true) == s.(stack := x + y + [top])
  {
    assert s.stack == x + [Entry(i, p)] + (y + [top]);
    PoppedStack(s.stack, x, Entry(i, p), y + [top]);
    assert x + (y + [top]) == x + y + [top];
    assert Popping(s.dialogs, i) == s.dialogs;
  }

  /** To a bot, from one that has an entry: the new one goes on top, takes control over from the top,
      and the initiator's entry goes. */
  lemma BotFollowsBot(seen: ThreadState, s: ThreadState, req: TransferRequest, i: MemberId,
      x: seq<Entry>, p: nat, y: seq<Entry>)
    requires OneDialogPerContact(seen.dialogs) && Core(s) && Older(seen, s) && Initiates(seen, req, i)
    requires Transfer(seen, s, req, true).Ok? && seen.dialogs[i].isBot && req.targetIsBot
    requires Holds(s.stack, x, Entry(i, p), y)
    ensures
      var n, top := |s.dialogs|, s.stack[|s.stack| - 1];
      Transfer(seen, s, req, true) ==
      Ok(s.(dialogs := Swapped(seen, s, req, i), stack := x + y + [Entry(n, top.position + 1)], controller := Some(n),
            outbox := Passing(s.outbox, top, Entry(n, top.position + 1), Transferred, false)))
  {
    InitiatorIs(seen, req, i);
    SwappedRows(seen, s, req, i);
    var n, top := |s.dialogs|, s.stack[|s.stack| - 1];
    var swapped := s.(dialogs := Swapped(seen, s, req, i));
    NoEntryOfANewRow(s);
    ActivatedOnTop(swapped, n, s.stack[..|s.stack| - 1], top);
    OrderedPush(s.stack, Entry(n, top.position + 1));
    CleanedBelowTheTop(ActivateBot(swapped, n).value, i, x, p, y, Entry(n, top.position + 1));
  }

  lemma NoEntryOfANewRow(s: ThreadState)
    requires Core(s)
    ensures forall k :: 0 <= k < |s.stack| ==> s.stack[k].member < |s.dialogs|
    ensures s.stack != [] ==> s.owner.Some?
    ensures forall k :: 0 <= k < |s.stack| - 1 ==> s.stack[k].position < s.stack[|s.stack| - 1].position
  {
    forall k | 0 <= k < |s.stack|
      ensures s.stack[k].member < |s.dialogs|
    {
      assert IsBotRow(s, s.stack[k].member);
    }
  }

  /** To a bot from somebody without an entry, when others are on the stack. */
  lemma BotFollowsOthers(seen: ThreadState, s: ThreadState, req: TransferRequest, i: MemberId, cleaned: bool)
    requires OneDialogPerContact(seen.dialogs) && Core(s) && Older(seen, s) && Initiates(seen, req, i)
    requires Transfer(seen, s, req, cleaned).Ok? && req.targetIsBot && s.stack != []
    requires forall k :: 0 <= k < |s.stack| ==> s.stack[k].member != i
    ensures
      var n, top := |s.dialogs|, s.stack[|s.stack| - 1];
      Transfer(seen, s, req, cleaned) ==
      Ok(s.(dialogs := Swapped(seen, s, req, i), stack := s.stack + [Entry(n, top.position + 1)], controller := Some(n),
            outbox := Passing(s.outbox, top, Entry(n, top.position + 1), Transferred, false)))
  {
    InitiatorIs(seen, req, i);
    SwappedRows(seen, s, req, i);
    var n, top := |s.dialogs|, s.stack[|s.stack| - 1];
    var swapped := s.(dialogs := Swapped(seen, s, req, i));
    NoEntryOfANewRow(s);
    ActivatedOnTop(swapped, n, s.stack[..|s.stack| - 1], top);
    PushedOnly(s.stack, Entry(n, top.position + 1), i);
  }

  // ----- removing -----

  /** What a removal's pop leaves and reports. */
  lemma PoppedForRemoval(s: ThreadState, m: MemberId, x: seq<Entry>, p: nat, y: seq<Entry>)
    requires Holds(s.stack, x, Entry(m, p), y) && s.owner.Some?
    ensures
      var rest := x + y;
      var to := if rest == [] then Entry(s.owner.value, 0) else rest[|rest| - 1];
      Pop(s, m, Removed) ==
      Ok(Popped(s.(dialogs := Popping(s.dialogs, m), stack := rest, controller := Some(to.member)), Some(to)))
  {
    PoppedStack(s.stack, x, Entry(m, p), y);
    if x + y == [] {
      EmptiedByItsTop(s.stack, m);
    }
  }

  /** A bot is removed whose lookup says that it is one: its entry and its dialog go, and control
      passes to what is on top then, or else to the owner, with the position above that one. */
  lemma BotRemovalOutcome(seen: ThreadState, s: ThreadState, req: RemoveRequest, x: seq<Entry>, p: nat, y: seq<Entry>)
    requires s.owner.Some? && Older(seen, s) && RemoveMember(seen, s, req).Ok?
    requires req.carriesBotFlags && IsBotRow(seen, req.target) && Holds(s.stack, x, Entry(req.target, p), y)
    ensures
      var rest, m := x + y, req.target;
      var to := if rest == [] then Entry(s.owner.value, 0) else rest[|rest| - 1];
      RemoveMember(seen, s, req) ==
      Ok(s.(dialogs := s.dialogs[m := s.dialogs[m].(live := false)], stack := rest, controller := Some(to.member),
            outbox := Passing(s.outbox, Entry(m, to.position + 1), to, Removed, true)))
  {
    var rest, m := x + y, req.target;
    var to := if rest == [] then Entry(s.owner.value, 0) else rest[|rest| - 1];
    PoppedForRemoval(s, m, x, p, y);
    assert Passing(s.outbox, Entry(m, to.position + 1), to, Removed, true)
      == s.outbox + GrantEvents(to.member, Some(Entry(m, to.position + 1)), to.position, Removed, true);
    assert OlderRow(seen.dialogs[m], s.dialogs[m]);
  }

  /** Anybody else is removed: the dialog goes, and the last one who acted for the thread gives
      control back to a bot, unless one has it. */
  lemma RowRemovalOutcome(seen: ThreadState, s: ThreadState, req: RemoveRequest)
    requires Older(seen, s) && RemoveMember(seen, s, req).Ok? && !(req.carriesBotFlags && IsBotRow(seen, req.target))
    ensures
      var m := req.target;
      var t := s.(dialogs := s.dialogs[m := s.dialogs[m].(live := false)]);
      var to := if s.stack != [] then LastMember(s.stack) else s.owner;
      RemoveMember(seen, s, req) ==
      Ok(if seen.dialogs[m].role == Owner || SomebodyActs(t.dialogs) || s.controller.Some? || to.None? then t
         else t.(controller := to,
                 outbox := s.outbox + [Granted(to.value, PositionOf(s.stack, to.value), AgentLeft, true, None)]))
  {
    NobodyOperates(Leave(s.dialogs, req.target));
    FirstGrant(s.outbox, AgentLeft, true);
  }

  // ----- existing threads -----

  /** A thread whose addressee is a bot, with nobody in control and nobody acting for it, gets its
      bot back: the top is in control, or the first bot listed when there is none, which is told so. */
  lemma EnsureOutcome(seen: ThreadState, s: ThreadState, to: ContactId, listed: seq<MemberId>, k: nat, n: nat)
    requires Core(s) && Older(seen, s) && OneDialogPerContact(seen.dialogs) && seen.controller.None?
    requires k < |seen.dialogs| && seen.dialogs[k].live && seen.dialogs[k].contact == to && seen.dialogs[k].isBot
    requires !SomebodyActs(seen.dialogs)
    requires n < |listed| && IsBotRow(seen, listed[n]) && forall i :: 0 <= i < n ==> !IsBotRow(seen, listed[i])
    ensures
      var bot := listed[n];
      var t := s.(outbox := s.outbox + [Granted(bot, 0, Initial, false, None)]);
      EnsureDirectThread(seen, s, s, to, listed) ==
      Ok(if s.stack != [] then t.(controller := LastMember(s.stack))
         else t.(controller := Some(bot), stack := [Entry(bot, 0)]))
  {
    OnlyDialogOf(seen.dialogs, to);
    FirstBotIs(seen, listed, n);
    NobodyOperates(seen.dialogs);
    assert IsBotRow(s, listed[n]) && s.owner.Some?;
    if s.stack == [] {
      PushedAlone(s, listed[n]);
    }
    assert s.outbox + GrantEvents(listed[n], None, 0, Initial, false) == s.outbox
        + [Granted(listed[n], 0, Initial, false, None)];
  }

  /** Any other existing thread is left alone. */
  lemma EnsureIsIdle(seen: ThreadState, s: ThreadState, to: ContactId, listed: seq<MemberId>)
    requires OneDialogPerContact(seen.dialogs)
    requires seen.controller.Some? || SomebodyActs(seen.dialogs)
      || forall k :: 0 <= k < |seen.dialogs| && seen.dialogs[k].live && seen.dialogs[k].contact == to
          ==> !seen.dialogs[k].isBot
    ensures EnsureDirectThread(seen, s, s, to, listed) == Ok(s)
  {
    NobodyOperates(seen.dialogs);
  }

  lemma PushedAlone(s: ThreadState, m: MemberId)
    requires s.stack == []
    ensures
      Push(s, m) ==
      Ok(s.(stack := [Entry(m, 0)], controller := Some(m),
            owner := if s.owner.Some? then s.owner else EarliestBotOffStack(s.dialogs, [], |s.dialogs|)))
  {
    assert s.stack + [Entry(m, 0)] == [Entry(m, 0)];
  }

  lemma NobodyOperates(dialogs: seq<Dialog>)
    ensures HasOperator(dialogs) <==> SomebodyActs(dialogs)
  {
    assert forall k :: 0 <= k < |dialogs| ==>
      (Acts(dialogs[k]) <==> dialogs[k].live && IsOperator(dialogs[k].isBot, dialogs[k].role));
  }

  lemma {:induction false} FirstBotIs(seen: ThreadState, listed: seq<MemberId>, n: nat)
    requires n < |listed| && IsBotRow(seen, listed[n]) && forall i :: 0 <= i < n ==> !IsBotRow(seen, listed[i])
    ensures FirstBot(seen, listed) == Some(listed[n])
    decreases n
  {
    if n > 0 {
      assert !IsBotRow(seen, listed[0]);
      assert forall i :: 0 <= i < n - 1 ==> listed[1..][i] == listed[i + 1];
      FirstBotIs(seen, listed[1..], n - 1);
    }
  }

  /** A new direct thread: two dialogs with every permission, and the addressee's bot in control. */
  lemma CreationOutcome(from: ContactId, to: ContactId, toIsBot: bool, botContacts: set<ContactId>, began: int)
    requires from != to
    ensures
      var all := Rights(true, true, true, true, true, true, true);
      var dialogs := [Dialog(from, Owner, all, false, false, true, began),
          Dialog(to, Owner, all, toIsBot, false, true, began)];
      CreateDirectThread(from, to, toIsBot, botContacts, began) ==
      Ok(if toIsBot
         then ThreadState(dialogs, [Entry(1, 0)], Some(1), Some(1), [], [Granted(1, 0, Initial, false, None)],
             botContacts)
         else ThreadState(dialogs, [], None, None, [], [], botContacts))
  {
    CreatedFromPeers(from, to, toIsBot, botContacts, began);
    if toIsBot {
      var s := TwoPeers(from, to, true, botContacts, began);
      assert BotOffStack(s.dialogs, [], 1);
      assert EarliestBotOffStack(s.dialogs, [], 2) == Some(1);
      PushedAlone(s, 1);
      assert s.outbox + GrantEvents(1, None, 0, Initial, false) == [Granted(1, 0, Initial, false, None)];
    }
  }

  /** Nobody opens a thread with itself: the second dialog violates the unique index. */
  lemma CreationWithOneself(c: ContactId, toIsBot: bool, botContacts: set<ContactId>, began: int)
    ensures CreateDirectThread(c, c, toIsBot, botContacts, began) == Err(Internal)
  {
    var first := Dialog(c, Owner, P.FULL, false, false, true, began);
    assert FindContact([first], c).Some? by {
      assert [first][0].live && [first][0].contact == c;
    }
    assert [] + [Inserted(first)] == [first];
  }
}
