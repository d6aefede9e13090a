/** The bot control statements of the database, each as the effect it has on a thread's rows. */
module BotControlStore {
  import opened Wrappers
  import opened ThreadModel

  datatype Popped = Popped(state: ThreadState, newTop: Option<Entry>)
  datatype Cleared = Cleared(state: ThreadState, released: Option<MemberId>)
  datatype Restored = Restored(state: ThreadState, holder: Option<Entry>, granted: bool)
  datatype Adopted = Adopted(state: ThreadState, bot: Option<MemberId>)

  /** Row i comes before row k in an order by creation. Rows of one moment go by their ids. */
  predicate Before(dialogs: seq<Dialog>, i: nat, k: nat)
    requires i < |dialogs| && k < |dialogs|
  {
    dialogs[i].created < dialogs[k].created || (dialogs[i].created == dialogs[k].created && i < k)
  }

  predicate BotOffStack(dialogs: seq<Dialog>, stack: seq<Entry>, m: nat)
    requires m < |dialogs|
  {
    dialogs[m].live && dialogs[m].isBot && !OnStack(stack, m)
  }

  /** The live bot among the first n rows that was created first, of those the stack does not hold. */
  function EarliestBotOffStack(dialogs: seq<Dialog>, stack: seq<Entry>, n: nat): (m: Option<MemberId>)
    requires n <= |dialogs|
    ensures m.Some? ==> m.value < n && BotOffStack(dialogs, stack, m.value)
    ensures m.Some? ==>
      forall k :: 0 <= k < n && BotOffStack(dialogs, stack, k) && k != m.value ==> Before(dialogs, m.value, k)
    ensures m.None? ==> forall k :: 0 <= k < n ==> !BotOffStack(dialogs, stack, k)
  {
    if n == 0 then None
    else
      var m := EarliestBotOffStack(dialogs, stack, n - 1);
      if BotOffStack(dialogs, stack, n - 1) && (m.None? || Before(dialogs, n - 1, m.value)) then Some(n - 1) else m
  }

  /** Puts m on top and makes it the controller; a thread without an owner bot gets its earliest
      bot off the stack, read before m's entry is written. A second entry for m violates
      the unique index. */
  function Push(s: ThreadState, m: MemberId): (r: Result<ThreadState>) {
    if OnStack(s.stack, m) then Err(Internal)
    else
      var earliest := EarliestBotOffStack(s.dialogs, s.stack, |s.dialogs|);
      Ok(s.(stack := s.stack + [Entry(m, NextPosition(s.stack))],
            controller := Some(m),
            owner := if s.owner.Some? then s.owner else earliest))
  }

  function Leave(dialogs: seq<Dialog>, m: MemberId): (left: seq<Dialog>)
    ensures |left| == |dialogs|
  {
    if m < |dialogs| then dialogs[m := dialogs[m].(live := false)] else dialogs
  }

  /** The first statement of a pop: m's entry goes, and an auto_leave dialog is soft-deleted. */
  function Unlist(s: ThreadState, m: MemberId): (t: ThreadState)
    ensures |t.dialogs| == |s.dialogs|
  {
    s.(stack := Minus(s.stack, {m}),
       dialogs := if m < |s.dialogs| && s.dialogs[m].autoLeave then Leave(s.dialogs, m) else s.dialogs)
  }

  /** The second one re-points the controller; wasTop says whether the entry was on top. */
  function Repoint(s: ThreadState, wasTop: bool, reason: Reason): (popped: Popped) {
    var controller :=
      if reason == Handoff then None
      else if s.stack != [] then Top(s.stack)
      else if reason == ClientLeave then None
      else if wasTop then s.owner
      else s.controller;
    var newTop :=
      if s.stack != [] && reason != Handoff then Some(s.stack[|s.stack| - 1])
      else if wasTop && s.owner.Some? && reason != ClientLeave && reason != Handoff then Some(Entry(s.owner.value, 0))
      else None;
    Popped(s.(controller := controller), newTop)
  }

  function Pop(s: ThreadState, m: MemberId, reason: Reason): (r: Result<Popped>) {
    if !OnStack(s.stack, m) then Err(NotFound) else Ok(Repoint(Unlist(s, m), Top(s.stack) == Some(m), reason))
  }

  function ClearController(s: ThreadState): (r: Cleared) {
    Cleared(s.(controller := None), s.controller)
  }

  /** Who control falls back to: the stack top, else the owner bot. */
  function Fallback(s: ThreadState): (m: Option<MemberId>) {
    if s.stack != [] then Top(s.stack) else s.owner
  }

  /** Grants control to the fallback when no bot holds it, and reports who holds it now. */
  function RestoreController(s: ThreadState): (r: Restored) {
    var holder := if s.controller.Some? then s.controller else Fallback(s);
    var granted := s.controller.None? && holder.Some?;
    Restored(
      s.(controller := holder),
      if holder.Some? then Some(Entry(holder.value, PositionOf(s.stack, holder.value))) else None,
      granted)
  }

  predicate Untracked(s: ThreadState, newcomer: MemberId, m: MemberId)
    requires m < |s.dialogs|
  {
    m != newcomer && s.dialogs[m].live && !s.dialogs[m].isBot && s.dialogs[m].contact in s.botContacts
  }

  /** The live member among the first n rows that was created first, of those whose contact is a
      bot but whose row is not marked so. */
  function EarliestUntracked(s: ThreadState, newcomer: MemberId, n: nat): (m: Option<MemberId>)
    requires n <= |s.dialogs|
    ensures m.Some? ==> m.value < n && Untracked(s, newcomer, m.value)
    ensures m.Some? ==>
      forall k :: 0 <= k < n && Untracked(s, newcomer, k) && k != m.value ==> Before(s.dialogs, m.value, k)
    ensures m.None? ==> forall k :: 0 <= k < n ==> !Untracked(s, newcomer, k)
  {
    if n == 0 then None
    else
      var m := EarliestUntracked(s, newcomer, n - 1);
      if Untracked(s, newcomer, n - 1) && (m.None? || Before(s.dialogs, n - 1, m.value)) then Some(n - 1) else m
  }

  function AdoptUntrackedBot(s: ThreadState, newcomer: MemberId): (r: Adopted) {
    var candidate := if s.stack == [] then EarliestUntracked(s, newcomer, |s.dialogs|) else None;
    if candidate.None? then Adopted(s, None)
    else
      var m := candidate.value;
      Adopted(s.(dialogs := s.dialogs[m := s.dialogs[m].(isBot := true)]), Some(m))
  }

  /** Inserts a dialog; a contact with a live one already violates the unique index. The statement
      writes every permission but reacting, which takes the column's default. */
  function Create(s: ThreadState, d: Dialog): (r: Result<ThreadState>) {
    if d.live && FindContact(s.dialogs, d.contact).Some? then Err(Internal)
    else Ok(s.(dialogs := s.dialogs + [Inserted(d)]))
  }

  function Inserted(d: Dialog): (row: Dialog)
    ensures row.contact == d.contact && row.role == d.role
    ensures row.isBot == d.isBot && row.autoLeave == d.autoLeave && row.live == d.live
  {
    d.(perms := d.perms.(reactMessages := true))
  }

  // ----- what the store interface documents -----

  /** The controller Pop is documented to leave: re-pointed only when m was the top. */
  function DocumentedController(s: ThreadState, m: MemberId): (controller: Option<MemberId>) {
    var rest := Minus(s.stack, {m});
    if Top(s.stack) != Some(m) then s.controller
    else if rest != [] then Top(rest)
    else s.owner
  }

  /** The statement re-points the controller to the top whoever is popped, so it does what its
      documentation says exactly when m was the top or the top held control anyway. */
  lemma PopMeetsItsDocumentation(s: ThreadState, m: MemberId, reason: Reason)
    requires Ordered(s.stack) && OnStack(s.stack, m)
    requires reason != Handoff && reason != ClientLeave
    ensures Pop(s, m, reason).Ok?
    ensures Pop(s, m, reason).value.state.controller == DocumentedController(s, m)
       <==> Top(s.stack) == Some(m) || s.controller == Top(s.stack)
  {
    if Top(s.stack) != Some(m) {
      MinusTop(s.stack, {m});
    }
  }

  /** The first push makes its bot the permanent owner exactly when it is the first created of the
      live bots off the stack. */
  lemma FirstPushMakesTheOwnerIff(s: ThreadState, m: MemberId)
    requires s.owner.None? && m < |s.dialogs| && BotOffStack(s.dialogs, s.stack, m)
    ensures Push(s, m).Ok?
    ensures Push(s, m).value.owner == Some(m)
       <==> forall k :: 0 <= k < |s.dialogs| && BotOffStack(s.dialogs, s.stack, k) && k != m ==> Before(s.dialogs, m, k)
  {
    var earliest := EarliestBotOffStack(s.dialogs, s.stack, |s.dialogs|);
    assert earliest.Some?;
    if earliest.value != m {
      assert Before(s.dialogs, earliest.value, m);
    }
  }

  /** Whoever Pop reports as the new top is the controller it leaves, and it reports nobody only
      when control is released, or falls to an owner that does not exist. */
  lemma PopReportsTheController(s: ThreadState, m: MemberId, reason: Reason)
    requires OnStack(s.stack, m)
    ensures Pop(s, m, reason).Ok?
    ensures
      var popped := Pop(s, m, reason).value;
      var reported := if popped.newTop.Some? then Some(popped.newTop.value.member) else None;
      reported == popped.state.controller
  {
    if Minus(s.stack, {m}) == [] {
      EmptiedByItsTop(s.stack, m);
    }
  }

  /** Who control falls to when m's entry is gone: the top that remains, else the owner. */
  function FallbackWithout(s: ThreadState, m: MemberId): (next: Option<MemberId>) {
    Fallback(s.(stack := Minus(s.stack, {m})))
  }

  /** And it does, when control is neither handed off nor released by the client. */
  lemma PopFallsBack(s: ThreadState, m: MemberId)
    requires OnStack(s.stack, m)
    ensures Pop(s, m, Completed).Ok? && Pop(s, m, Completed).value.state.controller == FallbackWithout(s, m)
  {
    if Minus(s.stack, {m}) == [] {
      EmptiedByItsTop(s.stack, m);
    }
  }

  /** Removing others leaves the top where it is. */
  lemma MinusTop(stack: seq<Entry>, gone: set<MemberId>)
    requires stack != [] && stack[|stack| - 1].member !in gone
    ensures Minus(stack, gone) != []
    ensures Minus(stack, gone)[|Minus(stack, gone)| - 1] == stack[|stack| - 1]
  {
  }
}
