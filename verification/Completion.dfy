/** Completions arrive late, twice and in any order: what a run of them adds up to. */
module Completion {
  import opened Wrappers
  import opened ThreadModel
  import opened BotControlStore
  import opened ThreadOps
  import opened ThreadMachine
  import opened Histories

  function Completions(callers: seq<MemberId>): (ops: seq<Op>) {
    seq(|callers|, i requires 0 <= i < |callers| => Complete(callers[i]))
  }

  function Callers(callers: seq<MemberId>): (ms: set<MemberId>) {
    set m | m in callers
  }

  /** The callers a run removes: those on the stack, except the owner. */
  function Completing(s: ThreadState, callers: set<MemberId>): (gone: set<MemberId>) {
    set m | m in callers && OnStack(s.stack, m) && s.owner != Some(m)
  }

  function Retire(dialogs: seq<Dialog>, gone: set<MemberId>): (after: seq<Dialog>) {
    seq(|dialogs|, m requires 0 <= m < |dialogs| =>
      if m in gone && dialogs[m].autoLeave then dialogs[m].(live := false) else dialogs[m])
  }

  /** The thread after some members completed, but for its outbox. */
  function Without(s: ThreadState, gone: set<MemberId>): (t: ThreadState) {
    var rest := Minus(s.stack, gone);
    s.(stack := rest,
       dialogs := Retire(s.dialogs, gone),
       controller := if gone == {} then s.controller else if rest != [] then Top(rest) else s.owner)
  }

  /** A thread as its readers see it, leaving out what was announced. */
  function Rows(s: ThreadState): (t: ThreadState) {
    s.(outbox := [])
  }

  lemma OneCompletion(s: ThreadState, m: MemberId)
    ensures CompleteBotControl(s, s, m).Ok?
    ensures Rows(Step(s, Complete(m))) == Rows(Without(s, Completing(s, {m})))
  {
    if OnStack(s.stack, m) && s.owner != Some(m) {
      assert Completing(s, {m}) == {m};
      var t := Pop(s, m, Completed).value.state;
      assert t.dialogs == Retire(s.dialogs, {m});
      if Minus(s.stack, {m}) == [] {
        EmptiedByItsTop(s.stack, m);
      }
    } else {
      assert Completing(s, {m}) == {};
      MinusNothing(s.stack, {});
      assert s.dialogs == Retire(s.dialogs, {});
    }
  }

  lemma CompletingComposes(s: ThreadState, a: set<MemberId>, b: set<MemberId>)
    ensures
      Settled(Without(s, Completing(s, a)), b) == Settled(s, a + b)
  {
    var gone := Completing(s, a);
    var mid := Without(s, gone);
    var more := Completing(mid, b);
    MinusMembers(s.stack, gone);
    assert gone + more == Completing(s, a + b);
    MinusTwice(s.stack, gone, more);
    assert Retire(Retire(s.dialogs, gone), more) == Retire(s.dialogs, gone + more);
    if more == {} {
      assert gone + more == gone;
    }
  }

  /** The rows once a set of members has called. */
  function Settled(s: ThreadState, callers: set<MemberId>): (t: ThreadState) {
    Rows(Without(s, Completing(s, callers)))
  }

  lemma RowsDecideCompletion(s: ThreadState, t: ThreadState, callers: set<MemberId>)
    requires Rows(s) == Rows(t)
    ensures Settled(s, callers) == Settled(t, callers)
  {
    assert s.stack == Rows(s).stack && t.stack == Rows(t).stack;
    assert s == Rows(s).(outbox := s.outbox) && t == Rows(t).(outbox := t.outbox);
    assert Completing(s, callers) == Completing(t, callers);
  }

  /** The rows after any run of completions, in closed form: the non-owner callers are gone from
      the stack, the auto_leave ones among them from the thread, and the controller is what remains. */
  lemma {:induction false} RunOfCompletions(s: ThreadState, callers: seq<MemberId>)
    ensures Rows(Run(s, Completions(callers))) == Settled(s, Callers(callers))
    decreases |callers|
  {
    var ops := Completions(callers);
    if callers == [] {
      assert Completing(s, Callers(callers)) == {};
      MinusNothing(s.stack, {});
      assert s.dialogs == Retire(s.dialogs, {});
    } else {
      var m, rest := callers[0], callers[1..];
      var t := Step(s, ops[0]);
      assert ops[1..] == Completions(rest);
      OneCompletion(s, m);
      RunOfCompletions(t, rest);
      RowsDecideCompletion(t, Without(s, Completing(s, {m})), Callers(rest));
      CompletingComposes(s, {m}, Callers(rest));
      assert Callers(callers) == {m} + Callers(rest);
    }
  }

  /** Completion is confluent: only who called matters, not in what order or how often. */
  lemma CompletionIsConfluent(s: ThreadState, a: seq<MemberId>, b: seq<MemberId>)
    requires Callers(a) == Callers(b)
    ensures Rows(Run(s, Completions(a))) == Rows(Run(s, Completions(b)))
  {
    RunOfCompletions(s, a);
    RunOfCompletions(s, b);
  }

  /** The owner bot never completes: it keeps its entry, and takes control back silently when it
      is all that remains on top. */
  lemma OwnerOutlastsCompletions(s: ThreadState, callers: seq<MemberId>, owner: MemberId)
    requires s.owner == Some(owner)
    ensures OnStack(s.stack, owner) ==> OnStack(Run(s, Completions(callers)).stack, owner)
    ensures
      var gone := Completing(s, Callers(callers));
      gone != {} && (Minus(s.stack, gone) == [] || Top(Minus(s.stack, gone)) == Some(owner))
      ==> Run(s, Completions(callers)).controller == Some(owner)
  {
    RunOfCompletions(s, callers);
    MinusMembers(s.stack, Completing(s, Callers(callers)));
    assert Rows(Run(s, Completions(callers))).stack == Run(s, Completions(callers)).stack;
    assert Rows(Run(s, Completions(callers))).controller == Run(s, Completions(callers)).controller;
  }

  /** From s to t the outbox only grew, and no new grant names the owner. */
  predicate SparesTheOwner(s: ThreadState, t: ThreadState) {
    && t.owner == s.owner && s.outbox <= t.outbox
    && forall i :: |s.outbox| <= i < |t.outbox| && t.outbox[i].Granted? ==> Some(t.outbox[i].member) != s.owner
  }

  lemma SparingIsTransitive(s: ThreadState, mid: ThreadState, t: ThreadState)
    requires SparesTheOwner(s, mid) && SparesTheOwner(mid, t)
    ensures SparesTheOwner(s, t)
  {
    assert forall i :: 0 <= i < |mid.outbox| ==> t.outbox[i] == mid.outbox[i];
  }

  /** No completion hands control to the owner with a grant, which would start its flow at once. */
  lemma {:induction false} OwnerIsNeverGranted(s: ThreadState, callers: seq<MemberId>)
    ensures SparesTheOwner(s, Run(s, Completions(callers)))
    decreases |callers|
  {
    if callers != [] {
      assert Completions(callers)[1..] == Completions(callers[1..]);
      var mid := Step(s, Complete(callers[0]));
      OwnerIsNeverGranted(mid, callers[1..]);
      SparingIsTransitive(s, mid, Run(mid, Completions(callers[1..])));
    }
  }

  // ----- a completion below the top -----

  /** The service means a completion below the top to leave the active controller alone. It does
      exactly when the top held control. */
  lemma LowerCompletionKeepsControllerIff(s: ThreadState, m: MemberId)
    requires OnStack(s.stack, m) && s.owner != Some(m) && Top(s.stack) != Some(m)
    ensures Step(s, Complete(m)).controller == s.controller <==> s.controller == Top(s.stack)
    ensures Step(s, Complete(m)).outbox == s.outbox
  {
    MinusTop(s.stack, {m});
  }

  /** An operator who has taken over loses control to the top bot, without a word, when a bot below
      it completes. */
  lemma LowerCompletionUndoesTakeOver(s: ThreadState, a: ContactId, m: MemberId)
    requires ActsAsOperator(s, a) && s.controller == Top(s.stack)
    requires OnStack(s.stack, m) && s.owner != Some(m) && Top(s.stack) != Some(m)
    ensures
      var t := Run(s, [TakeOver(a), Complete(m)]);
      t.controller == s.controller && t.outbox == s.outbox + [Released(s.controller.value, 0, AgentTakeover, None)]
  {
    var t1 := Step(s, TakeOver(a));
    assert t1.stack == s.stack && t1.owner == s.owner && t1.controller.None?;
    LowerCompletionKeepsControllerIff(t1, m);
    MinusTop(t1.stack, {m});
    RunOfTwo(s, TakeOver(a), Complete(m));
  }
}
