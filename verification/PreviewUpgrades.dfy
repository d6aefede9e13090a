/** Upgrading a preview to a membership: when it succeeds, and how often a grant can be used. */
module PreviewUpgrades {
  import opened Wrappers
  import opened ThreadModel
  import opened BotControlStore
  import opened PreviewStore
  import opened ThreadOps
  import opened ThreadMachine
  import opened ThreadInvariant
  import opened Histories
  import P = Permissions

  predicate HasActivePreview(s: ThreadState, c: ContactId, now: int) {
    exists k :: 0 <= k < |s.previews| && Open(s.previews[k], c) && now < s.previews[k].expires
  }

  /** Nothing inside the transaction refuses an upgrade that found its preview. */
  lemma UpgradeGoesThrough(seen: ThreadState, s: ThreadState, c: ContactId, inviter: ContactId, role: Role,
      isBot: bool, now: int)
    requires Core(s) && role != Unspecified && FindContact(seen.dialogs, c).None?
    requires FindContact(s.dialogs, c).None? && FindActive(s.previews, c, now).Some?
    ensures UpgradePreview(seen, s, c, inviter, role, isBot, now).Ok?
  {
    var s1 := RunHook(s, c, ClosePreview(now)).value;
    HookKeeps(s, c, ClosePreview(now));
    var d := AddDialog(UpgradeRequest(c, inviter, role, isBot, now));
    CreateKeeps(s1, d);
    if isBot {
      ActivateKeeps(Create(s1, d).value, |s1.dialogs|);
    }
  }

  lemma ActiveIsFound(s: ThreadState, c: ContactId, now: int)
    ensures FindActive(s.previews, c, now).Some? <==> HasActivePreview(s, c, now)
    ensures FindContact(s.dialogs, c).Some? <==> HasContact(s, c)
  {
  }

  /** An upgrade succeeds exactly for a contact outside the thread, before and inside the
      transaction, with an active preview and a role that exists; no bot control step can refuse it. */
  lemma UpgradeSucceedsIff(seen: ThreadState, s: ThreadState, c: ContactId, inviter: ContactId, role: Role,
      isBot: bool, now: int)
    requires Core(s)
    ensures UpgradePreview(seen, s, c, inviter, role, isBot, now).Ok?
       <==> role != Unspecified && !HasContact(seen, c) && !HasContact(s, c) && HasActivePreview(s, c, now)
  {
    ActiveIsFound(s, c, now);
    ActiveIsFound(seen, c, now);
    if role != Unspecified && !HasContact(seen, c) && !HasContact(s, c) && HasActivePreview(s, c, now) {
      UpgradeGoesThrough(seen, s, c, inviter, role, isBot, now);
    }
  }

  /** The preview is closed and the member exists together: one unrevoked row turns upgraded and
      the contact becomes a live member with the role's default permissions. */
  lemma UpgradeClosesOneAndJoins(seen: ThreadState, s: ThreadState, c: ContactId, inviter: ContactId, role: Role,
      isBot: bool, now: int)
    requires Core(s) && UpgradePreview(seen, s, c, inviter, role, isBot, now).Ok?
    ensures
      var t := UpgradePreview(seen, s, c, inviter, role, isBot, now).value;
      var k := FindActive(s.previews, c, now).value;
      && t.previews == s.previews[k := s.previews[k].(closed := Some(ByUpgrade))]
      && !HasActivePreview(t, c, now)
      && IsMember(t, |s.dialogs|) && t.dialogs[|s.dialogs|].contact == c
      && t.dialogs[|s.dialogs|].perms == P.DefaultByRole(role).value
  {
    var t := UpgradePreview(seen, s, c, inviter, role, isBot, now).value;
    var k := FindActive(s.previews, c, now).value;
    var s1 := RunHook(s, c, ClosePreview(now)).value;
    var d := AddDialog(UpgradeRequest(c, inviter, role, isBot, now));
    if isBot {
      HookKeeps(s, c, ClosePreview(now));
      CreateKeeps(s1, d);
      AdoptKeeps(Create(s1, d).value, |s1.dialogs|);
    }
    forall i | 0 <= i < |t.previews|
      ensures !Open(t.previews[i], c)
    {
      if i != k {
        assert OneOpen(s.previews);
      }
    }
  }

  // ----- over a history -----

  predicate Upgrades(seen: ThreadState, s: ThreadState, op: Op, c: ContactId) {
    op.Upgrade? && op.contact == c && Attempt(seen, s, op).Ok?
  }

  function UpgradesIn(s: ThreadState, calls: seq<Call>, c: ContactId): (n: nat)
    requires Timely(calls)
    decreases |calls|
  {
    if calls == [] then 0
    else
      var n := |calls| - 1;
      var h := History(s, calls[..n]);
      UpgradesIn(s, calls[..n], c) + if Upgrades(h[calls[n].checked], h[n], calls[n].op, c) then 1 else 0
  }

  function GivesIn(calls: seq<Call>, c: ContactId): (n: nat) {
    if calls == [] then 0
    else
      var op := calls[|calls| - 1].op;
      GivesIn(calls[..|calls| - 1], c) + if op.Give? && op.contact == c then 1 else 0
  }

  lemma AddKeepsPreviews(seen: ThreadState, s: ThreadState, req: AddRequest, hook: Hook)
    ensures AddMember(seen, s, req, hook).Ok? ==>
      && RunHook(s, req.contact, hook).Ok?
      && AddMember(seen, s, req, hook).value.previews == RunHook(s, req.contact, hook).value.previews
  {
  }

  /** Only giving, withdrawing and upgrading touch the previews. */
  lemma OthersKeepPreviews(seen: ThreadState, s: ThreadState, op: Op)
    requires !op.Give? && !op.Withdraw? && !op.Upgrade?
    ensures Commit(seen, s, op).previews == s.previews
  {
    if op.Add? {
      AddKeepsPreviews(seen, s, op.add, NoHook);
    }
  }

  lemma CountAfterRevoke(previews: seq<Preview>, k: nat, how: Closing, c: ContactId)
    requires k < |previews| && previews[k].closed.None?
    ensures Count(Revoke(previews, k, how), c, false) == Count(previews, c, false)
    ensures Count(Revoke(previews, k, how), c, true) ==
      Count(previews, c, true) + if how == ByUpgrade && previews[k].contact == c then 1 else 0
  {
    CountAfterUpdate(previews, k, previews[k].(closed := Some(how)), c, true);
    CountAfterUpdate(previews, k, previews[k].(closed := Some(how)), c, false);
  }

  lemma UpgradeCounts(seen: ThreadState, s: ThreadState, d: ContactId, inviter: ContactId, role: Role, isBot: bool,
      now: int, c: ContactId)
    requires UpgradePreview(seen, s, d, inviter, role, isBot, now).Ok?
    ensures
      var t := UpgradePreview(seen, s, d, inviter, role, isBot, now).value;
      && Count(t.previews, c, true) == Count(s.previews, c, true) + (if d == c then 1 else 0)
      && Count(t.previews, c, false) == Count(s.previews, c, false)
  {
    AddKeepsPreviews(seen, s, UpgradeRequest(d, inviter, role, isBot, now), ClosePreview(now));
    CountAfterRevoke(s.previews, FindActive(s.previews, d, now).value, ByUpgrade, c);
  }

  lemma StepCounts(seen: ThreadState, s: ThreadState, op: Op, c: ContactId)
    ensures Count(Commit(seen, s, op).previews, c, true) ==
      Count(s.previews, c, true) + if Upgrades(seen, s, op, c) then 1 else 0
    ensures Count(Commit(seen, s, op).previews, c, false) <=
      Count(s.previews, c, false) + if op.Give? && op.contact == c then 1 else 0
  {
    match op
    case Give(d, ttl, now) => CountAfterUpsert(s.previews, d, ttl, now, c);
    case Withdraw(d, now) =>
      if FindActive(s.previews, d, now).Some? {
        CountAfterRevoke(s.previews, FindActive(s.previews, d, now).value, ByRemove, c);
      }
    case Upgrade(d, i, role, isBot, now) =>
      if Attempt(seen, s, op).Ok? {
        UpgradeCounts(seen, s, d, i, role, isBot, now, c);
      }
    case _ => OthersKeepPreviews(seen, s, op);
  }

  /** Conservation: over any history, each successful upgrade of a contact closes one row of its
      own, so upgrades never outnumber the previews granted to that contact. */
  lemma {:induction false} UpgradesConsumeGrants(s: ThreadState, calls: seq<Call>, c: ContactId)
    requires Timely(calls)
    ensures
      var end := Last(History(s, calls));
      && Count(end.previews, c, true) == Count(s.previews, c, true) + UpgradesIn(s, calls, c)
      && Count(end.previews, c, false) <= Count(s.previews, c, false) + GivesIn(calls, c)
      && UpgradesIn(s, calls, c) <= Count(s.previews, c, false) - Count(s.previews, c, true) + GivesIn(calls, c)
    decreases |calls|
  {
    if calls != [] {
      var n := |calls| - 1;
      BeforeLast(s, calls);
      var h := History(s, calls[..n]);
      StepCounts(h[calls[n].checked], h[n], calls[n].op, c);
      UpgradesConsumeGrants(s, calls[..n], c);
    }
    UpgradedWithinGranted(Last(History(s, calls)).previews, c);
  }
}
