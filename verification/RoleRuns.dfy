/** Permissions and roles over histories of joins, transfers and permission changes. */
module RoleRuns {
  import opened Wrappers
  import opened ThreadModel
  import opened BotControlStore
  import opened ThreadOps
  import opened ThreadMachine
  import opened Histories
  import P = Permissions

  predicate AllPermitted(s: ThreadState) {
    forall m :: 0 <= m < |s.dialogs| ==> P.Permitted(s.dialogs[m])
  }

  /** Nobody who is in the thread outranks the bound. */
  predicate RankedBy(s: ThreadState, bound: nat) {
    forall m :: 0 <= m < |s.dialogs| && s.dialogs[m].live ==> Rank(s.dialogs[m].role) <= bound
  }

  /** A permission change carries the initiator that makes it checked. */
  predicate Checked(op: Op) {
    op.Permit? ==> op.permit.initiator.Some?
  }

  /** A join made by a member of the thread, not by a trusted system caller. */
  predicate Verified(op: Op) {
    && (op.Add? ==> !op.add.systemCall && op.add.initiator.Some?)
    && !op.Upgrade?
  }

  // ----- rows that stay, rows that are new -----

  /** The dialog an operation inserts, if it commits. */
  function Joining(seen: ThreadState, op: Op): (d: Option<Dialog>) {
    match op
    case Add(req) => if AdmitAdd(seen, req).None? then Some(AddDialog(req)) else None
    case Upgrade(c, i, role, isBot, now) =>
      var req := UpgradeRequest(c, i, role, isBot, now);
      if P.DefaultByRole(role).Some? && AdmitAdd(seen, req).None? then Some(AddDialog(req)) else None
    case Transfers(req, _) => if AdmitTransfer(seen, req).None? then Some(TransferDialog(seen, req)) else None
    case _ => None
  }

  /** From s to t, old rows keep their permissions, and t has at most one row more, with the role
      and the permissions of the dialog that joins. */
  predicate RolesKept(s: ThreadState, t: ThreadState, joining: Option<Dialog>) {
    && |s.dialogs| <= |t.dialogs| <= |s.dialogs| + 1
    && (forall m :: 0 <= m < |s.dialogs| ==> t.dialogs[m].perms == s.dialogs[m].perms)
    && (|t.dialogs| > |s.dialogs| ==>
          && joining.Some? && t.dialogs[|s.dialogs|].role == joining.value.role
          && t.dialogs[|s.dialogs|].perms == Inserted(joining.value).perms)
  }

  lemma ActivateKeepsRoles(s: ThreadState, m: MemberId)
    ensures ActivateBot(s, m).Ok? ==>
      && |ActivateBot(s, m).value.dialogs| == |s.dialogs|
      && forall k :: 0 <= k < |s.dialogs| ==>
           && ActivateBot(s, m).value.dialogs[k].perms == s.dialogs[k].perms
           && ActivateBot(s, m).value.dialogs[k].role == s.dialogs[k].role
  {
  }

  lemma AddJoins(seen: ThreadState, s: ThreadState, req: AddRequest, hook: Hook)
    requires AddMember(seen, s, req, hook).Ok?
    ensures RolesKept(s, AddMember(seen, s, req, hook).value, Some(AddDialog(req)))
    ensures |AddMember(seen, s, req, hook).value.dialogs| == |s.dialogs| + 1
  {
    var s1 := RunHook(s, req.contact, hook).value;
    if req.isBot {
      ActivateKeepsRoles(Create(s1, AddDialog(req)).value, |s1.dialogs|);
    }
  }

  lemma SwapControlKeepsRoles(s: ThreadState, joined: MemberId, left: MemberId, fromBot: bool, toBot: bool,
      role: Role, cleaned: bool)
    requires SwapControl(s, joined, left, fromBot, toBot, role, cleaned).Ok?
    ensures
      var t := SwapControl(s, joined, left, fromBot, toBot, role, cleaned).value;
      && |t.dialogs| == |s.dialogs|
      && forall k :: 0 <= k < |s.dialogs| ==>
           t.dialogs[k].perms == s.dialogs[k].perms && t.dialogs[k].role == s.dialogs[k].role
  {
    ActivateKeepsRoles(s, joined);
  }

  lemma TransferJoins(seen: ThreadState, s: ThreadState, req: TransferRequest, cleaned: bool)
    requires Transfer(seen, s, req, cleaned).Ok?
    ensures RolesKept(s, Transfer(seen, s, req, cleaned).value, Some(TransferDialog(seen, req)))
  {
    var i := FindContact(seen.dialogs, req.initiator).value;
    SwapControlKeepsRoles(SwapDialogs(s, TransferDialog(seen, req), i).value, |s.dialogs|, i, seen.dialogs[i].isBot,
                          req.targetIsBot, req.role, cleaned);
  }

  lemma RemoveKeepsRoles(seen: ThreadState, s: ThreadState, req: RemoveRequest)
    requires RemoveMember(seen, s, req).Ok?
    ensures RolesKept(s, RemoveMember(seen, s, req).value, None)
  {
  }

  /** Only a permission change rewrites permissions, and only a join brings in a row: that of the
      dialog it was admitted with. */
  lemma StepKeepsRoles(seen: ThreadState, s: ThreadState, op: Op)
    requires !op.Permit?
    ensures RolesKept(s, Commit(seen, s, op), Joining(seen, op))
  {
    if Attempt(seen, s, op).Ok? {
      match op
      case Add(req) => AddJoins(seen, s, req, NoHook);
      case Transfers(req, cleaned) => TransferJoins(seen, s, req, cleaned);
      case Upgrade(c, i, role, isBot, now) =>
        AddJoins(seen, s, UpgradeRequest(c, i, role, isBot, now), ClosePreview(now));
      case Remove(req) => RemoveKeepsRoles(seen, s, req);
      case _ =>
    }
  }

  // ----- permissions -----

  lemma JoiningIsPermitted(seen: ThreadState, op: Op)
    requires AllPermitted(seen) && Joining(seen, op).Some?
    ensures P.Permitted(Inserted(Joining(seen, op).value))
  {
  }

  lemma ChangeKeepsPermitted(seen: ThreadState, s: ThreadState, req: PermitRequest)
    requires AllPermitted(s) && Older(seen, s) && req.initiator.Some? && UpdatePermissions(seen, s, req).Ok?
    ensures AllPermitted(UpdatePermissions(seen, s, req).value)
  {
    assert OlderRow(seen.dialogs[req.target.member], s.dialogs[req.target.member]);
    ChangeIsPermitted(seen.dialogs[req.target.member], s.dialogs[req.target.member], req.changes);
  }

  /** A change that the allowance of a row's role lets through keeps that row permitted at any later time. */
  lemma ChangeIsPermitted(d: Dialog, e: Dialog, c: P.Changes)
    requires P.Permitted(e) && d.role == e.role && P.Touches(c, P.AllowedByRole(d.role).value)
    ensures P.Permitted(e.(perms := P.Apply(e.perms, c)))
  {
  }

  lemma RowsStayPermitted(s: ThreadState, t: ThreadState, joining: Option<Dialog>)
    requires AllPermitted(s) && Older(s, t) && RolesKept(s, t, joining)
    requires joining.Some? ==> P.Permitted(Inserted(joining.value))
    ensures AllPermitted(t)
  {
    forall m | 0 <= m < |t.dialogs|
      ensures P.Permitted(t.dialogs[m])
    {
      if m < |s.dialogs| {
        assert OlderRow(s.dialogs[m], t.dialogs[m]) && P.Permitted(s.dialogs[m]);
      }
    }
  }

  lemma StepKeepsPermitted(seen: ThreadState, s: ThreadState, op: Op)
    requires AllPermitted(seen) && AllPermitted(s) && Older(seen, s) && Checked(op)
    ensures AllPermitted(Commit(seen, s, op))
  {
    if Attempt(seen, s, op).Ok? {
      if op.Permit? {
        ChangeKeepsPermitted(seen, s, op.permit);
      } else {
        StepKeepsRoles(seen, s, op);
        StepAges(seen, s, op);
        if Joining(seen, op).Some? {
          JoiningIsPermitted(seen, op);
        }
        RowsStayPermitted(s, Commit(seen, s, op), Joining(seen, op));
      }
    }
  }

  /** Over any history of checked changes every member's permissions stay within its role's allowance. */
  lemma {:induction false} HistoryKeepsPermitted(s: ThreadState, calls: seq<Call>)
    requires AllPermitted(s) && Timely(calls) && forall i :: 0 <= i < |calls| ==> Checked(calls[i].op)
    ensures forall k :: 0 <= k <= |calls| ==> AllPermitted(History(s, calls)[k])
    decreases |calls|
  {
    if calls != [] {
      var n := |calls| - 1;
      BeforeLast(s, calls);
      HistoryKeepsPermitted(s, calls[..n]);
      HistoryAges(s, calls);
      var h := History(s, calls);
      assert AllPermitted(History(s, calls[..n])[calls[n].checked]) && AllPermitted(History(s, calls[..n])[n]);
      StepKeepsPermitted(h[calls[n].checked], h[n], calls[n].op);
    }
  }

  // ----- checked changes, as the queries let them through -----

  /** A checked change never gets through a statement that compares its target with contacts, nor,
      when it touches reacting, past a lookup that does not select that column. */
  lemma CheckedChangeNeedsItsQueries(seen: ThreadState, s: ThreadState, req: PermitRequest)
    requires req.initiator.Some? && UpdatePermissions(seen, s, req).Ok?
    ensures req.matchesDialog && (req.changes.reactMessages.Some? ==> req.loadsReact)
  {
  }

  // ----- ranks -----

  /** The contact on whose behalf an operation joins somebody. */
  function Inviter(op: Op): (c: Option<ContactId>) {
    match op
    case Add(req) => req.initiator
    case Transfers(req, _) => Some(req.initiator)
    case _ => None
  }

  /** A verified join or transfer brings in a role no higher than that of its inviter, who was a
      member of the thread when it was checked. */
  lemma JoinsRankBelowTheirInviter(seen: ThreadState, op: Op)
    requires Verified(op) && Joining(seen, op).Some?
    ensures
      && Inviter(op).Some?
      && var i := FindContact(seen.dialogs, Inviter(op).value);
      && i.Some? && IsMember(seen, i.value)
      && Rank(Joining(seen, op).value.role) <= Rank(seen.dialogs[i.value].role)
  {
  }

  lemma RowsStayRanked(s: ThreadState, t: ThreadState, joining: Option<Dialog>, bound: nat)
    requires RankedBy(s, bound) && Older(s, t) && RolesKept(s, t, joining)
    requires joining.Some? ==> Rank(joining.value.role) <= bound
    ensures RankedBy(t, bound)
  {
    forall m | 0 <= m < |t.dialogs| && t.dialogs[m].live
      ensures Rank(t.dialogs[m].role) <= bound
    {
      if m < |s.dialogs| {
        assert OlderRow(s.dialogs[m], t.dialogs[m]);
      }
    }
  }

  lemma PermitKeepsRanks(seen: ThreadState, s: ThreadState, op: Op, bound: nat)
    requires RankedBy(s, bound) && op.Permit?
    ensures RankedBy(Commit(seen, s, op), bound)
  {
  }

  lemma StepKeepsRanks(seen: ThreadState, s: ThreadState, op: Op, bound: nat)
    requires RankedBy(seen, bound) && RankedBy(s, bound) && Verified(op)
    ensures RankedBy(Commit(seen, s, op), bound)
  {
    if op.Permit? {
      PermitKeepsRanks(seen, s, op, bound);
    } else {
      StepAges(seen, s, op);
      StepKeepsRoles(seen, s, op);
      if Joining(seen, op).Some? {
        JoinsRankBelowTheirInviter(seen, op);
      }
      RowsStayRanked(s, Commit(seen, s, op), Joining(seen, op), bound);
    }
  }

  /** Over any history of verified joins and transfers nobody in the thread comes to outrank its
      highest member. */
  lemma {:induction false} HistoryNeverEscalates(s: ThreadState, calls: seq<Call>, bound: nat)
    requires RankedBy(s, bound) && Timely(calls) && forall i :: 0 <= i < |calls| ==> Verified(calls[i].op)
    ensures forall k :: 0 <= k <= |calls| ==> RankedBy(History(s, calls)[k], bound)
    decreases |calls|
  {
    if calls != [] {
      var n := |calls| - 1;
      BeforeLast(s, calls);
      HistoryNeverEscalates(s, calls[..n], bound);
      var h := History(s, calls);
      assert RankedBy(History(s, calls[..n])[calls[n].checked], bound) && RankedBy(History(s, calls[..n])[n], bound);
      StepKeepsRanks(h[calls[n].checked], h[n], calls[n].op, bound);
    }
  }

  // ----- what a join hands out -----

  /** A verified join hands out only what its inviter holds exactly if the new role's defaults lie
      within that, or, for a transfer within one role, if the inviter may react. */
  lemma JoinHandsOutOnlyHeldIff(seen: ThreadState, op: Op)
    requires Verified(op) && Joining(seen, op).Some?
    ensures Inviter(op).Some? && FindContact(seen.dialogs, Inviter(op).value).Some?
    ensures
      var i := seen.dialogs[FindContact(seen.dialogs, Inviter(op).value).value];
      var d := Joining(seen, op).value;
      P.Within(Inserted(d).perms, i.perms)
      <==> if op.Transfers? && i.role == d.role then i.perms.reactMessages
          else P.Within(P.DefaultByRole(d.role).value, i.perms)
  {
  }

  /** Among members who hold their role's defaults exactly one pair fails: a supervisor outranks an
      admin but holds less. */
  lemma OnlySupervisorsHandOutMore(seen: ThreadState, op: Op)
    requires Verified(op) && Joining(seen, op).Some?
    requires forall m :: 0 <= m < |seen.dialogs| ==>
      P.DefaultByRole(seen.dialogs[m].role) == Some(seen.dialogs[m].perms)
    ensures Inviter(op).Some? && FindContact(seen.dialogs, Inviter(op).value).Some?
    ensures
      var i := seen.dialogs[FindContact(seen.dialogs, Inviter(op).value).value];
      P.Within(Inserted(Joining(seen, op).value).perms, i.perms)
      <==> !(i.role == Supervisor && Joining(seen, op).value.role == Admin)
  {
    JoinHandsOutOnlyHeldIff(seen, op);
  }

  /** Whatever changes were made to a supervisor's permissions, an admin it adds holds more. */
  lemma SupervisorAlwaysHandsOutMore(seen: ThreadState, op: Op)
    requires AllPermitted(seen) && Verified(op) && Joining(seen, op).Some? && Joining(seen, op).value.role == Admin
    ensures Inviter(op).Some? && FindContact(seen.dialogs, Inviter(op).value).Some?
    ensures
      var i := seen.dialogs[FindContact(seen.dialogs, Inviter(op).value).value];
      i.role == Supervisor ==> !P.Within(Inserted(Joining(seen, op).value).perms, i.perms)
  {
    JoinHandsOutOnlyHeldIff(seen, op);
  }

  // ----- releasing a bot -----

  /** A verified removal of a bot is admitted for itself and for members who may remove others and
      rank no lower than the bot; if the lookup does not carry the bot columns they have to rank higher. */
  lemma BotRemovalAdmittedIff(seen: ThreadState, req: RemoveRequest)
    requires IsMember(seen, req.target) && seen.dialogs[req.target].isBot && !req.systemCall && req.initiator.Some?
    ensures
      var i := FindContact(seen.dialogs, req.initiator.value);
      AdmitRemove(seen, req).None?
      <==> && i.Some?
           && (i.value == req.target
               || (&& seen.dialogs[i.value].perms.removeMembers
                   && Rank(seen.dialogs[req.target].role) <= Rank(seen.dialogs[i.value].role)
                   && (!req.carriesBotFlags ==> seen.dialogs[req.target].role != seen.dialogs[i.value].role)))
  {
  }

  /** Without the bot columns nobody else can release a bot that holds the highest role, as the bot
      of every direct thread does. */
  lemma OwnerBotIsNeverReleased(seen: ThreadState, req: RemoveRequest)
    requires IsMember(seen, req.target) && seen.dialogs[req.target].isBot && seen.dialogs[req.target].role == Owner
    requires !req.systemCall && req.initiator.Some? && !req.carriesBotFlags
    requires FindContact(seen.dialogs, req.initiator.value) != Some(req.target)
    ensures AdmitRemove(seen, req).Some?
  {
    BotRemovalAdmittedIff(seen, req);
  }
}
