/** Who is admitted to what, and which error everybody else gets, with roles and rights spelled out. */
module Answers {
  import opened Wrappers
  import opened ThreadModel
  import opened BotControlStore
  import opened PreviewStore
  import opened ThreadOps
  import opened ThreadInvariant
  import opened Strandings
  import opened Outcomes
  import P = Permissions

  // ----- words -----

  /** A role is no higher than another: the client is highest, then supervisors, admins, members. */
  predicate NoHigher(role: Role, than: Role) {
    match than
    case Owner => true
    case Supervisor => role != Owner
    case Admin => role in {Unspecified, Member, Admin}
    case Member => role in {Unspecified, Member}
    case Unspecified => role == Unspecified
  }

  lemma RanksOrderRoles(role: Role, than: Role)
    ensures Rank(role) <= Rank(than) <==> NoHigher(role, than)
  {
  }

  /** The contact is a live member who may add members and ranks no lower than the role, and the
      privacy service agrees. */
  predicate MayInvite(seen: ThreadState, c: ContactId, role: Role, invitable: bool) {
    exists i :: 0 <= i < |seen.dialogs| && seen.dialogs[i].live && seen.dialogs[i].contact == c
      && seen.dialogs[i].perms.addMembers && NoHigher(role, seen.dialogs[i].role) && invitable
  }

  lemma FoundIff(dialogs: seq<Dialog>, s: ThreadState, c: ContactId)
    requires dialogs == s.dialogs
    ensures FindContact(dialogs, c).Some? <==> HasContact(s, c)
  {
  }

  lemma InviterIsVerified(seen: ThreadState, who: ContactId, c: ContactId, role: Role, invitable: bool)
    requires OneDialogPerContact(seen.dialogs) && !HasContact(seen, c)
    ensures
      P.VerifyAdd(DialogOf(seen, FindContact(seen.dialogs, who)), c, role, invitable) ==
      if !HasContact(seen, who) then Some(NotFound) else if !MayInvite(seen, who, role, invitable)
          then Some(Forbidden) else None
  {
    FoundIff(seen.dialogs, seen, who);
    FoundIff(seen.dialogs, seen, c);
    OnlyDialogOf(seen.dialogs, who);
    if HasContact(seen, who) {
      RanksOrderRoles(role, seen.dialogs[FindContact(seen.dialogs, who).value].role);
    }
  }

  // ----- adding -----

  /** The error an add meets when it is checked, in the order of the checks. */
  function AddObjection(seen: ThreadState, req: AddRequest): (objection: Option<Error>) {
    if HasContact(seen, req.contact) then Some(AlreadyExists)
    else if !req.systemCall && req.initiator.Some? && !HasContact(seen, req.initiator.value) then Some(NotFound)
    else if !req.systemCall && req.initiator.Some? && !MayInvite(seen, req.initiator.value, req.role, req.invitable)
    then Some(Forbidden)
    else if req.role == Unspecified then Some(Unknown)
    else None
  }

  /** The error it meets at all: others may have added the contact since. */
  function AddRefusal(seen: ThreadState, s: ThreadState, req: AddRequest): (refusal: Option<Error>) {
    if AddObjection(seen, req).Some? then AddObjection(seen, req)
    else if HasContact(s, req.contact) then Some(Internal)
    else None
  }

  lemma AddIsAdmitted(seen: ThreadState, req: AddRequest)
    requires OneDialogPerContact(seen.dialogs)
    ensures AdmitAdd(seen, req) == AddObjection(seen, req)
  {
    FoundIff(seen.dialogs, seen, req.contact);
    if !HasContact(seen, req.contact) && req.initiator.Some? {
      InviterIsVerified(seen, req.initiator.value, req.contact, req.role, req.invitable);
    }
  }

  /** An add is refused exactly so, and succeeds otherwise: no bot control step refuses it. */
  lemma AddAnswers(seen: ThreadState, s: ThreadState, req: AddRequest)
    requires Core(s) && OneDialogPerContact(seen.dialogs)
    ensures AddRefusal(seen, s, req).Some? ==> AddMember(seen, s, req, NoHook) == Err(AddRefusal(seen, s, req).value)
    ensures AddRefusal(seen, s, req).None? ==> AddMember(seen, s, req, NoHook).Ok?
  {
    AddIsAdmitted(seen, req);
    FoundIff(s.dialogs, s, req.contact);
    if AddRefusal(seen, s, req).None? {
      CreateKeeps(s, AddDialog(req));
      if req.isBot {
        ActivateKeeps(Create(s, AddDialog(req)).value, |s.dialogs|);
      }
    }
  }

  // ----- transferring -----

  function TransferObjection(seen: ThreadState, req: TransferRequest): (objection: Option<Error>) {
    if !HasContact(seen, req.initiator) then Some(NotFound)
    else if HasContact(seen, req.contact) then Some(AlreadyExists)
    else if req.role == Unspecified then Some(Unknown)
    else if !MayInvite(seen, req.initiator, req.role, req.invitable) then Some(Forbidden)
    else None
  }

  function TransferRefusal(seen: ThreadState, s: ThreadState, req: TransferRequest): (refusal: Option<Error>) {
    if TransferObjection(seen, req).Some? then TransferObjection(seen, req)
    else if HasContact(s, req.contact) then Some(Internal)
    else if HandsOverWithoutEntry(seen, s, req) then Some(Internal)
    else None
  }

  predicate HasNoEntry(seen: ThreadState, s: ThreadState, req: TransferRequest, i: MemberId) {
    && Initiates(seen, req, i) && seen.dialogs[i].isBot
    && forall k :: 0 <= k < |s.stack| ==> s.stack[k].member != i
  }

  /** A bot hands over to a person but has no entry on the stack. */
  predicate HandsOverWithoutEntry(seen: ThreadState, s: ThreadState, req: TransferRequest) {
    && !req.targetIsBot
    && exists i :: 0 <= i < |seen.dialogs| && HasNoEntry(seen, s, req, i)
  }

  lemma TransferIsAdmitted(seen: ThreadState, req: TransferRequest)
    requires OneDialogPerContact(seen.dialogs)
    ensures AdmitTransfer(seen, req) == TransferObjection(seen, req)
  {
    FoundIff(seen.dialogs, seen, req.contact);
    FoundIff(seen.dialogs, seen, req.initiator);
    if !HasContact(seen, req.contact) {
      InviterIsVerified(seen, req.initiator, req.contact, req.role, req.invitable);
    }
  }

  lemma TransferGoesThrough(seen: ThreadState, s: ThreadState, req: TransferRequest, i: MemberId, cleaned: bool)
    requires Core(s) && Older(seen, s) && AdmitTransfer(seen, req).None? && !HasContact(s, req.contact)
    requires FindContact(seen.dialogs, req.initiator) == Some(i)
    ensures
      Transfer(seen, s, req, cleaned) ==
      if !req.targetIsBot && seen.dialogs[i].isBot && !OnStack(s.stack, i) then Err(Internal)
      else Ok(SwapControl(SwapDialogs(s, TransferDialog(seen, req), i).value, |s.dialogs|, i, seen.dialogs[i].isBot,
                          req.targetIsBot, req.role, cleaned).value)
  {
    FoundIff(s.dialogs, s, req.contact);
    SwapDialogsKeeps(s, TransferDialog(seen, req), i);
    if req.targetIsBot {
      ActivateKeeps(SwapDialogs(s, TransferDialog(seen, req), i).value, |s.dialogs|);
    }
  }

  /** A transfer is refused exactly so. */
  lemma TransferAnswers(seen: ThreadState, s: ThreadState, req: TransferRequest, cleaned: bool)
    requires Core(s) && Older(seen, s) && OneDialogPerContact(seen.dialogs)
    ensures TransferRefusal(seen, s, req).Some? ==>
      Transfer(seen, s, req, cleaned) == Err(TransferRefusal(seen, s, req).value)
    ensures TransferRefusal(seen, s, req).None? ==> Transfer(seen, s, req, cleaned).Ok?
  {
    TransferIsAdmitted(seen, req);
    FoundIff(s.dialogs, s, req.contact);
    if AdmitTransfer(seen, req).None? && !HasContact(s, req.contact) {
      var i := FindContact(seen.dialogs, req.initiator).value;
      OnlyDialogOf(seen.dialogs, req.initiator);
      assert HasNoEntry(seen, s, req, i) <==> seen.dialogs[i].isBot && !OnStack(s.stack, i);
      TransferGoesThrough(seen, s, req, i, cleaned);
    }
  }

  // ----- removing -----

  /** The contact is a live member who may remove others and outranks the target, or is the target.
      An equal rank is enough against a bot that is known for one. */
  predicate MayRemove(seen: ThreadState, who: ContactId, req: RemoveRequest)
    requires req.target < |seen.dialogs|
  {
    var target := seen.dialogs[req.target];
    exists i :: 0 <= i < |seen.dialogs| && seen.dialogs[i].live && seen.dialogs[i].contact == who
      && (i == req.target
          || (&& seen.dialogs[i].perms.removeMembers && NoHigher(target.role, seen.dialogs[i].role)
              && (target.role != seen.dialogs[i].role || (req.carriesBotFlags && target.isBot))))
  }

  function RemoveRefusal(seen: ThreadState, s: ThreadState, req: RemoveRequest): (refusal: Option<Error>) {
    if req.target >= |seen.dialogs| || !seen.dialogs[req.target].live then Some(NotFound)
    else if !req.systemCall && req.initiator.Some? && !HasContact(seen, req.initiator.value) then Some(NotFound)
    else if !req.systemCall && req.initiator.Some? && !MayRemove(seen, req.initiator.value, req) then Some(Forbidden)
    else if req.carriesBotFlags && seen.dialogs[req.target].isBot
      && (forall k :: 0 <= k < |s.stack| ==> s.stack[k].member != req.target) then Some(Internal)
    else None
  }

  /** A removal is refused exactly so. */
  lemma RemoveAnswers(seen: ThreadState, s: ThreadState, req: RemoveRequest)
    requires OneDialogPerContact(seen.dialogs)
    ensures RemoveRefusal(seen, s, req).Some? ==> RemoveMember(seen, s, req) == Err(RemoveRefusal(seen, s, req).value)
    ensures RemoveRefusal(seen, s, req).None? ==> RemoveMember(seen, s, req).Ok?
  {
    if req.initiator.Some? && IsMember(seen, req.target) {
      FoundIff(seen.dialogs, seen, req.initiator.value);
      OnlyDialogOf(seen.dialogs, req.initiator.value);
      if HasContact(seen, req.initiator.value) {
        var i := FindContact(seen.dialogs, req.initiator.value).value;
        RanksOrderRoles(seen.dialogs[req.target].role, seen.dialogs[i].role);
        RanksOrderRoles(seen.dialogs[i].role, seen.dialogs[req.target].role);
      }
    }
  }

  // ----- previews -----

  /** A preview is granted for up to an hour, to contacts outside the thread. */
  lemma GiveAnswers(s: ThreadState, c: ContactId, ttl: int, now: int)
    ensures
      GivePreview(s, c, ttl, now) ==
      if ttl < 1 || ttl > 60 * 60 * 1000 then Err(InvalidArgument)
      else if HasContact(s, c) then Err(AlreadyExists)
      else Ok(s.(previews := Upsert(s.previews, c, ttl, now)))
  {
    FoundIff(s.dialogs, s, c);
  }

  /** A granted preview runs until its time is over: exactly one row of the contact is unrevoked and
      ends then. No other contact's rows change. */
  lemma GivenPreviewRuns(previews: seq<Preview>, c: ContactId, ttl: int, now: int) returns (k: nat)
    requires OneOpen(previews) && ttl > 0
    ensures
      var after := Upsert(previews, c, ttl, now);
      && k < |after| && after[k] == Preview(c, now + ttl, None)
      && (forall i :: 0 <= i < |after| && i != k && after[i].contact == c ==> after[i].closed.Some?)
      && |previews| <= |after|
      && forall i :: 0 <= i < |previews| && previews[i].contact != c ==> after[i] == previews[i]
  {
    var kept, after := Expire(previews, c, now), Upsert(previews, c, ttl, now);
    var active := FindActive(kept, c, now);
    k := if active.Some? then active.value else |kept|;
    UpsertKeepsOneOpen(previews, c, ttl, now);
    assert after[k].contact == c && after[k].closed.None?;
    forall i | 0 <= i < |after| && i != k && after[i].contact == c
      ensures after[i].closed.Some?
    {
    }
  }

  /** Rows that lapsed unrevoked are marked so when the contact is given a preview again, and a
      running one is kept and moved. */
  lemma GivenPreviewMovesTheRunning(previews: seq<Preview>, c: ContactId, ttl: int, now: int, i: nat)
    requires OneOpen(previews) && i < |previews| && previews[i].contact == c && previews[i].closed.None?
    ensures
      var after := Upsert(previews, c, ttl, now);
      if previews[i].expires <= now then after == previews[i := previews[i].(closed := Some(ByExpiry))]
          + [Preview(c, now + ttl, None)]
      else after == previews[i := previews[i].(expires := now + ttl)]
  {
    var kept := Expire(previews, c, now);
    forall k | 0 <= k < |previews| && k != i
      ensures kept[k] == previews[k] && !Open(kept[k], c)
    {
    }
    assert kept == if previews[i].expires <= now then previews[i := previews[i].(closed := Some(ByExpiry))]
        else previews;
  }

  /** Withdrawing leaves the contact no running preview, and marks the one there was. */
  lemma WithdrawLeavesNone(s: ThreadState, c: ContactId, now: int)
    requires OneOpen(s.previews)
    ensures RemoveFromPreview(s, c, now).Ok?
    ensures
      var t := RemoveFromPreview(s, c, now).value;
      && t == s.(previews := t.previews) && |t.previews| == |s.previews|
      && forall i :: 0 <= i < |s.previews| ==>
           t.previews[i] ==
           if s.previews[i].contact == c && s.previews[i].closed.None? && now < s.previews[i].expires
           then s.previews[i].(closed := Some(ByRemove)) else s.previews[i]
  {
    var active := FindActive(s.previews, c, now);
    forall i | 0 <= i < |s.previews| && Open(s.previews[i], c) && now < s.previews[i].expires
      ensures active == Some(i)
    {
    }
  }

  /** An upgrade answers for the role, the membership and the preview in this order; when it goes
      through it is the trusted add of a member who has just lost its preview. */
  lemma UpgradeAnswers(seen: ThreadState, s: ThreadState, c: ContactId, inviter: ContactId, role: Role, isBot: bool,
      now: int)
    requires Core(s)
    ensures
      UpgradePreview(seen, s, c, inviter, role, isBot, now) ==
      if role == Unspecified then Err(InvalidArgument)
      else if HasContact(seen, c) then Err(AlreadyExists)
      else if FindActive(s.previews, c, now).None? then Err(FailedPrecondition)
      else
        var k := FindActive(s.previews, c, now).value;
        var closed := s.(previews := s.previews[k := s.previews[k].(closed := Some(ByUpgrade))]);
        AddMember(seen, closed, AddRequest(c, Some(inviter), role, isBot, None, true, true, now), NoHook)
  {
    FoundIff(seen.dialogs, seen, c);
  }

  // ----- permissions -----

  /** What a change may touch in a row of a role: members and supervisors are never given a say
      over other members' permissions or the thread's information. */
  predicate MayHold(role: Role, c: P.Changes) {
    match role
    case Owner => true
    case Admin => true
    case Supervisor => c.changeMembersPermissions.None? && c.changeThreadInfo.None?
    case Member => c.changeMembersPermissions.None? && c.changeThreadInfo.None?
    case Unspecified => false
  }

  /** A checked change goes on exactly from a member of strictly higher role who may change
      permissions and holds each one it touches, and for which the target's role may hold each. */
  predicate MayChange(seen: ThreadState, i: MemberId, m: MemberId, req: PermitRequest)
    requires i < |seen.dialogs| && m < |seen.dialogs|
  {
    var held, c := seen.dialogs[i].perms, req.changes;
    && i != m && !NoHigher(seen.dialogs[i].role, seen.dialogs[m].role)
    && held.changeMembersPermissions
    && (c.sendMessages.Some? ==> held.sendMessages) && (c.addMembers.Some? ==> held.addMembers)
    && (c.removeMembers.Some? ==> held.removeMembers)
    && (c.changeThreadInfo.Some? ==> held.changeThreadInfo) && (c.deleteMessages.Some? ==> held.deleteMessages)
    && (c.reactMessages.Some? ==> held.reactMessages && req.loadsReact)
    && MayHold(seen.dialogs[m].role, c)
  }

  lemma PermitAnswers(seen: ThreadState, req: PermitRequest, i: MemberId, m: MemberId)
    requires OneDialogPerContact(seen.dialogs) && req.initiator.Some? && req.target == OfDialog(m)
    requires i < |seen.dialogs| && seen.dialogs[i].live && seen.dialogs[i].contact == req.initiator.value
    requires m < |seen.dialogs| && seen.dialogs[m].live
    ensures AdmitPermit(seen, req) == if MayChange(seen, i, m, req) then None else Some(Unknown)
  {
    OnlyDialogOf(seen.dialogs, req.initiator.value);
    RanksOrderRoles(seen.dialogs[i].role, seen.dialogs[m].role);
  }

  /** A checked change of, or by, somebody who is not a member goes no further either; an unchecked
      one always does. */
  lemma PermitNeedsMembers(seen: ThreadState, req: PermitRequest)
    ensures req.initiator.None? ==> AdmitPermit(seen, req) == None
    ensures req.initiator.Some? && (req.target.OfContact? || !IsMember(seen, req.target.member)
                                    || !HasContact(seen, req.initiator.value))
      ==> AdmitPermit(seen, req) == Some(Unknown)
  {
    if req.initiator.Some? {
      FoundIff(seen.dialogs, seen, req.initiator.value);
    }
  }

  function Asked(c: Option<bool>, current: bool): (granted: bool) {
    match c
    case None => current
    case Some(granted) => granted
  }

  /** A change that goes through gives its target what it asks for and leaves the rest. */
  lemma PermitOutcome(seen: ThreadState, s: ThreadState, req: PermitRequest, m: MemberId)
    requires UpdatePermissions(seen, s, req).Ok? && req.target == OfDialog(m) && req.matchesDialog
    ensures m < |s.dialogs|
    ensures
      var p, c := s.dialogs[m].perms, req.changes;
      UpdatePermissions(seen, s, req).value == s.(dialogs := s.dialogs[m := s.dialogs[m].(perms :=
        Rights(Asked(c.sendMessages, p.sendMessages), Asked(c.addMembers, p.addMembers),
               Asked(c.removeMembers, p.removeMembers),
               Asked(c.changeMembersPermissions, p.changeMembersPermissions),
               Asked(c.changeThreadInfo, p.changeThreadInfo), Asked(c.deleteMessages, p.deleteMessages),
               Asked(c.reactMessages, p.reactMessages)))])
  {
    assert forall k :: k in Matching(s, req) ==> k == m;
    assert m in Matching(s, req);
  }

  /** Members and supervisors within their allowance have no say over permissions or information. */
  lemma RegularMembersHaveNoSay(d: Dialog)
    requires P.Permitted(d) && d.role in {Member, Supervisor}
    ensures !d.perms.changeMembersPermissions && !d.perms.changeThreadInfo
  {
  }
}
