/** The fixed role tables and the checks made before a member is added, removed or re-permitted. */
module Permissions {
  import opened Wrappers
  import opened ThreadModel

  /** What a change request asks for; None leaves a permission as it is. */
  datatype Changes = Changes(
    sendMessages: Option<bool>,
    addMembers: Option<bool>,
    removeMembers: Option<bool>,
    changeMembersPermissions: Option<bool>,
    changeThreadInfo: Option<bool>,
    deleteMessages: Option<bool>,
    reactMessages: Option<bool>)

  const FULL := Rights(true, true, true, true, true, true, true)
  const REGULAR := Rights(true, true, true, false, false, true, true)

  function AllowedByRole(role: Role): (limit: Option<Rights>) {
    match role
    case Owner => Some(FULL)
    case Admin => Some(FULL)
    case Supervisor => Some(REGULAR)
    case Member => Some(REGULAR)
    case Unspecified => None
  }

  function DefaultByRole(role: Role): (rights: Option<Rights>) {
    match role
    case Owner => Some(FULL)
    case Admin => Some(FULL)
    case Supervisor => Some(REGULAR)
    case Member => Some(REGULAR)
    case Unspecified => None
  }

  predicate Within(p: Rights, limit: Rights) {
    && (p.sendMessages ==> limit.sendMessages)
    && (p.addMembers ==> limit.addMembers)
    && (p.removeMembers ==> limit.removeMembers)
    && (p.changeMembersPermissions ==> limit.changeMembersPermissions)
    && (p.changeThreadInfo ==> limit.changeThreadInfo)
    && (p.deleteMessages ==> limit.deleteMessages)
    && (p.reactMessages ==> limit.reactMessages)
  }

  /** A dialog's role is a known one and its permissions stay inside the role's allowance. */
  predicate Permitted(d: Dialog) {
    AllowedByRole(d.role).Some? && Within(d.perms, AllowedByRole(d.role).value)
  }

  function Apply(p: Rights, c: Changes): (after: Rights) {
    Rights(
      Coalesce(c.sendMessages, p.sendMessages),
      Coalesce(c.addMembers, p.addMembers),
      Coalesce(c.removeMembers, p.removeMembers),
      Coalesce(c.changeMembersPermissions, p.changeMembersPermissions),
      Coalesce(c.changeThreadInfo, p.changeThreadInfo),
      Coalesce(c.deleteMessages, p.deleteMessages),
      Coalesce(c.reactMessages, p.reactMessages))
  }

  function Coalesce(requested: Option<bool>, current: bool): (granted: bool) {
    if requested.Some? then requested.value else current
  }

  /** Every permission the request touches, whatever value it asks for, is in the limit. */
  predicate Touches(c: Changes, limit: Rights) {
    && (c.sendMessages.Some? ==> limit.sendMessages)
    && (c.addMembers.Some? ==> limit.addMembers)
    && (c.removeMembers.Some? ==> limit.removeMembers)
    && (c.changeMembersPermissions.Some? ==> limit.changeMembersPermissions)
    && (c.changeThreadInfo.Some? ==> limit.changeThreadInfo)
    && (c.deleteMessages.Some? ==> limit.deleteMessages)
    && (c.reactMessages.Some? ==> limit.reactMessages)
  }

  /** None when a contact may be added or transferred to; invitable is the privacy service's answer. */
  function VerifyAdd(initiator: Option<Dialog>, contact: ContactId, role: Role,
      invitable: bool): (refusal: Option<Error>) {
    if initiator.None? then Some(NotFound)
    else if initiator.value.contact == contact then Some(InvalidArgument)
    else if !initiator.value.perms.addMembers then Some(Forbidden)
    else if Rank(initiator.value.role) < Rank(role) then Some(Forbidden)
    else if !invitable then Some(Forbidden)
    else None
  }

  function VerifyRemove(initiator: Option<MemberId>, target: MemberId, dialogs: seq<Dialog>,
      targetIsBot: bool): (refusal: Option<Error>)
    requires initiator.Some? ==> initiator.value < |dialogs|
    requires target < |dialogs|
  {
    if initiator.None? then Some(NotFound)
    else if initiator.value == target then None
    else
      var d := dialogs[initiator.value];
      if !d.perms.removeMembers then Some(Forbidden)
      else if targetIsBot then
        if Rank(d.role) < Rank(dialogs[target].role) then Some(Forbidden) else None
      else if Rank(d.role) <= Rank(dialogs[target].role) then Some(Forbidden)
      else None
  }

  /** The permissions a lookup sees: a column it does not select reads as refused. */
  function Loaded(p: Rights, loadsReact: bool): (held: Rights) {
    p.(reactMessages := loadsReact && p.reactMessages)
  }

  /** The five checks of a permission change, in the order they run. */
  function VerifyChange(initiator: MemberId, target: MemberId, dialogs: seq<Dialog>, c: Changes,
      loadsReact: bool): (refusal: Option<Error>)
    requires initiator < |dialogs| && target < |dialogs|
  {
    var i, t := dialogs[initiator], dialogs[target];
    var held := Loaded(i.perms, loadsReact);
    if initiator == target then Some(Unknown)
    else if Rank(i.role) <= Rank(t.role) then Some(Unknown)
    else if !held.changeMembersPermissions then Some(Unknown)
    else if !Touches(c, held) then Some(Unknown)
    else if AllowedByRole(t.role).None? || !Touches(c, AllowedByRole(t.role).value) then Some(Unknown)
    else None
  }

  lemma DefaultsArePermitted(role: Role)
    ensures DefaultByRole(role).Some? ==>
      AllowedByRole(role).Some? && Within(DefaultByRole(role).value, AllowedByRole(role).value)
    ensures DefaultByRole(role).None? <==> role == Unspecified
  {
  }

  /** Every permission that after has and before had not is one the limit holds. */
  predicate HandsOutOnly(before: Rights, after: Rights, limit: Rights) {
    && (after.sendMessages && !before.sendMessages ==> limit.sendMessages)
    && (after.addMembers && !before.addMembers ==> limit.addMembers)
    && (after.removeMembers && !before.removeMembers ==> limit.removeMembers)
    && (after.changeMembersPermissions && !before.changeMembersPermissions ==> limit.changeMembersPermissions)
    && (after.changeThreadInfo && !before.changeThreadInfo ==> limit.changeThreadInfo)
    && (after.deleteMessages && !before.deleteMessages ==> limit.deleteMessages)
    && (after.reactMessages && !before.reactMessages ==> limit.reactMessages)
  }

  /** A checked change keeps its target permitted and hands out nothing the initiator does not
      hold, and its target ranks strictly below the initiator. A lookup that leaves the react
      column out refuses every change that touches it. */
  lemma CheckedChangeIsBounded(initiator: MemberId, target: MemberId, dialogs: seq<Dialog>, c: Changes,
      loadsReact: bool)
    requires initiator < |dialogs| && target < |dialogs|
    requires Permitted(dialogs[target])
    requires VerifyChange(initiator, target, dialogs, c, loadsReact).None?
    ensures Permitted(dialogs[target].(perms := Apply(dialogs[target].perms, c)))
    ensures HandsOutOnly(dialogs[target].perms, Apply(dialogs[target].perms, c), dialogs[initiator].perms)
    ensures Rank(dialogs[target].role) < Rank(dialogs[initiator].role)
    ensures c.reactMessages.Some? ==> loadsReact
  {
  }
}
