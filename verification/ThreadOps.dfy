/** What each service operation does to a thread when none of its statements fails: the
    state it commits, or the error it reports, in which case nothing is committed. An operation
    that looks before its transaction checks the thread as it has seen it, which other
    callers may have moved on since: seen is that earlier state, s the one it works on. */
module ThreadOps {
  import opened Wrappers
  import opened ThreadModel
  import opened BotControlStore
  import opened PreviewStore
  import P = Permissions

  // ----- events -----

  /** A grant that names a previous holder is announced by that holder's release. */
  function GrantEvents(m: MemberId, previous: Option<Entry>, position: nat, reason: Reason,
      resume: bool): (events: seq<Event>) {
    (if previous.Some? then [Released(previous.value.member, previous.value.position, reason, Some(m))] else [])
    + [Granted(m, position, reason, resume, previous)]
  }

  function PublishGranted(s: ThreadState, m: MemberId, previous: Option<Entry>, position: nat, reason: Reason,
      resume: bool): (t: ThreadState) {
    s.(outbox := s.outbox + GrantEvents(m, previous, position, reason, resume))
  }

  function PublishReleased(s: ThreadState, m: MemberId, position: nat, reason: Reason,
      next: Option<MemberId>): (t: ThreadState) {
    s.(outbox := s.outbox + [Released(m, position, reason, next)])
  }

  // ----- shared steps -----

  /** A failing pop is reported as an internal error by the operations that did not look first. */
  function PopOrInternal(s: ThreadState, m: MemberId, reason: Reason): (r: Result<Popped>) {
    var popped := Pop(s, m, reason);
    if popped.Ok? then popped else Err(Internal)
  }

  function StackTop(stack: seq<Entry>): (top: Option<Entry>) {
    if stack == [] then None else Some(stack[|stack| - 1])
  }

  function PositionAfterPush(previous: Option<Entry>): (p: nat) {
    if previous.None? then 0 else previous.value.position + 1
  }

  function ResolveAutoLeave(override: Option<bool>): (leaves: bool) {
    if override.Some? then override.value else true
  }

  /** Pushes a bot member that is not tracked yet, when the stack is empty. */
  function AdoptUntracked(s: ThreadState, newcomer: MemberId): (r: Result<ThreadState>) {
    var adopted := AdoptUntrackedBot(s, newcomer);
    if adopted.bot.None? then Ok(s) else Push(adopted.state, adopted.bot.value)
  }

  /** A bot that just joined: adopt, push, announce. */
  function ActivateBot(s: ThreadState, m: MemberId): (r: Result<ThreadState>) {
    var s1 :- AdoptUntracked(s, m);
    var s2 :- Push(s1, m);
    var previous := StackTop(s1.stack);
    Ok(PublishGranted(s2, m, previous, PositionAfterPush(previous), Transferred, false))
  }

  function ReleaseToAgent(s: ThreadState): (t: ThreadState) {
    var cleared := ClearController(s);
    if cleared.released.None? then cleared.state
    else PublishReleased(cleared.state, cleared.released.value, 0, AgentTakeover, None)
  }

  function RestoreAfterAgent(s: ThreadState): (t: ThreadState) {
    if HasOperator(s.dialogs) then s
    else
      var r := RestoreController(s);
      if r.holder.None? || !r.granted then r.state
      else PublishGranted(r.state, r.holder.value.member, None, r.holder.value.position, AgentLeft, true)
  }

  // ----- requests -----

  datatype AddRequest = AddRequest(
    contact: ContactId,
    initiator: Option<ContactId>,
    role: Role,
    isBot: bool, // the request's flag or the contact directory's answer
    autoLeave: Option<bool>,
    systemCall: bool,
    invitable: bool,
    began: int) // when the transaction began

  datatype TransferRequest = TransferRequest(
    contact: ContactId,
    initiator: ContactId,
    role: Role,
    targetIsBot: bool,
    autoLeave: Option<bool>,
    invitable: bool,
    began: int)

  /** carriesBotFlags says whether the query that looks the target up selects is_bot and auto_leave. */
  datatype RemoveRequest = RemoveRequest(
    target: MemberId,
    initiator: Option<ContactId>,
    systemCall: bool,
    carriesBotFlags: bool)

  /** What runs after the thread lock and before the member row is created. */
  datatype Hook = NoHook | ClosePreview(now: int)

  // ----- operations -----

  function RunHook(s: ThreadState, c: ContactId, hook: Hook): (r: Result<ThreadState>) {
    if hook.NoHook? then Ok(s)
    else
      var active := FindActive(s.previews, c, hook.now);
      if active.None? then Err(FailedPrecondition)
      else Ok(s.(previews := Revoke(s.previews, active.value, ByUpgrade)))
  }

  function AdmitAdd(seen: ThreadState, req: AddRequest): (refusal: Option<Error>) {
    var initiator := if req.initiator.Some? then FindContact(seen.dialogs, req.initiator.value) else None;
    if FindContact(seen.dialogs, req.contact).Some? then Some(AlreadyExists)
    else if !req.systemCall && req.initiator.Some?
        && P.VerifyAdd(DialogOf(seen, initiator), req.contact, req.role, req.invitable).Some?
    then P.VerifyAdd(DialogOf(seen, initiator), req.contact, req.role, req.invitable)
    else if P.DefaultByRole(req.role).None? then Some(Unknown)
    else None
  }

  function DialogOf(s: ThreadState, m: Option<MemberId>): (d: Option<Dialog>)
    requires m.Some? ==> m.value < |s.dialogs|
  {
    if m.Some? then Some(s.dialogs[m.value]) else None
  }

  /** The dialog an add creates, with its role's default permissions. */
  function AddDialog(req: AddRequest): (d: Dialog)
    requires P.DefaultByRole(req.role).Some?
  {
    Dialog(req.contact, req.role, P.DefaultByRole(req.role).value, req.isBot,
           req.isBot && ResolveAutoLeave(req.autoLeave), true, req.began)
  }

  function AddMember(seen: ThreadState, s: ThreadState, req: AddRequest, hook: Hook): (r: Result<ThreadState>) {
    if AdmitAdd(seen, req).Some? then Err(AdmitAdd(seen, req).value)
    else
      var s1 :- RunHook(s, req.contact, hook);
      var m := |s1.dialogs|;
      var d := AddDialog(req);
      var s2 :- Create(s1, d);
      if req.isBot then ActivateBot(s2, m)
      else if IsOperator(false, req.role) then Ok(ReleaseToAgent(s2))
      else Ok(s2)
  }

  /** Removes the initiator's entry after a bot-to-bot transfer; a failing removal is only logged. */
  function CleanUp(s: ThreadState, m: MemberId, cleaned: bool): (t: ThreadState) {
    var popped := Pop(s, m, Transferred);
    if cleaned && popped.Ok? then popped.value.state else s
  }

  function AdmitTransfer(seen: ThreadState, req: TransferRequest): (refusal: Option<Error>) {
    var initiator := FindContact(seen.dialogs, req.initiator);
    if initiator.None? then Some(NotFound)
    else if FindContact(seen.dialogs, req.contact).Some? then Some(AlreadyExists)
    else if P.DefaultByRole(req.role).None? then Some(Unknown)
    else P.VerifyAdd(DialogOf(seen, initiator), req.contact, req.role, req.invitable)
  }

  /** The dialog a transfer creates: it inherits the initiator's permissions when the roles agree. */
  function TransferDialog(seen: ThreadState, req: TransferRequest): (d: Dialog)
    requires AdmitTransfer(seen, req).None?
  {
    var initiator := seen.dialogs[FindContact(seen.dialogs, req.initiator).value];
    Dialog(req.contact, req.role,
           if initiator.role == req.role then initiator.perms else P.DefaultByRole(req.role).value,
           req.targetIsBot, req.targetIsBot && ResolveAutoLeave(req.autoLeave), true, req.began)
  }

  /** The rows of a transfer: the new dialog is in, the initiator's is out. */
  function SwapDialogs(s: ThreadState, joining: Dialog, left: MemberId): (r: Result<ThreadState>) {
    var s1 :- Create(s, joining);
    Ok(s1.(dialogs := Leave(s1.dialogs, left)))
  }

  /** Its control: a bot that takes over is activated, a bot that hands over to a human is popped,
      and an operator who follows a human takes control from the bot. */
  function SwapControl(s: ThreadState, joined: MemberId, left: MemberId, fromBot: bool, toBot: bool, role: Role,
      cleaned: bool): (r: Result<ThreadState>) {
    if toBot then
      var s1 :- ActivateBot(s, joined);
      Ok(if fromBot then CleanUp(s1, left, cleaned) else s1)
    else if fromBot then
      var popped :- PopOrInternal(s, left, Handoff);
      Ok(popped.state)
    else if IsOperator(false, role) then Ok(ReleaseToAgent(s))
    else Ok(s)
  }

  /** cleaned is false when the removal of the initiator's entry failed and was only logged. */
  function Transfer(seen: ThreadState, s: ThreadState, req: TransferRequest, cleaned: bool): (r: Result<ThreadState>) {
    if AdmitTransfer(seen, req).Some? then Err(AdmitTransfer(seen, req).value)
    else
      var i := FindContact(seen.dialogs, req.initiator).value;
      var swapped :- SwapDialogs(s, TransferDialog(seen, req), i);
      SwapControl(swapped, |s.dialogs|, i, seen.dialogs[i].isBot, req.targetIsBot, req.role, cleaned)
  }

  function AdmitRemove(seen: ThreadState, req: RemoveRequest): (refusal: Option<Error>) {
    if !IsMember(seen, req.target) then Some(NotFound)
    else if !req.systemCall && req.initiator.Some? then
      P.VerifyRemove(FindContact(seen.dialogs, req.initiator.value), req.target, seen.dialogs,
                     req.carriesBotFlags && seen.dialogs[req.target].isBot)
    else None
  }

  function RemoveMember(seen: ThreadState, s: ThreadState, req: RemoveRequest): (r: Result<ThreadState>) {
    if AdmitRemove(seen, req).Some? then Err(AdmitRemove(seen, req).value)
    else
      var d := seen.dialogs[req.target];
      var isBot := req.carriesBotFlags && d.isBot;
      var autoLeave := req.carriesBotFlags && d.autoLeave;
      if isBot then
        var popped :- PopOrInternal(s, req.target, Removed);
        var s1 := if popped.newTop.None? then popped.state
                  else PublishGranted(popped.state, popped.newTop.value.member,
                                      Some(Entry(req.target, popped.newTop.value.position + 1)),
                                      popped.newTop.value.position, Removed, true);
        Ok(if autoLeave then s1 else s1.(dialogs := Leave(s1.dialogs, req.target)))
      else
        var s1 := s.(dialogs := Leave(s.dialogs, req.target));
        Ok(if IsOperator(isBot, d.role) then RestoreAfterAgent(s1) else s1)
  }

  /** The stack and the owner are read without a lock before the entry is popped. */
  function CompleteBotControl(seen: ThreadState, s: ThreadState, m: MemberId): (r: Result<ThreadState>) {
    if !OnStack(seen.stack, m) || seen.owner == Some(m) then Ok(s)
    else
      var position := PositionOf(seen.stack, m);
      var popped :- Pop(s, m, Completed);
      if Top(seen.stack) != Some(m) || popped.newTop.None? || Some(popped.newTop.value.member) == seen.owner
      then Ok(popped.state)
      else Ok(PublishGranted(popped.state, popped.newTop.value.member, Some(Entry(m, position)),
                             popped.newTop.value.position, Completed, true))
  }

  /** So is the stack here. */
  function ReleaseBotControl(seen: ThreadState, s: ThreadState): (r: Result<ThreadState>) {
    if seen.stack == [] then
      var cleared := ClearController(s);
      Ok(if cleared.released.None? then cleared.state
         else PublishReleased(cleared.state, cleared.released.value, 0, ClientLeave, None))
    else
      var active := seen.stack[|seen.stack| - 1];
      var popped :- Pop(s, active.member, ClientLeave);
      var next := if popped.newTop.Some? then Some(popped.newTop.value.member) else None;
      var s1 := PublishReleased(popped.state, active.member, active.position, ClientLeave, next);
      Ok(if popped.newTop.None? then s1
         else PublishGranted(s1, popped.newTop.value.member, Some(active), popped.newTop.value.position,
                             ClientLeave, true))
  }

  predicate ActsAsOperator(seen: ThreadState, c: ContactId) {
    var m := FindContact(seen.dialogs, c);
    m.Some? && IsOperator(seen.dialogs[m.value].isBot, seen.dialogs[m.value].role)
  }

  function HandBackToBot(seen: ThreadState, s: ThreadState, c: ContactId): (r: Result<ThreadState>) {
    if !ActsAsOperator(seen, c) then Err(Forbidden)
    else
      var r := RestoreController(s);
      if r.holder.None? then Err(FailedPrecondition)
      else Ok(PublishGranted(r.state, r.holder.value.member, None, r.holder.value.position, AgentHandback, true))
  }

  function TakeOverFromBot(seen: ThreadState, s: ThreadState, c: ContactId): (r: Result<ThreadState>) {
    if !ActsAsOperator(seen, c) then Err(Forbidden) else Ok(ReleaseToAgent(s))
  }

  /** The first bot in the member list a thread lookup returned. */
  function FirstBot(seen: ThreadState, listed: seq<MemberId>): (m: Option<MemberId>)
    ensures m.Some? ==> m.value < |seen.dialogs| && seen.dialogs[m.value].isBot && m.value in listed
  {
    if listed == [] then None
    else if listed[0] < |seen.dialogs| && seen.dialogs[listed[0]].isBot then Some(listed[0])
    else FirstBot(seen, listed[1..])
  }

  /** The lookup lists the live members, in an order it does not promise. */
  ghost predicate Lists(seen: ThreadState, listed: seq<MemberId>) {
    forall m :: m in listed <==> IsMember(seen, m)
  }

  /** An existing thread the addressee is found in gets its bot control back when no bot holds it. */
  function EnsureDirectThread(seen: ThreadState, read: ThreadState, s: ThreadState, to: ContactId,
      listed: seq<MemberId>): (r: Result<ThreadState>) {
    var m := FindContact(seen.dialogs, to);
    if seen.controller.None? && m.Some? && seen.dialogs[m.value].isBot then
      var ensured := EnsureBotControl(seen, read, s, listed);
      Ok(if ensured.Ok? then ensured.value else s) // a failure is only logged
    else Ok(s)
  }

  /** The transaction reads the stack, without a lock, in the state read. */
  function EnsureBotControl(seen: ThreadState, read: ThreadState, s: ThreadState,
      listed: seq<MemberId>): (r: Result<ThreadState>) {
    var bot := FirstBot(seen, listed);
    if bot.None? || HasOperator(seen.dialogs) then Ok(s)
    else
      var s1 :- if read.stack != [] then Ok(s.(controller := Top(read.stack))) else Push(s, bot.value);
      Ok(PublishGranted(s1, bot.value, None, 0, Initial, false))
  }

  /** A fresh direct thread between two peers; only the addressee can be a bot. */
  function CreateDirectThread(from: ContactId, to: ContactId, toIsBot: bool, botContacts: set<ContactId>,
      began: int): (r: Result<ThreadState>) {
    var s0 := ThreadState([], [], None, None, [], [], botContacts);
    var s1 :- Create(s0, Dialog(from, Owner, P.FULL, false, false, true, began));
    var s2 :- Create(s1, Dialog(to, Owner, P.FULL, toIsBot, false, true, began));
    if toIsBot then
      var s3 :- Push(s2, 1);
      Ok(PublishGranted(s3, 1, None, 0, Initial, false))
    else Ok(s2)
  }

  // ----- previews and permissions -----

  function GivePreview(s: ThreadState, c: ContactId, ttl: int, now: int): (r: Result<ThreadState>) {
    if ttl <= 0 || MAX_PREVIEW_MS < ttl then Err(InvalidArgument)
    else if FindContact(s.dialogs, c).Some? then Err(AlreadyExists)
    else Ok(s.(previews := Upsert(s.previews, c, ttl, now)))
  }

  function RemoveFromPreview(s: ThreadState, c: ContactId, now: int): (r: Result<ThreadState>) {
    var active := FindActive(s.previews, c, now);
    Ok(if active.None? then s else s.(previews := Revoke(s.previews, active.value, ByRemove)))
  }

  /** The trusted add that an upgrade is; the transaction's time is the one previews expire by. */
  function UpgradeRequest(c: ContactId, initiator: ContactId, role: Role, isBot: bool, now: int): (req: AddRequest) {
    AddRequest(c, Some(initiator), role, isBot, None, true, true, now)
  }

  /** A preview becomes a membership: a trusted add whose transaction closes the preview first. */
  function UpgradePreview(seen: ThreadState, s: ThreadState, c: ContactId, initiator: ContactId, role: Role,
      isBot: bool, now: int): (r: Result<ThreadState>) {
    if P.DefaultByRole(role).None? then Err(InvalidArgument)
    else AddMember(seen, s, UpgradeRequest(c, initiator, role, isBot, now), ClosePreview(now))
  }

  /** A change request names its target by one id, a dialog's or a contact's. */
  datatype Target = OfDialog(member: MemberId) | OfContact(contact: ContactId)

  /** A change of permissions, and two facts about the queries that carry it out: whether the one
      that looks initiator and target up selects the react column, and whether the one that
      writes compares the target's id with the dialog rather than with its contact. */
  datatype PermitRequest = PermitRequest(
    initiator: Option<ContactId>,
    target: Target,
    changes: P.Changes,
    loadsReact: bool,
    matchesDialog: bool)

  /** None when a change may go on to the statement; one without an initiator comes from the
      system and is not checked. */
  function AdmitPermit(seen: ThreadState, req: PermitRequest): (refusal: Option<Error>) {
    if req.initiator.None? then None
    else
      var i := FindContact(seen.dialogs, req.initiator.value);
      if i.None? || req.target.OfContact? || !IsMember(seen, req.target.member) then Some(Unknown)
      else P.VerifyChange(i.value, req.target.member, seen.dialogs, req.changes, req.loadsReact)
  }

  predicate Matches(req: PermitRequest, m: MemberId, contact: ContactId) {
    if req.matchesDialog then req.target == OfDialog(m) else req.target == OfContact(contact)
  }

  /** The rows the statement writes; neither variant asks whether they are live. */
  function Matching(s: ThreadState, req: PermitRequest): (ms: set<MemberId>) {
    set m | 0 <= m < |s.dialogs| && Matches(req, m, s.dialogs[m].contact)
  }

  /** The state a change commits. A statement that finds no row, or more than one, is reported as
      an error, but in the second case the rows are written. */
  function UpdatePermissions(seen: ThreadState, s: ThreadState, req: PermitRequest): (r: Result<ThreadState>) {
    if AdmitPermit(seen, req).Some? then Err(AdmitPermit(seen, req).value)
    else if Matching(s, req) == {} then Err(Unknown)
    else Ok(s.(dialogs := Rewrite(s.dialogs, req)))
  }

  function Rewrite(dialogs: seq<Dialog>, req: PermitRequest): (after: seq<Dialog>)
    ensures |after| == |dialogs|
    ensures forall m :: 0 <= m < |dialogs| ==>
      after[m] == if Matches(req, m, dialogs[m].contact) then Changed(dialogs[m], req.changes) else dialogs[m]
  {
    seq(|dialogs|, m requires 0 <= m < |dialogs| =>
      if Matches(req, m, dialogs[m].contact) then Changed(dialogs[m], req.changes) else dialogs[m])
  }

  function Changed(d: Dialog, c: P.Changes): (after: Dialog) {
    d.(perms := P.Apply(d.perms, c))
  }

  lemma NoMatchRewritesNothing(s: ThreadState, req: PermitRequest)
    requires Matching(s, req) == {}
    ensures Rewrite(s.dialogs, req) == s.dialogs
  {
    forall m | 0 <= m < |s.dialogs|
      ensures Rewrite(s.dialogs, req)[m] == s.dialogs[m]
    {
      assert m !in Matching(s, req);
    }
  }
}
