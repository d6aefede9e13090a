/** Every operation on a thread as one step of a state machine. */
module ThreadMachine {
  import opened Wrappers
  import opened ThreadModel
  import opened ThreadOps

  datatype Op =
    | Add(add: AddRequest)
    | Transfers(transfer: TransferRequest, cleaned: bool)
    | Remove(remove: RemoveRequest)
    | Complete(member: MemberId)
    | Release
    | HandBack(operator: ContactId)
    | TakeOver(operator: ContactId)
    | Ensure(to: ContactId, listed: seq<MemberId>)
    | Give(contact: ContactId, ttl: int, now: int)
    | Withdraw(contact: ContactId, now: int)
    | Upgrade(contact: ContactId, inviter: ContactId, role: Role, isBot: bool, now: int)
    | Permit(permit: PermitRequest)

  /** The operation's checks read seen; its transaction, or its one statement, works on s. */
  function Attempt(seen: ThreadState, s: ThreadState, op: Op): (r: Result<ThreadState>) {
    match op
    case Add(req) => AddMember(seen, s, req, NoHook)
    case Transfers(req, cleaned) => Transfer(seen, s, req, cleaned)
    case Remove(req) => RemoveMember(seen, s, req)
    case Complete(m) => CompleteBotControl(seen, s, m)
    case Release => ReleaseBotControl(seen, s)
    case HandBack(c) => HandBackToBot(seen, s, c)
    case TakeOver(c) => TakeOverFromBot(seen, s, c)
    case Ensure(to, listed) => EnsureDirectThread(seen, s, s, to, listed)
    case Give(c, ttl, now) => GivePreview(s, c, ttl, now)
    case Withdraw(c, now) => RemoveFromPreview(s, c, now)
    case Upgrade(c, i, role, isBot, now) => UpgradePreview(seen, s, c, i, role, isBot, now)
    case Permit(req) => UpdatePermissions(seen, s, req)
  }

  /** A refused operation commits nothing; so does one that a failing statement rolls back,
      which a run leaves out. */
  function Commit(seen: ThreadState, s: ThreadState, op: Op): (t: ThreadState) {
    if Attempt(seen, s, op).Ok? then Attempt(seen, s, op).value else s
  }

  /** The member list an Ensure reads is the thread's. */
  ghost predicate Reads(seen: ThreadState, op: Op) {
    op.Ensure? ==> Lists(seen, op.listed)
  }

  // ----- one caller after the other -----

  function Apply(s: ThreadState, op: Op): (r: Result<ThreadState>) {
    Attempt(s, s, op)
  }

  function Step(s: ThreadState, op: Op): (t: ThreadState) {
    Commit(s, s, op)
  }

  function Run(s: ThreadState, ops: seq<Op>): (t: ThreadState)
    decreases |ops|
  {
    if ops == [] then s else Run(Step(s, ops[0]), ops[1..])
  }

  // ----- callers that overtake each other -----

  /** A call whose transaction comes after those before it in a list, and whose checks read the
      thread after the first few of these. */
  datatype Call = Call(op: Op, checked: nat)

  predicate Timely(calls: seq<Call>) {
    forall i :: 0 <= i < |calls| ==> calls[i].checked <= i
  }

  /** The states of a thread: the first, and one after each call. */
  function History(s: ThreadState, calls: seq<Call>): (h: seq<ThreadState>)
    requires Timely(calls)
    ensures |h| == |calls| + 1
    ensures h[0] == s
  {
    if calls == [] then [s]
    else
      var n := |calls| - 1;
      var h := History(s, calls[..n]);
      h + [Commit(h[calls[n].checked], h[n], calls[n].op)]
  }
}
