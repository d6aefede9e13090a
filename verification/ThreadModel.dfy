/** The rows one thread owns: its dialogs (members), its bot control stack, the two
    bot columns of the thread row, its previews and the control events of its outbox. */
module ThreadModel {
  import opened Wrappers

  /** A dialog's id is its place in creation order, so a new row always has a fresh id. */
  type MemberId = nat
  type ContactId = nat

  datatype Role = Unspecified | Member | Admin | Supervisor | Owner

  /** The declaration order of the roles is their rank. */
  function Rank(role: Role): (rank: nat) {
    match role
    case Unspecified => 0
    case Member => 1
    case Admin => 2
    case Supervisor => 3
    case Owner => 4
  }

  datatype Rights = Rights(
    sendMessages: bool,
    addMembers: bool,
    removeMembers: bool,
    changeMembersPermissions: bool,
    changeThreadInfo: bool,
    deleteMessages: bool,
    reactMessages: bool)

  datatype Dialog = Dialog(
    contact: ContactId,
    role: Role,
    perms: Rights,
    isBot: bool,
    autoLeave: bool,
    live: bool,
    created: int) // when the transaction began that inserted the row, perhaps long before it did

  datatype Entry = Entry(member: MemberId, position: nat)

  datatype Reason =
    | Initial
    | Transferred
    | Completed
    | Removed
    | ClientLeave
    | Handoff
    | AgentTakeover
    | AgentHandback
    | AgentLeft

  datatype Event =
    | Granted(member: MemberId, position: nat, reason: Reason, resume: bool, previous: Option<Entry>)
    | Released(member: MemberId, position: nat, reason: Reason, next: Option<MemberId>)

  datatype Closing = ByRemove | ByUpgrade | ByExpiry

  datatype Preview = Preview(contact: ContactId, expires: int, closed: Option<Closing>)

  datatype ThreadState = ThreadState(
    dialogs: seq<Dialog>,
    stack: seq<Entry>, // ordered by position; the last entry is the top
    controller: Option<MemberId>,
    owner: Option<MemberId>,
    previews: seq<Preview>,
    outbox: seq<Event>,
    botContacts: set<ContactId>) // the contact directory's bots; never written here

  // ----- members -----

  predicate IsMember(s: ThreadState, m: MemberId) {
    m < |s.dialogs| && s.dialogs[m].live
  }

  predicate HasContact(s: ThreadState, c: ContactId) {
    exists m :: 0 <= m < |s.dialogs| && s.dialogs[m].live && s.dialogs[m].contact == c
  }

  /** The first live dialog of a contact; the partial unique index allows one at most. */
  function FindContact(dialogs: seq<Dialog>, c: ContactId): (m: Option<MemberId>)
    ensures m.Some? ==> m.value < |dialogs| && dialogs[m.value].live && dialogs[m.value].contact == c
    ensures m.None? ==> forall i :: 0 <= i < |dialogs| && dialogs[i].live ==> dialogs[i].contact != c
  {
    if dialogs == [] then None
    else
      var n := |dialogs| - 1;
      var earlier := FindContact(dialogs[..n], c);
      if earlier.Some? then earlier
      else if dialogs[n].live && dialogs[n].contact == c then Some(n)
      else None
  }

  /** Rows only age: dialogs are appended and leave for good, a bot stays one, an owner stays. */
  predicate Older(s: ThreadState, t: ThreadState) {
    && |s.dialogs| <= |t.dialogs|
    && (forall m :: 0 <= m < |s.dialogs| ==> OlderRow(s.dialogs[m], t.dialogs[m]))
    && (s.owner.Some? ==> t.owner == s.owner)
    && t.botContacts == s.botContacts
  }

  predicate OlderRow(d: Dialog, e: Dialog) {
    && e.contact == d.contact && e.role == d.role && e.autoLeave == d.autoLeave && e.created == d.created
    && (d.isBot ==> e.isBot) && (e.live ==> d.live)
  }

  predicate IsOperator(isBot: bool, role: Role) {
    !isBot && role != Owner
  }

  predicate HasOperator(dialogs: seq<Dialog>) {
    exists i :: 0 <= i < |dialogs| && dialogs[i].live && IsOperator(dialogs[i].isBot, dialogs[i].role)
  }

  // ----- the stack -----

  predicate OnStack(stack: seq<Entry>, m: MemberId) {
    exists i :: 0 <= i < |stack| && stack[i].member == m
  }

  function Top(stack: seq<Entry>): (m: Option<MemberId>) {
    if stack == [] then None else Some(stack[|stack| - 1].member)
  }

  function NextPosition(stack: seq<Entry>): (p: nat) {
    if stack == [] then 0 else stack[|stack| - 1].position + 1
  }

  /** The stack without the entries of some members. */
  function Minus(stack: seq<Entry>, gone: set<MemberId>): (rest: seq<Entry>)
    ensures |rest| <= |stack|
  {
    if stack == [] then []
    else
      var n := |stack| - 1;
      var rest := Minus(stack[..n], gone);
      if stack[n].member in gone then rest else rest + [stack[n]]
  }

  function PositionOf(stack: seq<Entry>, m: MemberId): (p: nat) {
    if stack == [] then 0
    else if stack[0].member == m then stack[0].position
    else PositionOf(stack[1..], m)
  }

  lemma {:induction false} MinusMembers(stack: seq<Entry>, gone: set<MemberId>)
    ensures forall m :: OnStack(Minus(stack, gone), m) <==> OnStack(stack, m) && m !in gone
  {
    if stack == [] {
    } else {
      var n := |stack| - 1;
      var rest := Minus(stack[..n], gone);
      MinusMembers(stack[..n], gone);
      forall m
        ensures OnStack(Minus(stack, gone), m) <==> OnStack(stack, m) && m !in gone
      {
        if OnStack(Minus(stack, gone), m) {
          var i :| 0 <= i < |Minus(stack, gone)| && Minus(stack, gone)[i].member == m;
          if i < |rest| {
            assert rest[i].member == m;
            assert OnStack(rest, m);
          }
        }
        if OnStack(stack, m) && m !in gone {
          if stack[n].member == m {
            assert Minus(stack, gone)[|rest|].member == m;
          } else {
            var i :| 0 <= i < |stack| && stack[i].member == m;
            assert stack[..n][i].member == m;
            assert OnStack(rest, m);
            var j :| 0 <= j < |rest| && rest[j].member == m;
            assert Minus(stack, gone)[j].member == m;
          }
        }
      }
    }
  }

  /** Positions strictly increase and no member sits twice. */
  predicate Ordered(stack: seq<Entry>) {
    && (forall i, j :: 0 <= i < j < |stack| ==> stack[i].position < stack[j].position)
    && (forall i, j :: 0 <= i < j < |stack| ==> stack[i].member != stack[j].member)
  }

  /** An entry above every other one extends an ordered stack. */
  lemma OrderedPush(stack: seq<Entry>, e: Entry)
    requires Ordered(stack)
    requires forall i :: 0 <= i < |stack| ==> stack[i].position < e.position && stack[i].member != e.member
    ensures Ordered(stack + [e])
  {
  }

  lemma {:induction false} MinusKeepsEntries(stack: seq<Entry>, gone: set<MemberId>)
    ensures forall i :: 0 <= i < |Minus(stack, gone)| ==> Minus(stack, gone)[i] in stack
  {
    if stack == [] {
    } else {
      var n := |stack| - 1;
      MinusKeepsEntries(stack[..n], gone);
      assert forall e :: e in stack[..n] ==> e in stack;
    }
  }

  lemma {:induction false} MinusOrdered(stack: seq<Entry>, gone: set<MemberId>)
    requires Ordered(stack)
    ensures Ordered(Minus(stack, gone))
  {
    if stack == [] {
    } else {
      var n := |stack| - 1;
      MinusOrdered(stack[..n], gone);
      if stack[n].member !in gone {
        MinusKeepsEntries(stack[..n], gone);
        assert forall e :: e in stack[..n] ==> e.position < stack[n].position && e.member != stack[n].member;
        OrderedPush(Minus(stack[..n], gone), stack[n]);
      }
    }
  }

  lemma {:induction false} MinusTwice(stack: seq<Entry>, a: set<MemberId>, b: set<MemberId>)
    ensures Minus(Minus(stack, a), b) == Minus(stack, a + b)
  {
    if stack == [] {
    } else {
      var n := |stack| - 1;
      MinusTwice(stack[..n], a, b);
      var rest := Minus(stack[..n], a);
      if stack[n].member !in a {
        assert (rest + [stack[n]])[..|rest|] == rest;
      }
    }
  }

  lemma {:induction false} MinusNothing(stack: seq<Entry>, gone: set<MemberId>)
    requires forall m :: m in gone ==> !OnStack(stack, m)
    ensures Minus(stack, gone) == stack
  {
    if stack == [] {
    } else {
      var n := |stack| - 1;
      assert forall i :: 0 <= i < n ==> stack[..n][i] == stack[i];
      MinusNothing(stack[..n], gone);
      assert stack[n].member !in gone;
      assert stack == stack[..n] + [stack[n]];
    }
  }

  /** Without its top a stack is what lies below. */
  lemma MinusTopEntry(stack: seq<Entry>)
    requires Ordered(stack) && stack != []
    ensures Minus(stack, {stack[|stack| - 1].member}) == stack[..|stack| - 1]
  {
    var n := |stack| - 1;
    forall m | m == stack[n].member
      ensures !OnStack(stack[..n], m)
    {
    }
    MinusNothing(stack[..n], {stack[n].member});
  }

  /** A stack that one removal empties had nothing but that member's entries. */
  lemma EmptiedByItsTop(stack: seq<Entry>, m: MemberId)
    requires stack != [] && Minus(stack, {m}) == []
    ensures Top(stack) == Some(m)
  {
  }
}
