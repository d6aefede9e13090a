/** Deleting a batch of messages: which ids go where, who is told, and in what thread order. */
module MessageDeletion {
  import opened Wrappers
  import opened ThreadOrder

  datatype SkipReason = Unspecified | Missing | NotAuthor | AlreadyDeleted | ChatClosed | NotAllowed

  /** A row the delete statement classified; Unspecified means it was deleted just now. */
  datatype Row = Row(message: Message, reason: SkipReason)

  datatype Skip = Skip(id: MessageId, reason: SkipReason)

  datatype Deleted = Deleted(message: MessageId, thread: ThreadId, recipients: seq<nat>)

  datatype Response = Response(deleted: seq<MessageId>, skipped: seq<Skip>)

  // ----- what the two halves of an outcome are -----

  function Ids(ms: seq<Message>): (ids: seq<MessageId>)
    ensures |ids| == |ms| && forall i :: 0 <= i < |ms| ==> ids[i] == ms[i].id
  {
    seq(|ms|, i requires 0 <= i < |ms| => ms[i].id)
  }

  function SkippedIds(skips: seq<Skip>): (ids: seq<MessageId>)
    ensures |ids| == |skips| && forall i :: 0 <= i < |skips| ==> ids[i] == skips[i].id
  {
    seq(|skips|, i requires 0 <= i < |skips| => skips[i].id)
  }

  /** Every requested id is in exactly one half, once, and no other id is in either. */
  ghost predicate Partitions(ids: set<MessageId>, kept: seq<MessageId>, skipped: seq<MessageId>) {
    forall id :: multiset(kept)[id] + multiset(skipped)[id] == if id in ids then 1 else 0
  }

  function RowIds(rows: seq<Row>): (ids: set<MessageId>) {
    if rows == [] then {} else RowIds(rows[..|rows| - 1]) + {rows[|rows| - 1].message.id}
  }

  function FirstRow(rows: seq<Row>, id: MessageId): (row: Option<Row>)
    ensures row.Some? <==> id in RowIds(rows)
  {
    if rows == [] then None
    else
      var earlier := FirstRow(rows[..|rows| - 1], id);
      if earlier.Some? then earlier
      else if rows[|rows| - 1].message.id == id then Some(rows[|rows| - 1])
      else None
  }

  /** The messages whose first row says deleted, in row order. */
  function Kept(rows: seq<Row>): (ms: seq<Message>) {
    if rows == [] then []
    else
      var n := |rows| - 1;
      Kept(rows[..n]) +
      if FirstRow(rows[..n], rows[n].message.id).None? && rows[n].reason.Unspecified? then [rows[n].message] else []
  }

  /** A skip carries its first row's reason, or not_found when the statement returned no row. */
  predicate SkipsFollow(rows: seq<Row>, skipped: seq<Skip>) {
    forall i :: 0 <= i < |skipped| ==>
      match FirstRow(rows, skipped[i].id)
      case None => skipped[i].reason == Missing
      case Some(row) => row.reason == skipped[i].reason && row.reason != Unspecified
  }

  lemma {:induction false} FirstRowOfPrefix(rows: seq<Row>, n: nat, id: MessageId)
    requires n <= |rows| && FirstRow(rows[..n], id).Some?
    ensures FirstRow(rows, id) == FirstRow(rows[..n], id)
    decreases |rows| - n
  {
    if n == |rows| {
      assert rows[..n] == rows;
    } else {
      assert rows[..n + 1][..n] == rows[..n];
      FirstRowOfPrefix(rows, n + 1, id);
    }
  }

  // ----- splitting the classified rows -----

  function IdsOf(ids: seq<MessageId>): (all: set<MessageId>) {
    set id | id in ids
  }

  /** One more row: what it adds to the kept messages and to the ids met. */
  lemma NextRow(rows: seq<Row>, i: nat)
    requires i < |rows|
    ensures
      var unmet := rows[i].message.id !in RowIds(rows[..i]);
      Kept(rows[..i + 1]) == Kept(rows[..i]) + if unmet && rows[i].reason.Unspecified? then [rows[i].message] else []
    ensures RowIds(rows[..i + 1]) == RowIds(rows[..i]) + {rows[i].message.id}
  {
    assert rows[..i + 1][..i] == rows[..i];
  }

  lemma FirstOfItsId(rows: seq<Row>, i: nat)
    requires i < |rows| && rows[i].message.id !in RowIds(rows[..i])
    ensures FirstRow(rows, rows[i].message.id) == Some(rows[i])
  {
    assert rows[..i + 1][..i] == rows[..i];
    FirstRowOfPrefix(rows, i + 1, rows[i].message.id);
  }

  lemma KeepOne(seen: set<MessageId>, kept: seq<Message>, skipped: seq<Skip>, m: Message)
    requires Partitions(seen, Ids(kept), SkippedIds(skipped)) && m.id !in seen
    ensures Partitions(seen + {m.id}, Ids(kept + [m]), SkippedIds(skipped))
  {
    assert Ids(kept + [m]) == Ids(kept) + [m.id];
  }

  lemma SkipOne(seen: set<MessageId>, kept: seq<Message>, skipped: seq<Skip>, s: Skip)
    requires Partitions(seen, Ids(kept), SkippedIds(skipped)) && s.id !in seen
    ensures Partitions(seen + {s.id}, Ids(kept), SkippedIds(skipped + [s]))
  {
    assert SkippedIds(skipped + [s]) == SkippedIds(skipped) + [s.id];
  }

  method SplitSkipOutcome(ids: seq<MessageId>, rows: seq<Row>) returns (kept: seq<Message>, skipped: seq<Skip>)
    requires forall i :: 0 <= i < |rows| ==> rows[i].message.id in ids
    ensures kept == Kept(rows)
    ensures SkipsFollow(rows, skipped)
    ensures Partitions(IdsOf(ids), Ids(kept), SkippedIds(skipped))
  {
    kept, skipped := [], [];
    var seen: set<MessageId> := {};
    for i := 0 to |rows|
      invariant kept == Kept(rows[..i])
      invariant SkipsFollow(rows, skipped)
      invariant Partitions(seen, Ids(kept), SkippedIds(skipped))
      invariant seen == RowIds(rows[..i])
      invariant seen <= IdsOf(ids)
    {
      var row := rows[i];
      NextRow(rows, i);
      if row.message.id in seen {
        continue;
      }
      FirstOfItsId(rows, i);
      if row.reason == Unspecified {
        KeepOne(seen, kept, skipped, row.message);
        kept := kept + [row.message];
      } else {
        SkipOne(seen, kept, skipped, Skip(row.message.id, row.reason));
        skipped := skipped + [Skip(row.message.id, row.reason)];
      }
      seen := seen + {row.message.id};
    }
    assert rows[..|rows|] == rows;
    skipped := SkipMissing(ids, rows, kept, skipped, seen);
  }

  /** The ids the statement returned no row for never existed. */
  method SkipMissing(ids: seq<MessageId>, rows: seq<Row>, ghost kept: seq<Message>, before: seq<Skip>,
      classified: set<MessageId>)
    returns (skipped: seq<Skip>)
    requires SkipsFollow(rows, before)
    requires Partitions(classified, Ids(kept), SkippedIds(before))
    requires classified == RowIds(rows) && classified <= IdsOf(ids)
    ensures SkipsFollow(rows, skipped)
    ensures Partitions(IdsOf(ids), Ids(kept), SkippedIds(skipped))
  {
    skipped := before;
    var seen := classified;
    for j := 0 to |ids|
      invariant SkipsFollow(rows, skipped)
      invariant Partitions(seen, Ids(kept), SkippedIds(skipped))
      invariant classified <= seen <= IdsOf(ids)
      invariant forall k :: 0 <= k < j ==> ids[k] in seen
    {
      if ids[j] in seen {
        continue;
      }
      SkipOne(seen, kept, skipped, Skip(ids[j], Missing));
      skipped := skipped + [Skip(ids[j], Missing)];
      seen := seen + {ids[j]};
    }
    assert seen == IdsOf(ids);
  }

  // ----- publishing -----

  function Recipients(members: map<ThreadId, seq<nat>>, t: ThreadId): (to: seq<nat>) {
    if t in members then members[t] else []
  }

  /** One event per message, with the members a lookup of its own thread gives. */
  function Announcements(ms: seq<Message>, members: map<ThreadId, seq<nat>>): (events: seq<Deleted>)
    ensures |events| == |ms|
    ensures forall i :: 0 <= i < |ms| ==>
      events[i] == Deleted(ms[i].id, ms[i].thread, Recipients(members, ms[i].thread))
  {
    seq(|ms|, i requires 0 <= i < |ms| => Deleted(ms[i].id, ms[i].thread, Recipients(members, ms[i].thread)))
  }

  /** A deleted message is told to the members of its own thread. */
  lemma AnnouncedToItsMembers(ms: seq<Message>, members: map<ThreadId, seq<nat>>, i: nat)
    requires i < |ms|
    ensures Announcements(ms, members)[i].message == ms[i].id && Announcements(ms, members)[i].thread == ms[i].thread
    ensures ms[i].thread in members ==> Announcements(ms, members)[i].recipients == members[ms[i].thread]
    ensures ms[i].thread !in members ==> Announcements(ms, members)[i].recipients == []
  {
  }

  /** The deleted half is in the order of the rows. */
  lemma {:induction false} KeptFollowsTheRows(rows: seq<Row>, i: nat, j: nat) returns (a: nat, b: nat)
    requires i < j < |Kept(rows)|
    ensures a < b < |rows| && rows[a].message == Kept(rows)[i] && rows[b].message == Kept(rows)[j]
    decreases |rows|
  {
    var n := |rows| - 1;
    if j < |Kept(rows[..n])| {
      a, b := KeptFollowsTheRows(rows[..n], i, j);
    } else {
      a := KeptFrom(rows[..n], i);
      b := n;
    }
  }

  lemma {:induction false} KeptFrom(rows: seq<Row>, i: nat) returns (a: nat)
    requires i < |Kept(rows)|
    ensures a < |rows| && rows[a].message == Kept(rows)[i]
  {
    var n := |rows| - 1;
    if i < |Kept(rows[..n])| {
      a := KeptFrom(rows[..n], i);
    } else {
      a := n;
    }
  }

  lemma NextMessage(ms: seq<Message>, i: nat, members: map<ThreadId, seq<nat>>)
    requires i < |ms|
    ensures Announcements(ms[..i + 1], members) ==
      Announcements(ms[..i], members) + [Deleted(ms[i].id, ms[i].thread, Recipients(members, ms[i].thread))]
    ensures
      var seen := Distinct(Threads(ms[..i]));
      Distinct(Threads(ms[..i + 1])) == if ms[i].thread in seen then seen else seen + [ms[i].thread]
  {
    assert Threads(ms[..i + 1])[..i] == Threads(ms[..i]);
  }

  lemma {:induction false} InsertKeepsIds(ms: seq<Message>, m: Message)
    ensures multiset(Ids(Insert(ms, m))) == multiset(Ids(ms)) + multiset{m.id}
  {
    if ms == [] {
    } else {
      var n := |ms| - 1;
      assert Ids(ms) == Ids(ms[..n]) + [ms[n].id];
      if Compare(ms[n].thread, m.thread) <= 0 {
        assert Ids(ms + [m]) == Ids(ms) + [m.id];
      } else {
        InsertKeepsIds(ms[..n], m);
        assert Ids(Insert(ms[..n], m) + [ms[n]]) == Ids(Insert(ms[..n], m)) + [ms[n].id];
      }
    }
  }

  lemma {:induction false} SortKeepsIds(ms: seq<Message>)
    ensures multiset(Ids(SortStable(ms))) == multiset(Ids(ms))
  {
    if ms != [] {
      var n := |ms| - 1;
      SortKeepsIds(ms[..n]);
      InsertKeepsIds(SortStable(ms[..n]), ms[n]);
      assert Ids(ms) == Ids(ms[..n]) + [ms[n].id];
    }
  }

  /** The keys of the memo, in the order the locks were taken. */
  method SortedKeys(keys: set<ThreadId>) returns (ts: seq<ThreadId>)
    ensures StrictlyAscending(ts)
    ensures forall t :: t in ts <==> t in keys
  {
    ts := [];
    var rest := keys;
    while rest != {}
      invariant rest <= keys && StrictlyAscending(ts)
      invariant forall t :: t in ts <==> t in keys - rest
      decreases rest
    {
      var t :| t in rest;
      ts := InsertKey(ts, t);
      rest := rest - {t};
    }
  }

  method InsertKey(ts: seq<ThreadId>, t: ThreadId) returns (after: seq<ThreadId>)
    requires StrictlyAscending(ts) && t !in ts
    ensures StrictlyAscending(after)
    ensures forall u :: u in after <==> u in ts || u == t
  {
    var i := |ts|;
    while i > 0 && Compare(ts[i - 1], t) > 0
      invariant 0 <= i <= |ts|
      invariant forall k :: i <= k < |ts| ==> Compare(t, ts[k]) < 0
    {
      CompareIsTotal(t, ts[i - 1]);
      i := i - 1;
    }
    forall k | 0 <= k < i
      ensures Compare(ts[k], t) < 0
    {
      CompareIsTotal(ts[i - 1], t);
      if k < i - 1 {
        CompareIsTransitive(ts[k], ts[i - 1], t);
      }
    }
    after := ts[..i] + [t] + ts[i..];
  }

  predicate HasAlreadyDeleted(skipped: seq<Skip>) {
    exists i :: 0 <= i < |skipped| && skipped[i].reason == AlreadyDeleted
  }

  /** The statement neither deleted the message nor found it deleted. */
  predicate RefusedAnew(rows: seq<Row>, id: MessageId) {
    match FirstRow(rows, id)
    case None => true
    case Some(row) => row.reason in {Missing, NotAuthor, ChatClosed, NotAllowed}
  }

  lemma {:induction false} KeptComesFromItsRow(rows: seq<Row>, i: nat)
    requires i < |Kept(rows)|
    ensures FirstRow(rows, Kept(rows)[i].id) == Some(Row(Kept(rows)[i], Unspecified))
  {
    var n := |rows| - 1;
    if i < |Kept(rows[..n])| {
      KeptComesFromItsRow(rows[..n], i);
    }
  }

  /** A batch is refused as a whole exactly if each of its messages is refused anew. */
  lemma RefusalIsAnew(ids: seq<MessageId>, rows: seq<Row>, skipped: seq<Skip>)
    requires SkipsFollow(rows, skipped) && Partitions(IdsOf(ids), Ids(Kept(rows)), SkippedIds(skipped))
    ensures Kept(rows) == [] && !HasAlreadyDeleted(skipped) <==> forall id :: id in ids ==> RefusedAnew(rows, id)
  {
    if Kept(rows) != [] {
      KeptComesFromItsRow(rows, 0);
      assert Ids(Kept(rows))[0] in multiset(Ids(Kept(rows)));
      assert Kept(rows)[0].id in ids;
    } else if HasAlreadyDeleted(skipped) {
      var i :| 0 <= i < |skipped| && skipped[i].reason == AlreadyDeleted;
      assert SkippedIds(skipped)[i] in multiset(SkippedIds(skipped));
      assert skipped[i].id in ids;
    } else {
      forall id | id in ids
        ensures RefusedAnew(rows, id)
      {
        assert id in multiset(SkippedIds(skipped));
        var i :| 0 <= i < |skipped| && SkippedIds(skipped)[i] == id;
      }
    }
  }

  class MessageUnit {
    const members: map<ThreadId, seq<nat>> // the active members of each thread
    var outbox: seq<Deleted>
    var lookups: seq<ThreadId> // the member lookups made, in order
    var recounted: seq<ThreadId> // the threads of the last unread recount

    constructor (members: map<ThreadId, seq<nat>>)
      ensures outbox == [] && lookups == [] && recounted == []
      ensures this.members == members
    {
      this.members := members;
      outbox, lookups, recounted := [], [], [];
    }

    method Refused() returns (refused: bool) {
      refused := *;
    }

    method QuickView(t: ThreadId) returns (r: Result<seq<nat>>)
      modifies this`lookups
      ensures r.Ok? ==> r.value == Recipients(members, t) && lookups == old(lookups) + [t]
      ensures r.Err? ==> r.error == Internal
    {
      var refused := Refused();
      if refused {
        return Err(Internal);
      }
      lookups := lookups + [t];
      r := Ok(Recipients(members, t));
    }

    method Publish(e: Deleted) returns (r: Result<()>)
      modifies this`outbox
      ensures r.Ok? ==> outbox == old(outbox) + [e]
      ensures r.Err? ==> r.error == Internal
    {
      var refused := Refused();
      if refused {
        return Err(Internal);
      }
      outbox := outbox + [e];
      r := Ok(());
    }

    method RecountUnread(ts: seq<ThreadId>) returns (r: Result<()>)
      modifies this`recounted
      ensures r.Ok? ==> recounted == ts
      ensures r.Err? ==> r.error == Internal
    {
      var refused := Refused();
      if refused {
        return Err(Internal);
      }
      recounted := ts;
      r := Ok(());
    }

    /** rows is what the delete statement returned for the ids. */
    method DeleteMessages(ids: seq<MessageId>, hasDeleter: bool, rows: seq<Row>) returns (r: Result<Response>)
      requires forall i :: 0 <= i < |rows| ==> rows[i].message.id in ids
      modifies this
      ensures r.Err? ==> outbox == old(outbox) && recounted == old(recounted)
      ensures ids == [] || !hasDeleter ==> r == Err(InvalidArgument)
      ensures r.Err? ==> r.error in {Internal, InvalidArgument, Forbidden}
      ensures r == Err(InvalidArgument) <==> ids == [] || !hasDeleter
      ensures r == Err(Forbidden) ==> forall id :: id in ids ==> RefusedAnew(rows, id)
      ensures r.Ok? ==>
        && Partitions(IdsOf(ids), r.value.deleted, SkippedIds(r.value.skipped))
        && SkipsFollow(rows, r.value.skipped)
        && r.value.deleted == Ids(SortStable(Kept(rows)))
        && outbox == old(outbox) + Announcements(SortStable(Kept(rows)), members)
        && lookups == old(lookups) + recounted
        && recounted == Distinct(Threads(SortStable(Kept(rows))))
        && StrictlyAscending(recounted)
        && exists id :: id in ids && !RefusedAnew(rows, id)
    {
      if ids == [] || !hasDeleter {
        return Err(InvalidArgument);
      }
      var savedOutbox, savedRecounted := outbox, recounted;
      r := DeleteMessagesTx(ids, rows);
      var refused := Refused();
      if r.Err? || refused {
        outbox, recounted := savedOutbox, savedRecounted;
        r := if r.Err? then r else Err(Internal);
      }
    }

    method DeleteMessagesTx(ids: seq<MessageId>, rows: seq<Row>) returns (r: Result<Response>)
      requires forall i :: 0 <= i < |rows| ==> rows[i].message.id in ids
      modifies this
      ensures r.Err? ==> r.error in {Internal, Forbidden}
      ensures r == Err(Forbidden) ==> forall id :: id in ids ==> RefusedAnew(rows, id)
      ensures r.Ok? ==>
        && Partitions(IdsOf(ids), r.value.deleted, SkippedIds(r.value.skipped))
        && SkipsFollow(rows, r.value.skipped)
        && r.value.deleted == Ids(SortStable(Kept(rows)))
        && outbox == old(outbox) + Announcements(SortStable(Kept(rows)), members)
        && lookups == old(lookups) + recounted
        && recounted == Distinct(Threads(SortStable(Kept(rows))))
        && StrictlyAscending(recounted)
        && exists id :: id in ids && !RefusedAnew(rows, id)
    {
      var kept, skipped := SplitSkipOutcome(ids, rows);
      RefusalIsAnew(ids, rows, skipped);
      if kept == [] && !HasAlreadyDeleted(skipped) {
        return Err(Forbidden);
      }
      var sorted := SortStable(kept);
      var membersByThread :- PublishDeleted(sorted);
      var threadIds := SortedKeys(membersByThread.Keys);
      SortedThreads(kept, threadIds);
      SortKeepsIds(kept);
      var _ :- RecountUnread(threadIds);
      r := Ok(Response(Ids(sorted), skipped));
    }

    /** Every remembered lookup is what a direct one gives. */
    ghost predicate Remembers(membersByThread: map<ThreadId, seq<nat>>) {
      forall t :: t in membersByThread ==> membersByThread[t] == Recipients(members, t)
    }

    /** Announces one message, looking its thread's members up unless they are remembered. */
    method AnnounceDeleted(msg: Message, membersByThread: map<ThreadId, seq<nat>>)
        returns (r: Result<map<ThreadId, seq<nat>>>)
      requires Remembers(membersByThread)
      modifies this`outbox, this`lookups
      ensures r.Err? ==> r.error == Internal
      ensures r.Ok? ==>
        && outbox == old(outbox) + [Deleted(msg.id, msg.thread, Recipients(members, msg.thread))]
        && lookups == old(lookups) + (if msg.thread in membersByThread then [] else [msg.thread])
        && Remembers(r.value) && r.value.Keys == membersByThread.Keys + {msg.thread}
    {
      var memo := membersByThread;
      if msg.thread !in memo {
        var found :- QuickView(msg.thread);
        memo := memo[msg.thread := found];
      }
      var _ :- Publish(Deleted(msg.id, msg.thread, memo[msg.thread]));
      r := Ok(memo);
    }

    /** Announces each message to the members of its thread, looked up once per thread. */
    method PublishDeleted(sorted: seq<Message>) returns (r: Result<map<ThreadId, seq<nat>>>)
      modifies this`outbox, this`lookups
      ensures r.Err? ==> r.error == Internal
      ensures r.Ok? ==>
        && outbox == old(outbox) + Announcements(sorted, members)
        && lookups == old(lookups) + Distinct(Threads(sorted))
        && forall t :: t in r.value <==> t in Distinct(Threads(sorted))
    {
      var membersByThread: map<ThreadId, seq<nat>> := map[];
      for i := 0 to |sorted|
        invariant outbox == old(outbox) + Announcements(sorted[..i], members)
        invariant lookups == old(lookups) + Distinct(Threads(sorted[..i]))
        invariant forall t :: t in membersByThread <==> t in Distinct(Threads(sorted[..i]))
        invariant Remembers(membersByThread)
      {
        NextMessage(sorted, i, members);
        membersByThread :- AnnounceDeleted(sorted[i], membersByThread);
      }
      assert sorted[..|sorted|] == sorted;
      r := Ok(membersByThread);
    }
  }

  /** Sorting the memo's keys gives the threads in the order they were first announced. */
  lemma SortedThreads(kept: seq<Message>, keys: seq<ThreadId>)
    requires StrictlyAscending(keys)
    requires forall t :: t in keys <==> t in Distinct(Threads(SortStable(kept)))
    ensures keys == Distinct(Threads(SortStable(kept)))
  {
    SortStableSorts(kept);
    DistinctOfAscending(Threads(SortStable(kept)));
    assert Elements(keys) == Elements(Distinct(Threads(SortStable(kept))));
    StrictlyAscendingIsUnique(keys, Distinct(Threads(SortStable(kept))));
  }

  /** Messages of one thread are announced in the order the statement returned them. */
  lemma ThreadOrderIsKept(rows: seq<Row>, t: ThreadId)
    ensures OfThread(SortStable(Kept(rows)), t) == OfThread(Kept(rows), t)
    ensures multiset(SortStable(Kept(rows))) == multiset(Kept(rows))
  {
    SortStableSorts(Kept(rows));
  }
}
