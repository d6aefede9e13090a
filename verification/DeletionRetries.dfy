/** Deletion batches over the message table: which messages one may remove, and what repeating
    a batch, or sending another one, does. */
module DeletionRetries {
  import opened ThreadOrder
  import opened MessageDeletion

  /** senders holds the message's sender and, when it was sent on somebody's behalf, that one. */
  datatype Stored = Stored(thread: ThreadId, senders: set<nat>, live: bool)

  /** A caller's dialog in a thread: the live one if there is any, else one the caller has left. */
  datatype Standing = Standing(left: bool, mayDelete: bool)

  type Table = map<MessageId, Stored>

  /** One call: the threads the caller was ever a member of, and the rows the statement returned. */
  datatype Call = Call(ids: seq<MessageId>, deleter: nat, standings: map<ThreadId, Standing>, rows: seq<Row>)

  /** A live message of the caller's own, in a thread it is a member of and may delete in. */
  predicate MayRemove(m: Stored, call: Call) {
    && m.live && call.deleter in m.senders
    && m.thread in call.standings && !call.standings[m.thread].left && call.standings[m.thread].mayDelete
  }

  function Classify(m: Stored, call: Call): (reason: SkipReason)
    ensures reason == Unspecified <==> MayRemove(m, call)
    ensures reason == Missing <==> m.thread !in call.standings
    ensures reason == NotAuthor <==> m.thread in call.standings && call.deleter !in m.senders
    ensures reason == AlreadyDeleted <==> m.thread in call.standings && call.deleter in m.senders && !m.live
    ensures reason == ChatClosed <==>
      m.thread in call.standings && call.deleter in m.senders && m.live && call.standings[m.thread].left
    ensures reason == NotAllowed ==> !call.standings[m.thread].mayDelete
  {
    if m.thread !in call.standings then Missing
    else if call.deleter !in m.senders then NotAuthor
    else if !m.live then AlreadyDeleted
    else if call.standings[m.thread].left then ChatClosed
    else if !call.standings[m.thread].mayDelete then NotAllowed
    else Unspecified
  }

  /** The statement answers for every requested message that exists, in whatever order. */
  ghost predicate Answers(table: Table, call: Call) {
    && (forall i :: 0 <= i < |call.rows| ==> RowFits(table, call, call.rows[i]))
    && (forall id :: id in call.ids && id in table ==> id in RowIds(call.rows))
  }

  predicate RowFits(table: Table, call: Call, row: Row) {
    && row.message.id in call.ids && row.message.id in table
    && row.message.thread == table[row.message.id].thread
    && row.reason == Classify(table[row.message.id], call)
  }

  function After(table: Table, call: Call): (after: Table) {
    map id | id in table ::
      if id in call.ids && MayRemove(table[id], call) then table[id].(live := false) else table[id]
  }

  // ----- one call -----

  lemma {:induction false} FirstRowIsARow(rows: seq<Row>, id: MessageId)
    requires FirstRow(rows, id).Some?
    ensures FirstRow(rows, id).value in rows && FirstRow(rows, id).value.message.id == id
  {
    var n := |rows| - 1;
    if FirstRow(rows[..n], id).Some? {
      FirstRowIsARow(rows[..n], id);
    }
  }

  lemma {:induction false} KeptOnce(rows: seq<Row>, id: MessageId)
    ensures multiset(Ids(Kept(rows)))[id] ==
      if FirstRow(rows, id).Some? && FirstRow(rows, id).value.reason == Unspecified then 1 else 0
  {
    if rows != [] {
      var n := |rows| - 1;
      KeptOnce(rows[..n], id);
      if FirstRow(rows[..n], rows[n].message.id).None? && rows[n].reason == Unspecified {
        assert Ids(Kept(rows)) == Ids(Kept(rows[..n])) + [rows[n].message.id];
      } else {
        assert Kept(rows) == Kept(rows[..n]);
      }
    }
  }

  lemma AnswerFor(table: Table, call: Call, id: MessageId)
    requires Answers(table, call)
    ensures FirstRow(call.rows, id).Some? <==> id in call.ids && id in table
    ensures FirstRow(call.rows, id).Some? ==> FirstRow(call.rows, id).value.reason == Classify(table[id], call)
  {
    if FirstRow(call.rows, id).Some? {
      FirstRowIsARow(call.rows, id);
    }
  }

  /** A batch removes exactly the requested messages its caller may remove, each once. */
  lemma RemovesExactlyTheRemovable(table: Table, call: Call, id: MessageId)
    requires Answers(table, call)
    ensures multiset(Ids(Kept(call.rows)))[id] ==
      if id in call.ids && id in table && MayRemove(table[id], call) then 1 else 0
  {
    KeptOnce(call.rows, id);
    AnswerFor(table, call, id);
  }

  // ----- repeating a call -----

  /** A message one call removed is removed by no later one, and its remover's retry, even from
      outside the thread or without the permission, is told that it was already deleted. */
  lemma RetryIsSafe(table: Table, first: Call, again: Call, id: MessageId)
    requires Answers(table, first) && Answers(After(table, first), again)
    requires id in Ids(Kept(first.rows))
    ensures id !in Ids(Kept(again.rows))
    ensures id in again.ids && again.deleter == first.deleter && first.standings.Keys <= again.standings.Keys
      ==> FirstRow(again.rows, id).Some? && FirstRow(again.rows, id).value.reason == AlreadyDeleted
  {
    RemovesExactlyTheRemovable(table, first, id);
    RemovesExactlyTheRemovable(After(table, first), again, id);
    AnswerFor(After(table, first), again, id);
  }

  /** Two batches that overlap read one table: they announce a message twice exactly when each of
      them asks for it and its caller may remove it. The update does not look again. */
  lemma OverlappingBatchesAnnounceTwiceIff(table: Table, a: Call, b: Call, id: MessageId)
    requires Answers(table, a) && Answers(table, b)
    ensures multiset(Ids(Kept(a.rows)))[id] + multiset(Ids(Kept(b.rows)))[id] == 2
       <==> id in a.ids && id in b.ids && id in table && MayRemove(table[id], a) && MayRemove(table[id], b)
  {
    RemovesExactlyTheRemovable(table, a, id);
    RemovesExactlyTheRemovable(table, b, id);
  }

  // ----- runs of calls -----

  ghost predicate Serves(table: Table, calls: seq<Call>)
    decreases |calls|
  {
    calls != [] ==> Answers(table, calls[0]) && Serves(After(table, calls[0]), calls[1..])
  }

  function AfterAll(table: Table, calls: seq<Call>): (after: Table)
    decreases |calls|
  {
    if calls == [] then table else AfterAll(After(table, calls[0]), calls[1..])
  }

  /** The messages a run announces as deleted. */
  function Announced(calls: seq<Call>): (ids: multiset<MessageId>) {
    if calls == [] then multiset{}
    else multiset(Ids(SortStable(Kept(calls[0].rows)))) + Announced(calls[1..])
  }

  function Alive(table: Table, id: MessageId): (n: nat) {
    if id in table && table[id].live then 1 else 0
  }

  /** Over any run of batches, one after another, whoever sends them, a message is announced exactly
      when it goes from live to deleted: never twice, and never without being deleted. */
  lemma {:induction false} AnnouncedOnceWhenDeleted(table: Table, calls: seq<Call>, id: MessageId)
    requires Serves(table, calls)
    ensures Announced(calls)[id] + Alive(AfterAll(table, calls), id) == Alive(table, id)
    decreases |calls|
  {
    if calls != [] {
      RemovesExactlyTheRemovable(table, calls[0], id);
      SortKeepsIds(Kept(calls[0].rows));
      AnnouncedOnceWhenDeleted(After(table, calls[0]), calls[1..], id);
    }
  }
}
