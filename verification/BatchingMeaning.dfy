/** What the grouped status events say, compared with one event per change. */
module BatchingMeaning {
  import opened Wrappers
  import opened StatusBatching

  // ----- nothing lost, nothing doubled -----

  function MessagesIn(events: seq<StatusEvent>): (ids: multiset<nat>) {
    if events == [] then multiset{}
    else MessagesIn(events[..|events| - 1]) + multiset(events[|events| - 1].messages)
  }

  lemma {:induction false} MessagesAfterUpdate(events: seq<StatusEvent>, p: nat, e: StatusEvent, m: nat)
    requires p < |events| && multiset(e.messages) == multiset(events[p].messages) + multiset{m}
    ensures MessagesIn(events[p := e]) == MessagesIn(events) + multiset{m}
  {
    var n := |events| - 1;
    if p == n {
      assert events[p := e][..n] == events[..n];
    } else {
      assert events[p := e][..n] == events[..n][p := e];
      MessagesAfterUpdate(events[..n], p, e, m);
    }
  }

  /** Either one more change opens an event, or it joins its leader's. */
  lemma NextGrouped(cs: seq<StatusChange>, c: StatusChange, all: seq<StatusChange>) returns (p: nat)
    requires Next(cs, c, all)
    ensures p == |Grouped(cs)| ==> Grouped(all) == Grouped(cs) + [Summary([c])]
    ensures p != |Grouped(cs)| ==>
      && p < |Grouped(cs)| && SharesBatch(cs[Leaders(cs)[p]], c) && Group(cs, Leaders(cs)[p]) != []
      && Grouped(all) == Grouped(cs)[p := Summary(Group(cs, Leaders(cs)[p]) + [c])]
      && Grouped(cs)[p] == Summary(Group(cs, Leaders(cs)[p]))
  {
    if Opens(cs, c) {
      OpenStep(cs, c, all);
      p := |Grouped(cs)|;
    } else {
      var j :| 0 <= j < |cs| && SharesBatch(cs[j], c);
      p := LeaderOf(cs, j);
      JoinStep(cs, c, all, p);
    }
  }

  lemma MessagesAfterAppend(events: seq<StatusEvent>, e: StatusEvent)
    ensures MessagesIn(events + [e]) == MessagesIn(events) + multiset(e.messages)
  {
    assert (events + [e])[..|events|] == events;
  }

  /** What absorbing one more change does to a summary. */
  lemma SummaryAbsorbs(g: seq<StatusChange>, c: StatusChange)
    requires g != []
    ensures multiset(Summary(g + [c]).messages) == multiset(Summary(g).messages) + multiset{c.message}
    ensures Summary(g + [c]).upToSeq == if c.upToSeq > Summary(g).upToSeq then c.upToSeq else Summary(g).upToSeq
    ensures Summary(g + [c]).thread == g[0].thread && Summary(g + [c]).member == g[0].member
    ensures Summary(g + [c]).status == StatusName(g[0].status)
  {
    assert (g + [c])[..|g|] == g;
    assert Messages(g + [c]) == Messages(g) + [c.message];
  }

  lemma NextMessagesConserved(cs: seq<StatusChange>, c: StatusChange, all: seq<StatusChange>)
    requires Next(cs, c, all)
    ensures MessagesIn(Grouped(all)) == MessagesIn(Grouped(cs)) + multiset{c.message}
  {
    var p := NextGrouped(cs, c, all);
    var before := Grouped(cs);
    if p == |before| {
      MessagesAfterAppend(before, Summary([c]));
    } else {
      var g := Group(cs, Leaders(cs)[p]);
      SummaryAbsorbs(g, c);
      MessagesAfterUpdate(before, p, Summary(g + [c]), c.message);
    }
  }

  lemma MessagesNext(cs: seq<StatusChange>, c: StatusChange, all: seq<StatusChange>)
    requires Next(cs, c, all)
    ensures multiset(Messages(all)) == multiset(Messages(cs)) + multiset{c.message}
  {
    assert Messages(all) == Messages(cs) + [c.message];
  }

  /** Every change's message is in the events exactly as often as it was reported. */
  lemma {:induction false} MessagesAreConserved(cs: seq<StatusChange>)
    ensures MessagesIn(Grouped(cs)) == multiset(Messages(cs))
  {
    if cs != [] {
      var n := |cs| - 1;
      MessagesAreConserved(cs[..n]);
      NextMessagesConserved(cs[..n], cs[n], cs);
      MessagesNext(cs[..n], cs[n], cs);
    }
  }

  /** Each change is in the group of exactly one event, and a failure is alone in its own. */
  lemma EachChangeHasOneEvent(cs: seq<StatusChange>, i: nat) returns (p: nat)
    requires i < |cs|
    ensures p < |Leaders(cs)| && cs[i] in Group(cs, Leaders(cs)[p])
    ensures forall q :: 0 <= q < |Leaders(cs)| && q != p && Batched(cs[i]) ==> cs[i] !in Group(cs, Leaders(cs)[q])
    ensures !Batched(cs[i]) ==> Leaders(cs)[p] == i && Group(cs, i) == [cs[i]]
  {
    p := LeaderOf(cs, i);
    if Batched(cs[i]) {
      InOwnBatch(cs, i, cs[Leaders(cs)[p]]);
      forall q | 0 <= q < |Leaders(cs)| && q != p
        ensures cs[i] !in Group(cs, Leaders(cs)[q])
      {
        LeadersDiffer(cs, p, q);
        BatchShares(cs, cs[Leaders(cs)[q]]);
      }
    }
  }

  lemma {:induction false} InOwnBatch(cs: seq<StatusChange>, i: nat, c: StatusChange)
    requires i < |cs| && SharesBatch(cs[i], c)
    ensures cs[i] in BatchOf(cs, c)
    decreases |cs|
  {
    if i < |cs| - 1 {
      InOwnBatch(cs[..|cs| - 1], i, c);
    }
  }

  lemma {:induction false} BatchShares(cs: seq<StatusChange>, c: StatusChange)
    ensures forall i :: 0 <= i < |BatchOf(cs, c)| ==> SharesBatch(BatchOf(cs, c)[i], c) && BatchOf(cs, c)[i] in cs
  {
    if cs != [] {
      BatchShares(cs[..|cs| - 1], c);
      assert forall x :: x in cs[..|cs| - 1] ==> x in cs;
    }
  }

  // ----- the watermark of an event -----

  /** The horizon is the greatest of the group, the unread count is that of the first change to
      reach it, and the time is the latest. */
  lemma {:induction false} SummaryIsTheWatermark(g: seq<StatusChange>) returns (k: nat)
    requires g != []
    ensures k < |g| && g[k].upToSeq == Summary(g).upToSeq && g[k].unreadCount == Summary(g).unreadCount
    ensures forall i :: 0 <= i < |g| ==> g[i].upToSeq <= Summary(g).upToSeq
    ensures forall i :: 0 <= i < k ==> g[i].upToSeq < Summary(g).upToSeq
    ensures exists i :: 0 <= i < |g| && g[i].updatedAt == Summary(g).occurredAt
    ensures forall i :: 0 <= i < |g| ==> g[i].updatedAt <= Summary(g).occurredAt
    decreases |g|
  {
    var n := |g| - 1;
    if n == 0 {
      k := 0;
    } else {
      k := SummaryIsTheWatermark(g[..n]);
      var i :| 0 <= i < n && g[..n][i].updatedAt == Summary(g[..n]).occurredAt;
      assert g[i].updatedAt == Latest(g[..n]);
      if g[n].upToSeq > Furthest(g[..n]) {
        k := n;
      }
    }
  }

  // ----- what a reader learns -----

  datatype Reader = Reader(thread: nat, member: nat, status: string)
  datatype Horizon = Horizon(upToSeq: int, unread: Option<int>)

  predicate Tells(e: StatusEvent, r: Reader) {
    e.thread == r.thread && e.member == r.member && e.status == r.status
  }

  /** A horizon only moves forward, and brings its unread count with it. */
  function Advance(h: Option<Horizon>, e: StatusEvent): (now: Option<Horizon>) {
    if h.None? || e.upToSeq > h.value.upToSeq then Some(Horizon(e.upToSeq, e.unreadCount)) else h
  }

  function Learn(events: seq<StatusEvent>, r: Reader): (h: Option<Horizon>) {
    if events == [] then None
    else
      var n := |events| - 1;
      if Tells(events[n], r) then Advance(Learn(events[..n], r), events[n]) else Learn(events[..n], r)
  }

  function Seq(h: Option<Horizon>): (upTo: Option<int>) {
    if h.None? then None else Some(h.value.upToSeq)
  }

  function Later(a: Option<int>, b: int): (latest: Option<int>) {
    if a.None? || b > a.value then Some(b) else a
  }

  /** One event per change. */
  function Singles(cs: seq<StatusChange>): (events: seq<StatusEvent>)
    ensures |events| == |cs| && forall i :: 0 <= i < |cs| ==> events[i] == Summary([cs[i]])
  {
    seq(|cs|, i requires 0 <= i < |cs| => Summary([cs[i]]))
  }

  lemma {:induction false} LearnAfterUpdate(events: seq<StatusEvent>, p: nat, e: StatusEvent, up: int, r: Reader)
    requires p < |events| && (Tells(e, r) <==> Tells(events[p], r))
    requires e.upToSeq == if up > events[p].upToSeq then up else events[p].upToSeq
    ensures Seq(Learn(events[p := e], r)) ==
      if Tells(e, r) then Later(Seq(Learn(events, r)), up) else Seq(Learn(events, r))
  {
    var n := |events| - 1;
    if p == n {
      assert events[p := e][..n] == events[..n];
    } else {
      assert events[p := e][..n] == events[..n][p := e];
      LearnAfterUpdate(events[..n], p, e, up, r);
    }
  }

  lemma NextHorizon(cs: seq<StatusChange>, c: StatusChange, all: seq<StatusChange>, r: Reader)
    requires Next(cs, c, all)
    ensures Seq(Learn(Grouped(all), r)) ==
      if Tells(Summary([c]), r) then Later(Seq(Learn(Grouped(cs), r)), c.upToSeq) else Seq(Learn(Grouped(cs), r))
  {
    var p := NextGrouped(cs, c, all);
    var before := Grouped(cs);
    if p == |before| {
      assert (before + [Summary([c])])[..|before|] == before;
    } else {
      var g := Group(cs, Leaders(cs)[p]);
      SummaryAbsorbs(g, c);
      SameBatch(cs, Leaders(cs)[p]);
      assert KeyOf(g[0]) == KeyOf(c);
      LearnAfterUpdate(before, p, Summary(g + [c]), c.upToSeq, r);
    }
  }

  lemma NextSingle(cs: seq<StatusChange>, c: StatusChange, all: seq<StatusChange>, r: Reader)
    requires Next(cs, c, all)
    ensures Seq(Learn(Singles(all), r)) ==
      if Tells(Summary([c]), r) then Later(Seq(Learn(Singles(cs), r)), c.upToSeq) else Seq(Learn(Singles(cs), r))
  {
    assert Singles(all)[..|cs|] == Singles(cs);
  }

  /** Batching hides no progress: every reader ends up with the same horizon. */
  lemma {:induction false} BatchingKeepsHorizons(cs: seq<StatusChange>, r: Reader)
    ensures Seq(Learn(Grouped(cs), r)) == Seq(Learn(Singles(cs), r))
  {
    if cs != [] {
      var n := |cs| - 1;
      BatchingKeepsHorizons(cs[..n], r);
      NextHorizon(cs[..n], cs[n], cs, r);
      NextSingle(cs[..n], cs[n], cs, r);
    }
  }

  /** All changes of a group are the leader's kin. */
  lemma SameBatch(cs: seq<StatusChange>, l: nat)
    requires l < |cs|
    ensures Group(cs, l) != []
    ensures forall i :: 0 <= i < |Group(cs, l)| ==> KeyOf(Group(cs, l)[i]) == KeyOf(cs[l]) && Group(cs, l)[i] in cs
  {
    GroupsAreNotEmpty(cs, l);
    BatchShares(cs, cs[l]);
  }

  // ----- unread counts -----

  predicate Reports(c: StatusChange, r: Reader) {
    c.thread == r.thread && c.member == r.member && StatusName(c.status) == r.status
  }

  /** Two changes of a reader at one horizon carry one count. */
  predicate CountsAgree(cs: seq<StatusChange>, r: Reader) {
    forall i, j ::
      0 <= i < |cs| && 0 <= j < |cs| && Reports(cs[i], r) && Reports(cs[j], r) && cs[i].upToSeq == cs[j].upToSeq
      ==> cs[i].unreadCount == cs[j].unreadCount
  }

  /** What a reader learned is what some event told it. */
  lemma {:induction false} LearnedFromAnEvent(events: seq<StatusEvent>, r: Reader) returns (p: nat)
    requires Learn(events, r).Some?
    ensures p < |events| && Tells(events[p], r)
    ensures Learn(events, r).value == Horizon(events[p].upToSeq, events[p].unreadCount)
  {
    var n := |events| - 1;
    if Tells(events[n], r) && Learn(events, r) == Some(Horizon(events[n].upToSeq, events[n].unreadCount)) {
      p := n;
    } else {
      p := LearnedFromAnEvent(events[..n], r);
    }
  }

  /** The grouped events take their watermark from a change of the same reader. */
  lemma GroupedTellsAChange(cs: seq<StatusChange>, p: nat, r: Reader) returns (i: nat)
    requires p < |Grouped(cs)| && Tells(Grouped(cs)[p], r)
    ensures i < |cs| && Reports(cs[i], r)
    ensures cs[i].upToSeq == Grouped(cs)[p].upToSeq && cs[i].unreadCount == Grouped(cs)[p].unreadCount
  {
    var l := Leaders(cs)[p];
    SameBatch(cs, l);
    var g := Group(cs, l);
    var k := SummaryIsTheWatermark(g);
    assert g[k] in cs && KeyOf(g[0]) == KeyOf(g[k]);
    i :| 0 <= i < |cs| && cs[i] == g[k];
  }

  /** Where a reader's changes agree on the count at each horizon, batching keeps the count too. */
  lemma BatchingKeepsUnreadCounts(cs: seq<StatusChange>, r: Reader)
    requires CountsAgree(cs, r)
    ensures Learn(Grouped(cs), r) == Learn(Singles(cs), r)
  {
    BatchingKeepsHorizons(cs, r);
    if Learn(Grouped(cs), r).Some? {
      var p := LearnedFromAnEvent(Grouped(cs), r);
      var i := GroupedTellsAChange(cs, p, r);
      var j := LearnedFromAnEvent(Singles(cs), r);
      assert Reports(cs[j], r);
    }
  }

  // ----- what an event says -----

  lemma {:induction false} BatchBeginsWithItsLeader(cs: seq<StatusChange>, l: nat)
    requires l < |cs| && Batched(cs[l]) && Leads(cs, l)
    ensures BatchOf(cs, cs[l]) != [] && BatchOf(cs, cs[l])[0] == cs[l]
    decreases |cs|
  {
    var n := |cs| - 1;
    if l < n {
      assert Leads(cs[..n], l) by {
        assert forall j :: 0 <= j < l ==> cs[..n][j] == cs[j];
      }
      BatchBeginsWithItsLeader(cs[..n], l);
    } else {
      AlonelyBatch(cs[..n], cs[n]);
    }
  }

  /** An event carries the thread, member, domain, sender and error of the change that opens it, and
      the name of its status. */
  lemma EventNamesItsLeader(cs: seq<StatusChange>, p: nat)
    requires p < |Grouped(cs)|
    ensures
      var e, c := Grouped(cs)[p], cs[Leaders(cs)[p]];
      && e.thread == c.thread && e.domain == c.domain && e.member == c.member && e.error == c.error
      && e.via == (match c.via case None => "" case Some(via) => via)
      && (e.status == "sent" <==> c.status == 1)
      && (e.status == "delivered" <==> c.status == 2)
      && (e.status == "read" <==> c.status == 3)
      && (e.status == "failed" <==> c.status == 4)
      && (e.status == "unspecified" <==> c.status !in {1, 2, 3, 4})
  {
    LeadersLead(cs);
    var l := Leaders(cs)[p];
    if Batched(cs[l]) {
      BatchBeginsWithItsLeader(cs, l);
    }
  }

  /** Two changes come from the same sender, where none is as good as an empty one. */
  predicate SameVia(a: StatusChange, b: StatusChange) {
    a.via == b.via || (a.via in {None, Some("")} && b.via in {None, Some("")})
  }

  predicate Distinct(cs: seq<StatusChange>) {
    forall i, j :: 0 <= i < j < |cs| ==> cs[i].message != cs[j].message
  }

  lemma {:induction false} BatchMembers(cs: seq<StatusChange>, c: StatusChange, x: StatusChange)
    ensures x in BatchOf(cs, c) <==> x in cs && SharesBatch(x, c)
  {
    if cs != [] {
      var n := |cs| - 1;
      BatchMembers(cs[..n], c, x);
      assert cs == cs[..n] + [cs[n]];
    }
  }

  lemma MessageOfItsGroup(cs: seq<StatusChange>, p: nat, i: nat)
    requires Distinct(cs) && p < |Grouped(cs)| && i < |cs|
    ensures cs[i].message in Grouped(cs)[p].messages <==> cs[i] in Group(cs, Leaders(cs)[p])
  {
    var g := Group(cs, Leaders(cs)[p]);
    if cs[i] in g {
      var k :| 0 <= k < |g| && g[k] == cs[i];
      assert Messages(g)[k] == cs[i].message;
    }
    if cs[i].message in Messages(g) {
      var k :| 0 <= k < |g| && Messages(g)[k] == cs[i].message;
      SameBatch(cs, Leaders(cs)[p]);
      assert g[k] in cs;
      var j :| 0 <= j < |cs| && cs[j] == g[k];
      assert j == i;
    }
  }

  /** Two changes of one batch of receipts are told in one event exactly if they agree on thread,
      member, status and sender, and are no failures. */
  lemma ToldTogetherIff(cs: seq<StatusChange>, i: nat, j: nat)
    requires Distinct(cs) && i < j < |cs|
    ensures
      (exists p :: 0 <= p < |Grouped(cs)| && cs[i].message in Grouped(cs)[p].messages
          && cs[j].message in Grouped(cs)[p].messages)
      <==> && cs[i].thread == cs[j].thread && cs[i].member == cs[j].member && cs[i].status == cs[j].status
           && SameVia(cs[i], cs[j]) && cs[i].status != 4
  {
    var p := LeaderOf(cs, i);
    var l := Leaders(cs)[p];
    forall q | 0 <= q < |Grouped(cs)|
      ensures cs[i].message in Grouped(cs)[q].messages && cs[j].message in Grouped(cs)[q].messages
          ==> SharesBatch(cs[i], cs[j])
    {
      MessageOfItsGroup(cs, q, i);
      MessageOfItsGroup(cs, q, j);
      BatchMembers(cs, cs[Leaders(cs)[q]], cs[i]);
      BatchMembers(cs, cs[Leaders(cs)[q]], cs[j]);
    }
    if SharesBatch(cs[i], cs[j]) {
      MessageOfItsGroup(cs, p, i);
      MessageOfItsGroup(cs, p, j);
      BatchMembers(cs, cs[l], cs[i]);
      BatchMembers(cs, cs[l], cs[j]);
    }
  }
}
