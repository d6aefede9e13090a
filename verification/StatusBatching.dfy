/** Status changes of one batch of receipts, grouped into events in a single pass over shared,
    mutable events. */
module StatusBatching {
  import opened Wrappers

  const FAILED := 4

  datatype StatusChange = StatusChange(
    thread: nat,
    domain: int,
    member: nat,
    message: nat,
    upToSeq: int,
    unreadCount: Option<int>,
    status: int,
    via: Option<string>,
    error: Option<string>,
    updatedAt: int)

  datatype StatusEvent = StatusEvent(
    thread: nat,
    domain: int,
    member: nat,
    messages: seq<nat>,
    upToSeq: int,
    unreadCount: Option<int>,
    status: string,
    via: string,
    error: Option<string>,
    occurredAt: int)

  datatype Key = Key(thread: nat, member: nat, status: int, via: string)

  function StatusName(status: int): (name: string) {
    match status
    case 1 => "sent"
    case 2 => "delivered"
    case 3 => "read"
    case 4 => "failed"
    case _ => "unspecified"
  }

  function ViaName(c: StatusChange): (name: string) {
    if c.via.Some? then c.via.value else ""
  }

  function KeyOf(c: StatusChange): (k: Key) {
    Key(c.thread, c.member, c.status, ViaName(c))
  }

  /** Failures keep one event each; every other change is batched with the others of its key. */
  predicate Batched(c: StatusChange) {
    c.status != FAILED
  }

  /** The changes a pass over pointers sees once it skips the nil ones. */
  function Present(changes: seq<Option<StatusChange>>): (cs: seq<StatusChange>) {
    if changes == [] then []
    else
      var n := |changes| - 1;
      Present(changes[..n]) + if changes[n].Some? then [changes[n].value] else []
  }

  // ----- the grouping, said without a pass -----

  predicate SharesBatch(a: StatusChange, b: StatusChange) {
    Batched(a) && Batched(b) && KeyOf(a) == KeyOf(b)
  }

  /** Change i opens an event: no earlier change shares its batch. */
  predicate Leads(cs: seq<StatusChange>, i: nat)
    requires i < |cs|
  {
    forall j :: 0 <= j < i ==> !SharesBatch(cs[j], cs[i])
  }

  /** The positions of the changes that open an event, in order. */
  function Leaders(cs: seq<StatusChange>): (ls: seq<nat>)
    ensures forall p :: 0 <= p < |ls| ==> ls[p] < |cs|
  {
    if cs == [] then []
    else
      var n := |cs| - 1;
      Leaders(cs[..n]) + if Leads(cs, n) then [n] else []
  }

  /** The changes that share c's batch, in order. */
  function BatchOf(cs: seq<StatusChange>, c: StatusChange): (g: seq<StatusChange>) {
    if cs == [] then []
    else
      var n := |cs| - 1;
      BatchOf(cs[..n], c) + if SharesBatch(cs[n], c) then [cs[n]] else []
  }

  /** The changes the event opened by change l stands for. */
  function Group(cs: seq<StatusChange>, l: nat): (g: seq<StatusChange>)
    requires l < |cs|
  {
    if Batched(cs[l]) then BatchOf(cs, cs[l]) else [cs[l]]
  }

  function Messages(g: seq<StatusChange>): (ids: seq<nat>)
    ensures |ids| == |g| && forall i :: 0 <= i < |g| ==> ids[i] == g[i].message
  {
    seq(|g|, i requires 0 <= i < |g| => g[i].message)
  }

  /** The furthest horizon of a group. */
  function Furthest(g: seq<StatusChange>): (upTo: int)
    requires g != []
  {
    var n := |g| - 1;
    if n == 0 then g[0].upToSeq
    else if g[n].upToSeq > Furthest(g[..n]) then g[n].upToSeq else Furthest(g[..n])
  }

  /** The unread count of the first change that reaches it. */
  function UnreadAtFurthest(g: seq<StatusChange>): (unread: Option<int>)
    requires g != []
  {
    var n := |g| - 1;
    if n == 0 then g[0].unreadCount
    else if g[n].upToSeq > Furthest(g[..n]) then g[n].unreadCount else UnreadAtFurthest(g[..n])
  }

  function Latest(g: seq<StatusChange>): (at: int)
    requires g != []
  {
    var n := |g| - 1;
    if n == 0 then g[0].updatedAt
    else if g[n].updatedAt > Latest(g[..n]) then g[n].updatedAt else Latest(g[..n])
  }

  function Summary(g: seq<StatusChange>): (e: StatusEvent)
    requires g != []
  {
    var c := g[0];
    StatusEvent(c.thread, c.domain, c.member, Messages(g), Furthest(g), UnreadAtFurthest(g),
                StatusName(c.status), ViaName(c), c.error, Latest(g))
  }

  lemma {:induction false} GroupsAreNotEmpty(cs: seq<StatusChange>, l: nat)
    requires l < |cs|
    ensures Group(cs, l) != []
    decreases |cs|
  {
    if Batched(cs[l]) && l < |cs| - 1 {
      assert cs[..|cs| - 1][l] == cs[l];
      GroupsAreNotEmpty(cs[..|cs| - 1], l);
    }
  }

  function EventOf(cs: seq<StatusChange>, l: nat): (e: StatusEvent)
    requires l < |cs|
  {
    GroupsAreNotEmpty(cs, l);
    Summary(Group(cs, l))
  }

  /** One event per leader, in order. */
  function Grouped(cs: seq<StatusChange>): (events: seq<StatusEvent>)
    ensures |events| == |Leaders(cs)|
    ensures forall p :: 0 <= p < |events| ==> events[p] == EventOf(cs, Leaders(cs)[p])
  {
    seq(|Leaders(cs)|, p requires 0 <= p < |Leaders(cs)| => EventOf(cs, Leaders(cs)[p]))
  }

  // ----- one more change -----

  /** ds is cs and one more change c. */
  predicate Next(cs: seq<StatusChange>, c: StatusChange, ds: seq<StatusChange>) {
    |ds| == |cs| + 1 && ds[..|cs|] == cs && ds[|cs|] == c
  }

  lemma NextGroup(cs: seq<StatusChange>, c: StatusChange, ds: seq<StatusChange>, l: nat)
    requires Next(cs, c, ds) && l < |cs|
    ensures Group(ds, l) == Group(cs, l) + if SharesBatch(c, cs[l]) then [c] else []
  {
    assert ds[l] == cs[l];
  }

  lemma {:induction false} AlonelyBatch(cs: seq<StatusChange>, c: StatusChange)
    requires forall j :: 0 <= j < |cs| ==> !SharesBatch(cs[j], c)
    ensures BatchOf(cs, c) == []
  {
    if cs != [] {
      AlonelyBatch(cs[..|cs| - 1], c);
    }
  }

  /** No change of cs shares c's batch. */
  predicate Opens(cs: seq<StatusChange>, c: StatusChange) {
    forall j :: 0 <= j < |cs| ==> !SharesBatch(cs[j], c)
  }

  lemma OpensLeads(cs: seq<StatusChange>, c: StatusChange, ds: seq<StatusChange>)
    requires Next(cs, c, ds)
    ensures Leads(ds, |cs|) <==> Opens(cs, c)
    ensures Leaders(ds) == Leaders(cs) + if Opens(cs, c) then [|cs|] else []
  {
    assert forall j :: 0 <= j < |cs| ==> ds[j] == cs[j];
  }

  lemma OpenedGroup(cs: seq<StatusChange>, c: StatusChange, ds: seq<StatusChange>)
    requires Next(cs, c, ds) && Opens(cs, c)
    ensures Group(ds, |cs|) == [c]
  {
    AlonelyBatch(cs, c);
  }

  /** Every leader is the first of its batch. */
  lemma {:induction false} LeadersLead(cs: seq<StatusChange>)
    ensures forall p :: 0 <= p < |Leaders(cs)| ==> Leads(cs, Leaders(cs)[p])
    ensures forall p, q :: 0 <= p < q < |Leaders(cs)| ==> Leaders(cs)[p] < Leaders(cs)[q]
  {
    if cs != [] {
      var n := |cs| - 1;
      LeadersLead(cs[..n]);
      forall p | 0 <= p < |Leaders(cs[..n])|
        ensures Leads(cs, Leaders(cs[..n])[p])
      {
        var l := Leaders(cs[..n])[p];
        assert Leads(cs[..n], l);
        assert forall j :: 0 <= j <= l ==> cs[..n][j] == cs[j];
      }
    }
  }

  /** Every change's batch has a leader. */
  lemma {:induction false} LeaderOf(cs: seq<StatusChange>, i: nat) returns (p: nat)
    requires i < |cs|
    ensures p < |Leaders(cs)| && (Leaders(cs)[p] == i || SharesBatch(cs[Leaders(cs)[p]], cs[i]))
    decreases |cs|, i
  {
    var n := |cs| - 1;
    if i < n {
      p := LeaderOf(cs[..n], i);
    } else if Leads(cs, n) {
      p := |Leaders(cs)| - 1;
    } else {
      var j :| 0 <= j < n && SharesBatch(cs[j], cs[n]);
      p := LeaderOf(cs, j);
    }
  }

  /** What one more change does to the event of leader l. */
  lemma NextEvent(cs: seq<StatusChange>, c: StatusChange, ds: seq<StatusChange>, l: nat)
    requires Next(cs, c, ds) && l < |cs|
    ensures Group(cs, l) != []
    ensures !SharesBatch(cs[l], c) ==> EventOf(ds, l) == EventOf(cs, l)
    ensures SharesBatch(cs[l], c) ==> EventOf(ds, l) == Summary(Group(cs, l) + [c])
  {
    NextGroup(cs, c, ds, l);
    GroupsAreNotEmpty(cs, l);
    assert Group(cs, l) + [] == Group(cs, l);
  }

  lemma OpenStep(cs: seq<StatusChange>, c: StatusChange, ds: seq<StatusChange>)
    requires Next(cs, c, ds) && Opens(cs, c)
    ensures Leaders(ds) == Leaders(cs) + [|cs|]
    ensures Grouped(ds) == Grouped(cs) + [Summary([c])]
  {
    OpensLeads(cs, c, ds);
    OpenedGroup(cs, c, ds);
    forall p | 0 <= p < |Leaders(cs)|
      ensures EventOf(ds, Leaders(cs)[p]) == EventOf(cs, Leaders(cs)[p])
    {
      NextEvent(cs, c, ds, Leaders(cs)[p]);
    }
  }

  /** Two leaders never share a batch. */
  lemma LeadersDiffer(cs: seq<StatusChange>, p: nat, q: nat)
    requires p < |Leaders(cs)| && q < |Leaders(cs)| && p != q
    ensures !SharesBatch(cs[Leaders(cs)[p]], cs[Leaders(cs)[q]])
  {
    LeadersLead(cs);
  }

  lemma JoinStep(cs: seq<StatusChange>, c: StatusChange, ds: seq<StatusChange>, p: nat)
    requires Next(cs, c, ds)
    requires p < |Leaders(cs)| && SharesBatch(cs[Leaders(cs)[p]], c)
    ensures Leaders(ds) == Leaders(cs) && Group(cs, Leaders(cs)[p]) != []
    ensures Grouped(ds) == Grouped(cs)[p := Summary(Group(cs, Leaders(cs)[p]) + [c])]
  {
    OpensLeads(cs, c, ds);
    NextEvent(cs, c, ds, Leaders(cs)[p]);
    forall q | 0 <= q < |Leaders(cs)| && q != p
      ensures EventOf(ds, Leaders(cs)[q]) == EventOf(cs, Leaders(cs)[q])
    {
      LeadersDiffer(cs, p, q);
      NextEvent(cs, c, ds, Leaders(cs)[q]);
    }
  }

  lemma NextPresent(changes: seq<Option<StatusChange>>, i: nat)
    requires i < |changes|
    ensures Present(changes[..i + 1]) ==
      if changes[i].Some? then Present(changes[..i]) + [changes[i].value] else Present(changes[..i])
  {
    assert changes[..i + 1][..i] == changes[..i];
  }

  // ----- the pass -----

  /** An event under construction, shared between the list of events and the map of batches. */
  class MessageStatusChanged {
    const thread: nat
    const domain: int
    const member: nat
    const status: string
    const via: string
    const error: Option<string>
    var messageIds: seq<nat>
    var upToSeq: int
    var unreadCount: Option<int>
    var occurredAt: int

    constructor (c: StatusChange)
      ensures View() == Summary([c])
    {
      thread, domain, member := c.thread, c.domain, c.member;
      status, via, error := StatusName(c.status), ViaName(c), c.error;
      messageIds, upToSeq, unreadCount, occurredAt := [c.message], c.upToSeq, c.unreadCount, c.updatedAt;
    }

    function View(): (e: StatusEvent)
      reads this
    {
      StatusEvent(thread, domain, member, messageIds, upToSeq, unreadCount, status, via, error, occurredAt)
    }

    /** Adds a change to the event of its batch. */
    method Absorb(c: StatusChange, ghost g: seq<StatusChange>)
      requires g != [] && View() == Summary(g)
      modifies this
      ensures View() == Summary(g + [c])
    {
      assert (g + [c])[..|g|] == g;
      assert Messages(g + [c]) == Messages(g) + [c.message];
      messageIds := messageIds + [c.message];
      if c.upToSeq > upToSeq {
        upToSeq := c.upToSeq;
        unreadCount := c.unreadCount;
      }
      if c.updatedAt > occurredAt {
        occurredAt := c.updatedAt;
      }
    }
  }

  /** Distinct events that show the given values. */
  ghost predicate Shows(events: seq<MessageStatusChanged>, views: seq<StatusEvent>)
    reads events
  {
    && |events| == |views|
    && (forall p, q :: 0 <= p < q < |events| ==> events[p] != events[q])
    && (forall p :: 0 <= p < |events| ==> events[p].View() == views[p])
  }

  /** The map points every batch at an event of the list, whose place slot remembers. */
  ghost predicate Points(grouped: map<Key, MessageStatusChanged>, events: seq<MessageStatusChanged>,
                         slot: map<Key, nat>) {
    && grouped.Keys == slot.Keys
    && forall k :: k in slot ==> slot[k] < |events| && grouped[k] == events[slot[k]]
  }

  lemma PointsAfterOpen(grouped: map<Key, MessageStatusChanged>, events: seq<MessageStatusChanged>, slot: map<Key, nat>,
                        e: MessageStatusChanged, k: Key)
    requires Points(grouped, events, slot)
    ensures Points(grouped, events + [e], slot)
    ensures Points(grouped[k := e], events + [e], slot[k := |events|])
  {
  }

  /** Every batch of cs has a slot, and it is its leader's. */
  ghost predicate Slots(cs: seq<StatusChange>, slot: map<Key, nat>) {
    && (forall k :: k in slot ==> LeadsBatch(cs, slot[k], k))
    && (forall j :: 0 <= j < |cs| && Batched(cs[j]) ==> KeyOf(cs[j]) in slot)
  }

  predicate LeadsBatch(cs: seq<StatusChange>, p: nat, k: Key) {
    p < |Leaders(cs)| && Batched(cs[Leaders(cs)[p]]) && KeyOf(cs[Leaders(cs)[p]]) == k
  }

  /** A leader keeps its slot while changes and leaders are only appended. */
  lemma SlotCarriesOver(cs: seq<StatusChange>, c: StatusChange, ds: seq<StatusChange>, p: nat, k: Key)
    requires Next(cs, c, ds) && LeadsBatch(cs, p, k)
    ensures LeadsBatch(ds, p, k)
  {
    OpensLeads(cs, c, ds);
    assert Leaders(ds)[p] == Leaders(cs)[p];
  }

  lemma SlotsCarryOver(cs: seq<StatusChange>, c: StatusChange, ds: seq<StatusChange>, slot: map<Key, nat>)
    requires Next(cs, c, ds) && Slots(cs, slot) && (Batched(c) ==> KeyOf(c) in slot)
    ensures Slots(ds, slot)
  {
    assert forall j :: 0 <= j < |cs| ==> ds[j] == cs[j];
    forall k | k in slot
      ensures LeadsBatch(ds, slot[k], k)
    {
      SlotCarriesOver(cs, c, ds, slot[k], k);
    }
  }

  lemma SlotsAfterOpen(cs: seq<StatusChange>, c: StatusChange, ds: seq<StatusChange>, slot: map<Key, nat>)
    requires Next(cs, c, ds) && Slots(cs, slot) && Batched(c) && KeyOf(c) !in slot
    ensures Opens(cs, c) && Slots(ds, slot[KeyOf(c) := |Leaders(cs)|])
  {
    assert forall j :: 0 <= j < |cs| ==> ds[j] == cs[j];
    OpensLeads(cs, c, ds);
    assert LeadsBatch(ds, |Leaders(cs)|, KeyOf(c));
    forall k | k in slot
      ensures LeadsBatch(ds, slot[k], k)
    {
      SlotCarriesOver(cs, c, ds, slot[k], k);
    }
  }

  method GroupStatusChanges(changes: seq<Option<StatusChange>>) returns (events: seq<MessageStatusChanged>)
    ensures fresh(events)
    ensures forall p, q :: 0 <= p < q < |events| ==> events[p] != events[q]
    ensures |events| == |Grouped(Present(changes))|
    ensures forall p :: 0 <= p < |events| ==> events[p].View() == Grouped(Present(changes))[p]
  {
    events := [];
    var grouped: map<Key, MessageStatusChanged> := map[];
    ghost var slot: map<Key, nat> := map[];
    ghost var cs: seq<StatusChange> := [];
    for i := 0 to |changes|
      invariant cs == Present(changes[..i])
      invariant forall p :: 0 <= p < |events| ==> fresh(events[p])
      invariant Shows(events, Grouped(cs)) && Slots(cs, slot) && Points(grouped, events, slot)
    {
      NextPresent(changes, i);
      if changes[i].None? {
        continue;
      }
      events, grouped, slot := AddChange(cs, changes[i].value, events, grouped, slot);
      cs := cs + [changes[i].value];
    }
    assert changes[..|changes|] == changes;
  }

  /** One change of the pass: it joins the event its batch already has, which list and map share,
      or opens one. */
  method AddChange(ghost cs: seq<StatusChange>, c: StatusChange, events: seq<MessageStatusChanged>,
                   grouped: map<Key, MessageStatusChanged>, ghost slot: map<Key, nat>)
    returns (events': seq<MessageStatusChanged>, grouped': map<Key, MessageStatusChanged>, ghost slot': map<Key, nat>)
    requires Shows(events, Grouped(cs)) && Slots(cs, slot) && Points(grouped, events, slot)
    modifies events
    ensures forall p :: 0 <= p < |events'| ==> events'[p] in events || fresh(events'[p])
    ensures Shows(events', Grouped(cs + [c])) && Slots(cs + [c], slot') && Points(grouped', events', slot')
  {
    var k := KeyOf(c);
    if c.status != FAILED && k in grouped {
      events', grouped', slot' := events, grouped, slot;
      JoinBatch(cs, c, events, grouped, slot);
    } else {
      events', grouped', slot' := OpenEvent(cs, c, events, grouped, slot);
    }
  }

  method JoinBatch(ghost cs: seq<StatusChange>, c: StatusChange, ghost events: seq<MessageStatusChanged>,
                   grouped: map<Key, MessageStatusChanged>, ghost slot: map<Key, nat>)
    requires Shows(events, Grouped(cs)) && Slots(cs, slot) && Points(grouped, events, slot)
    requires Batched(c) && KeyOf(c) in grouped
    modifies events
    ensures Shows(events, Grouped(cs + [c])) && Slots(cs + [c], slot)
  {
    ghost var p := slot[KeyOf(c)];
    assert LeadsBatch(cs, p, KeyOf(c));
    assert Next(cs, c, cs + [c]);
    JoinStep(cs, c, cs + [c], p);
    SlotsCarryOver(cs, c, cs + [c], slot);
    Join(events, Grouped(cs), p, grouped[KeyOf(c)], c, Group(cs, Leaders(cs)[p]));
  }

  method OpenEvent(ghost cs: seq<StatusChange>, c: StatusChange, events: seq<MessageStatusChanged>,
                   grouped: map<Key, MessageStatusChanged>, ghost slot: map<Key, nat>)
    returns (events': seq<MessageStatusChanged>, grouped': map<Key, MessageStatusChanged>, ghost slot': map<Key, nat>)
    requires Shows(events, Grouped(cs)) && Slots(cs, slot) && Points(grouped, events, slot)
    requires Batched(c) ==> KeyOf(c) !in grouped
    ensures forall p :: 0 <= p < |events'| ==> events'[p] in events || fresh(events'[p])
    ensures Shows(events', Grouped(cs + [c])) && Slots(cs + [c], slot') && Points(grouped', events', slot')
  {
    assert Next(cs, c, cs + [c]);
    var e;
    e, events' := Open(events, Grouped(cs), c);
    PointsAfterOpen(grouped, events, slot, e, KeyOf(c));
    if c.status == FAILED {
      SlotsCarryOver(cs, c, cs + [c], slot);
      grouped', slot' := grouped, slot;
    } else {
      SlotsAfterOpen(cs, c, cs + [c], slot);
      grouped', slot' := grouped[KeyOf(c) := e], slot[KeyOf(c) := |events|];
    }
    OpenStep(cs, c, cs + [c]);
  }

  method Open(events: seq<MessageStatusChanged>, ghost views: seq<StatusEvent>, c: StatusChange)
    returns (e: MessageStatusChanged, events': seq<MessageStatusChanged>)
    requires Shows(events, views)
    ensures fresh(e) && events' == events + [e]
    ensures Shows(events', views + [Summary([c])])
  {
    e := new MessageStatusChanged(c);
    events' := events + [e];
  }

  method Join(ghost events: seq<MessageStatusChanged>, ghost views: seq<StatusEvent>, ghost p: nat,
              e: MessageStatusChanged, c: StatusChange, ghost g: seq<StatusChange>)
    requires Shows(events, views) && p < |events| && events[p] == e
    requires g != [] && views[p] == Summary(g)
    modifies e
    ensures Shows(events, views[p := Summary(g + [c])])
  {
    e.Absorb(c, g);
  }
}
