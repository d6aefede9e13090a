/** Thread ids in the byte order their locks are taken in, and the stable sort by thread. */
module ThreadOrder {

  import opened Bytes

  /** Threads, contacts and dialogs are told apart by uuids, which the database orders bytewise too. */
  type ThreadId = seq<Byte>
  type ContactId = seq<Byte>
  type DialogId = seq<Byte>
  type MessageId = nat

  datatype Message = Message(id: MessageId, thread: ThreadId)

  /** Bytewise comparison: negative, zero or positive. */
  function Compare(a: ThreadId, b: ThreadId): (order: int) {
    if a == [] then if b == [] then 0 else -1
    else if b == [] then 1
    else if a[0] < b[0] then -1
    else if b[0] < a[0] then 1
    else Compare(a[1..], b[1..])
  }

  lemma {:induction false} CompareIsTotal(a: ThreadId, b: ThreadId)
    ensures Compare(a, b) == 0 <==> a == b
    ensures Compare(a, b) < 0 <==> Compare(b, a) > 0
  {
    if a != [] && b != [] && a[0] == b[0] {
      CompareIsTotal(a[1..], b[1..]);
      assert a == [a[0]] + a[1..] && b == [b[0]] + b[1..];
    }
  }

  /** The first byte that differs decides, and a text comes before those it begins. */
  lemma {:induction false} CompareIsBytewise(a: ThreadId, b: ThreadId, k: nat)
    requires k <= |a| && k <= |b| && a[..k] == b[..k]
    ensures k == |a| < |b| ==> Compare(a, b) < 0
    ensures k < |a| && k < |b| && a[k] < b[k] ==> Compare(a, b) < 0
    ensures k < |a| && k < |b| && a[k] > b[k] ==> Compare(a, b) > 0
    decreases k
  {
    if k > 0 {
      assert a[0] == a[..k][0] == b[0];
      assert a[1..][..k - 1] == a[..k][1..] == b[1..][..k - 1];
      CompareIsBytewise(a[1..], b[1..], k - 1);
    }
  }

  lemma {:induction false} CompareIsTransitive(a: ThreadId, b: ThreadId, c: ThreadId)
    requires Compare(a, b) <= 0 && Compare(b, c) <= 0
    ensures Compare(a, c) <= 0
    ensures Compare(a, b) < 0 || Compare(b, c) < 0 ==> Compare(a, c) < 0
  {
    if a != [] && b != [] && c != [] && a[0] == b[0] == c[0] {
      CompareIsTransitive(a[1..], b[1..], c[1..]);
    }
  }

  predicate Ascending(ids: seq<ThreadId>) {
    forall i, j :: 0 <= i < j < |ids| ==> Compare(ids[i], ids[j]) <= 0
  }

  predicate StrictlyAscending(ids: seq<ThreadId>) {
    forall i, j :: 0 <= i < j < |ids| ==> Compare(ids[i], ids[j]) < 0
  }

  function Elements(ids: seq<ThreadId>): (all: set<ThreadId>) {
    set t | t in ids
  }

  /** A nonempty ascending sequence is an ascending front and its greatest element. */
  lemma Peel(a: seq<ThreadId>) returns (front: seq<ThreadId>, last: ThreadId)
    requires StrictlyAscending(a) && a != []
    ensures a == front + [last] && last == a[|a| - 1]
    ensures StrictlyAscending(front)
    ensures Elements(front) == Elements(a) - {last}
  {
    front, last := a[..|a| - 1], a[|a| - 1];
    forall i | 0 <= i < |front|
      ensures front[i] != last
    {
      CompareIsTotal(front[i], last);
    }
  }

  lemma NoElements(a: seq<ThreadId>)
    ensures Elements(a) == {} <==> a == []
  {
    if a != [] {
      assert a[0] in Elements(a);
    }
  }

  lemma LastIsGreatest(a: seq<ThreadId>, t: ThreadId)
    requires StrictlyAscending(a) && a != [] && t in Elements(a)
    ensures Compare(t, a[|a| - 1]) <= 0
  {
    CompareIsTotal(t, t);
  }

  lemma SameLast(a: seq<ThreadId>, b: seq<ThreadId>)
    requires StrictlyAscending(a) && StrictlyAscending(b) && a != [] && b != []
    requires Elements(a) == Elements(b)
    ensures a[|a| - 1] == b[|b| - 1]
  {
    var x, y := a[|a| - 1], b[|b| - 1];
    assert x in Elements(a) && y in Elements(b);
    LastIsGreatest(a, y);
    LastIsGreatest(b, x);
    CompareIsTotal(x, y);
  }

  /** A strictly ascending sequence is decided by its elements. */
  lemma {:induction false} StrictlyAscendingIsUnique(a: seq<ThreadId>, b: seq<ThreadId>)
    requires StrictlyAscending(a) && StrictlyAscending(b)
    requires Elements(a) == Elements(b)
    ensures a == b
    decreases |a|
  {
    NoElements(a);
    NoElements(b);
    if a != [] {
      SameLast(a, b);
      var frontA, x := Peel(a);
      var frontB, y := Peel(b);
      StrictlyAscendingIsUnique(frontA, frontB);
    }
  }

  // ----- the stable sort -----

  function Threads(ms: seq<Message>): (ts: seq<ThreadId>)
    ensures |ts| == |ms|
    ensures forall i :: 0 <= i < |ms| ==> ts[i] == ms[i].thread
  {
    seq(|ms|, i requires 0 <= i < |ms| => ms[i].thread)
  }

  /** Puts m behind every message whose thread is not greater. */
  function Insert(ms: seq<Message>, m: Message): (after: seq<Message>) {
    if ms == [] then [m]
    else
      var n := |ms| - 1;
      if Compare(ms[n].thread, m.thread) <= 0 then ms + [m] else Insert(ms[..n], m) + [ms[n]]
  }

  /** The messages by ascending thread, equal threads in their original order. */
  function SortStable(ms: seq<Message>): (sorted: seq<Message>) {
    if ms == [] then [] else Insert(SortStable(ms[..|ms| - 1]), ms[|ms| - 1])
  }

  /** The messages of one thread, in order. */
  function OfThread(ms: seq<Message>, t: ThreadId): (own: seq<Message>) {
    if ms == [] then []
    else
      var n := |ms| - 1;
      OfThread(ms[..n], t) + if ms[n].thread == t then [ms[n]] else []
  }

  /** No message's thread is greater than t. */
  predicate Below(ms: seq<Message>, t: ThreadId) {
    forall i :: 0 <= i < |ms| ==> Compare(ms[i].thread, t) <= 0
  }

  lemma {:induction false} InsertStaysBelow(ms: seq<Message>, m: Message, t: ThreadId)
    requires Below(ms, t) && Compare(m.thread, t) <= 0
    ensures Below(Insert(ms, m), t)
  {
    if ms != [] {
      InsertStaysBelow(ms[..|ms| - 1], m, t);
    }
  }

  lemma {:induction false} InsertPermutes(ms: seq<Message>, m: Message)
    ensures multiset(Insert(ms, m)) == multiset(ms) + multiset{m}
  {
    if ms != [] {
      var n := |ms| - 1;
      assert ms == ms[..n] + [ms[n]];
      InsertPermutes(ms[..n], m);
    }
  }

  /** What bounds the last of ascending messages bounds them all. */
  lemma LastBounds(ms: seq<Message>, t: ThreadId)
    requires Ascending(Threads(ms)) && ms != [] && Compare(ms[|ms| - 1].thread, t) <= 0
    ensures Below(ms, t)
  {
    var ts, n := Threads(ms), |ms| - 1;
    forall i | 0 <= i < |ms|
      ensures Compare(ms[i].thread, t) <= 0
    {
      if i < n {
        assert Compare(ts[i], ts[n]) <= 0;
        CompareIsTransitive(ms[i].thread, ms[n].thread, t);
      }
    }
  }

  lemma FrontAscends(ms: seq<Message>)
    requires Ascending(Threads(ms)) && ms != []
    ensures Ascending(Threads(ms[..|ms| - 1])) && Below(ms[..|ms| - 1], ms[|ms| - 1].thread)
  {
    var ts, n := Threads(ms), |ms| - 1;
    assert Threads(ms[..n]) == ts[..n];
    assert forall i :: 0 <= i < n ==> Compare(ts[i], ts[n]) <= 0;
  }

  lemma {:induction false} InsertSorts(ms: seq<Message>, m: Message)
    requires Ascending(Threads(ms))
    ensures Ascending(Threads(Insert(ms, m)))
  {
    if ms != [] {
      var n := |ms| - 1;
      CompareIsTotal(ms[n].thread, m.thread);
      if Compare(ms[n].thread, m.thread) <= 0 {
        LastBounds(ms, m.thread);
        AscendingThen(ms, m);
      } else {
        FrontAscends(ms);
        InsertSorts(ms[..n], m);
        InsertStaysBelow(ms[..n], m, ms[n].thread);
        AscendingThen(Insert(ms[..n], m), ms[n]);
      }
    }
  }

  lemma AscendingThen(ms: seq<Message>, m: Message)
    requires Ascending(Threads(ms)) && Below(ms, m.thread)
    ensures Ascending(Threads(ms + [m]))
  {
    assert Threads(ms + [m]) == Threads(ms) + [m.thread];
  }

  lemma OfThreadNext(ms: seq<Message>, m: Message, t: ThreadId)
    ensures OfThread(ms + [m], t) == OfThread(ms, t) + if m.thread == t then [m] else []
  {
    assert (ms + [m])[..|ms|] == ms;
  }

  lemma InsertPastIsStable(front: seq<Message>, last: Message, inserted: seq<Message>, m: Message, t: ThreadId)
    requires last.thread != m.thread
    requires OfThread(inserted, t) == OfThread(front, t) + if m.thread == t then [m] else []
    ensures OfThread(inserted + [last], t) == OfThread(front + [last], t) + if m.thread == t then [m] else []
  {
    OfThreadNext(inserted, last, t);
    OfThreadNext(front, last, t);
  }

  lemma {:induction false} InsertIsStable(ms: seq<Message>, m: Message, t: ThreadId)
    ensures OfThread(Insert(ms, m), t) == OfThread(ms, t) + if m.thread == t then [m] else []
  {
    if ms == [] {
    } else {
      var front, last := ms[..|ms| - 1], ms[|ms| - 1];
      CompareIsTotal(last.thread, m.thread);
      if Compare(last.thread, m.thread) <= 0 {
        OfThreadNext(ms, m, t);
      } else {
        InsertIsStable(front, m, t);
        InsertPastIsStable(front, last, Insert(front, m), m, t);
        assert ms == front + [last];
      }
    }
  }

  /** Sorting permutes the messages, orders their threads and keeps each thread's own order. */
  lemma {:induction false} SortStableSorts(ms: seq<Message>)
    ensures Ascending(Threads(SortStable(ms)))
    ensures multiset(SortStable(ms)) == multiset(ms)
    ensures forall t :: OfThread(SortStable(ms), t) == OfThread(ms, t)
  {
    if ms != [] {
      var n := |ms| - 1;
      SortStableSorts(ms[..n]);
      assert ms == ms[..n] + [ms[n]];
      InsertSorts(SortStable(ms[..n]), ms[n]);
      InsertPermutes(SortStable(ms[..n]), ms[n]);
      forall t
        ensures OfThread(SortStable(ms), t) == OfThread(ms, t)
      {
        InsertIsStable(SortStable(ms[..n]), ms[n], t);
      }
    }
  }

  /** The distinct threads, by first occurrence. */
  function Distinct(ts: seq<ThreadId>): (firsts: seq<ThreadId>) {
    if ts == [] then []
    else
      var seen := Distinct(ts[..|ts| - 1]);
      if ts[|ts| - 1] in seen then seen else seen + [ts[|ts| - 1]]
  }

  lemma {:induction false} DistinctOfAscending(ts: seq<ThreadId>)
    requires Ascending(ts)
    ensures StrictlyAscending(Distinct(ts))
    ensures forall t :: t in Distinct(ts) <==> t in ts
  {
    if ts != [] {
      var n := |ts| - 1;
      DistinctOfAscending(ts[..n]);
      assert ts == ts[..n] + [ts[n]];
      var seen := Distinct(ts[..n]);
      if ts[n] !in seen {
        forall k | 0 <= k < |seen|
          ensures Compare(seen[k], ts[n]) < 0
        {
          assert seen[k] in ts[..n];
          var i :| 0 <= i < n && ts[i] == seen[k];
          CompareIsTotal(seen[k], ts[n]);
        }
      }
    }
  }
}
