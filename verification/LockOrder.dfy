/** Concurrent deletion batches as a system of transactions that lock one thread at a time. */
module LockOrder {
  import opened ThreadOrder
  import opened MessageDeletion

  /** The rows a deletion batch locks: messages when it deletes them, the mark of each person of a
      thread when it publishes there, and the dialogs of its threads when it recounts them. */
  datatype Lock =
    | RowLock(message: MessageId)
    | MarkLock(thread: ThreadId, contact: ContactId)
    | DialogLock(thread: ThreadId, dialog: DialogId)

  /** What a batch locks, in order, and how many of these locks it has taken. A batch that took
      them all has committed and holds nothing. */
  datatype Batch = Batch(plan: seq<Lock>, taken: nat)

  type System = seq<Batch>

  predicate Finished(b: Batch) {
    |b.plan| <= b.taken
  }

  predicate Holds(b: Batch, t: Lock) {
    !Finished(b) && t in b.plan[..b.taken]
  }

  /** The next lock is free, or the batch's own. */
  predicate CanStep(sys: System, i: nat) {
    && i < |sys| && !Finished(sys[i])
    && forall j :: 0 <= j < |sys| && j != i ==> !Holds(sys[j], sys[i].plan[sys[i].taken])
  }

  function Take(sys: System, i: nat): (next: System)
    requires i < |sys|
  {
    sys[i := sys[i].(taken := sys[i].taken + 1)]
  }

  /** A schedule names the batch that moves at each step. */
  predicate Runs(sys: System, schedule: seq<nat>)
    decreases |schedule|
  {
    schedule != [] ==> CanStep(sys, schedule[0]) && Runs(Take(sys, schedule[0]), schedule[1..])
  }

  function After(sys: System, schedule: seq<nat>): (end: System)
    requires Runs(sys, schedule)
    decreases |schedule|
  {
    if schedule == [] then sys else After(Take(sys, schedule[0]), schedule[1..])
  }

  function Start(plans: seq<seq<Lock>>): (sys: System) {
    seq(|plans|, i requires 0 <= i < |plans| => Batch(plans[i], 0))
  }

  // ----- one order of message rows and marks -----

  /** An order of the messages, which the scans of the delete statement are compared with. */
  type Order = seq<MessageId>

  /** How many messages come before the first with this id. */
  function PlaceOf(order: Order, id: MessageId): (n: nat) {
    if order == [] || order[0] == id then 0 else 1 + PlaceOf(order[1..], id)
  }

  /** Rows by their place in the order come before marks by thread and contact, and these before
      dialogs. */
  function CompareLocks(order: Order, a: Lock, b: Lock): (sign: int) {
    match (a, b)
    case (RowLock(m), RowLock(n)) => PlaceOf(order, m) - PlaceOf(order, n)
    case (RowLock(_), _) => -1
    case (_, RowLock(_)) => 1
    case (MarkLock(t, c), MarkLock(u, d)) => if Compare(t, u) != 0 then Compare(t, u) else Compare(c, d)
    case (MarkLock(_, _), _) => -1
    case (_, MarkLock(_, _)) => 1
    case (DialogLock(_, _), DialogLock(_, _)) => 0
  }

  lemma LocksAreTotal(order: Order, a: Lock, b: Lock)
    ensures CompareLocks(order, a, b) < 0 <==> CompareLocks(order, b, a) > 0
    ensures CompareLocks(order, a, a) == 0
  {
    if a.MarkLock? {
      CompareIsTotal(a.thread, a.thread);
      CompareIsTotal(a.contact, a.contact);
      if b.MarkLock? {
        CompareIsTotal(a.thread, b.thread);
        CompareIsTotal(b.thread, a.thread);
        CompareIsTotal(a.contact, b.contact);
        CompareIsTotal(b.contact, a.contact);
      }
    }
  }

  lemma LocksAreTransitive(order: Order, a: Lock, b: Lock, c: Lock)
    requires CompareLocks(order, a, b) <= 0 && CompareLocks(order, b, c) <= 0
    ensures CompareLocks(order, a, c) <= 0
  {
    if a.MarkLock? && b.MarkLock? && c.MarkLock? {
      CompareIsTransitive(a.thread, b.thread, c.thread);
      CompareIsTotal(a.thread, b.thread);
      CompareIsTotal(b.thread, c.thread);
      CompareIsTotal(a.thread, c.thread);
      if a.thread == b.thread == c.thread {
        CompareIsTransitive(a.contact, b.contact, c.contact);
      }
    }
  }

  /** The contacts of each thread's live members that are not bots, ascending. */
  type People = map<ThreadId, seq<ContactId>>

  function PeopleOf(people: People, t: ThreadId): (contacts: seq<ContactId>) {
    if t in people then people[t] else []
  }

  /** The mark of a thread's first person guards its dialogs. */
  function GuardOf(people: People, t: ThreadId): (mark: Lock) {
    MarkLock(t, if PeopleOf(people, t) == [] then [] else PeopleOf(people, t)[0])
  }

  /** A plan first rises through rows and marks; then it takes dialogs, in any order, of threads
      whose guard it has marked. */
  predicate OrderedPlan(order: Order, people: People, plan: seq<Lock>) {
    exists n :: 0 <= n <= |plan| && Rises(order, plan[..n]) && Guarded(people, plan, n)
  }

  /** Each lock is no dialog's, and greater than all before it or among them. */
  predicate Rises(order: Order, plan: seq<Lock>) {
    forall j :: 0 <= j < |plan| ==> !plan[j].DialogLock? && (plan[j] in plan[..j] || Exceeds(order, plan[j], plan[..j]))
  }

  predicate Exceeds(order: Order, a: Lock, before: seq<Lock>) {
    forall i :: 0 <= i < |before| ==> CompareLocks(order, before[i], a) < 0
  }

  predicate Guarded(people: People, plan: seq<Lock>, n: nat)
    requires n <= |plan|
  {
    forall k :: n <= k < |plan| ==> plan[k].DialogLock? && GuardOf(people, plan[k].thread) in plan[..n]
  }

  // ----- mutual exclusion -----

  ghost predicate Exclusive(sys: System) {
    forall i, j, t :: 0 <= i < j < |sys| && Holds(sys[i], t) ==> !Holds(sys[j], t)
  }

  lemma TakeStaysExclusive(sys: System, i: nat)
    requires Exclusive(sys) && CanStep(sys, i)
    ensures Exclusive(Take(sys, i))
  {
    var next := Take(sys, i);
    var b := sys[i];
    assert b.plan[..b.taken + 1] == b.plan[..b.taken] + [b.plan[b.taken]];
    forall t | Holds(next[i], t)
      ensures forall j :: 0 <= j < |sys| && j != i ==> !Holds(sys[j], t)
    {
      if t != b.plan[b.taken] {
        assert Holds(sys[i], t);
      }
    }
  }

  // ----- progress -----

  function Wanted(sys: System, i: nat): (t: Lock)
    requires i < |sys| && !Finished(sys[i])
  {
    sys[i].plan[sys[i].taken]
  }

  /** Some unfinished batch wants a lock no other unfinished batch's wish exceeds. */
  lemma {:induction false} GreatestWish(order: Order, sys: System, n: nat) returns (i: nat)
    requires n <= |sys| && exists j :: 0 <= j < n && !Finished(sys[j])
    ensures i < n && !Finished(sys[i])
    ensures forall j :: 0 <= j < n && !Finished(sys[j]) ==> CompareLocks(order, Wanted(sys, j), Wanted(sys, i)) <= 0
  {
    var m := n - 1;
    if exists j :: 0 <= j < m && !Finished(sys[j]) {
      i := GreatestWish(order, sys, m);
      if !Finished(sys[m]) {
        LocksAreTotal(order, Wanted(sys, i), Wanted(sys, m));
        LocksAreTotal(order, Wanted(sys, m), Wanted(sys, i));
        if CompareLocks(order, Wanted(sys, i), Wanted(sys, m)) < 0 {
          forall j | 0 <= j < m && !Finished(sys[j])
            ensures CompareLocks(order, Wanted(sys, j), Wanted(sys, m)) <= 0
          {
            LocksAreTransitive(order, Wanted(sys, j), Wanted(sys, i), Wanted(sys, m));
          }
          i := m;
        }
      }
    } else {
      i := m;
      LocksAreTotal(order, Wanted(sys, m), Wanted(sys, m));
    }
  }

  /** A blocked batch that has no dialog to take yet wants more than everything it holds. */
  lemma BlockedWantsMore(order: Order, people: People, b: Batch, t: Lock)
    requires OrderedPlan(order, people, b.plan) && !Finished(b) && !b.plan[b.taken].DialogLock?
    requires Holds(b, t) && !Holds(b, b.plan[b.taken])
    ensures CompareLocks(order, t, b.plan[b.taken]) < 0
  {
    var n :| 0 <= n <= |b.plan| && Rises(order, b.plan[..n]) && Guarded(people, b.plan, n);
    assert b.taken < n;
    assert b.plan[..n][b.taken] == b.plan[b.taken] && b.plan[..n][..b.taken] == b.plan[..b.taken];
  }

  /** Who holds or wants a dialog has marked the guard of its thread. */
  lemma DialogsAreGuarded(order: Order, people: People, b: Batch, k: nat)
    requires OrderedPlan(order, people, b.plan) && !Finished(b) && k <= b.taken && b.plan[k].DialogLock?
    ensures Holds(b, GuardOf(people, b.plan[k].thread))
  {
    var n :| 0 <= n <= |b.plan| && Rises(order, b.plan[..n]) && Guarded(people, b.plan, n);
    assert forall j :: 0 <= j < n ==> b.plan[..n][j] == b.plan[j];
    var mark := GuardOf(people, b.plan[k].thread);
    assert mark in b.plan[..n];
    var i :| 0 <= i < n && b.plan[..n][i] == mark;
    assert b.plan[..b.taken][i] == mark;
  }

  /** A batch that has come to its dialogs is never blocked: the guard's mark keeps the others out. */
  lemma NobodyBlocksDialogs(order: Order, people: People, sys: System, i: nat)
    requires Exclusive(sys) && forall k :: 0 <= k < |sys| ==> OrderedPlan(order, people, sys[k].plan)
    requires i < |sys| && !Finished(sys[i]) && Wanted(sys, i).DialogLock?
    ensures CanStep(sys, i)
  {
    var wish := Wanted(sys, i);
    var mark := GuardOf(people, wish.thread);
    DialogsAreGuarded(order, people, sys[i], sys[i].taken);
    assert Holds(sys[i], mark);
    forall j | 0 <= j < |sys| && j != i
      ensures !Holds(sys[j], wish)
    {
      if Holds(sys[j], wish) {
        var k :| 0 <= k < sys[j].taken && sys[j].plan[..sys[j].taken][k] == wish;
        DialogsAreGuarded(order, people, sys[j], k);
        assert false;
      }
    }
  }

  /** In every state of the system with an unfinished batch, some batch can take its next lock. */
  lemma SomeBatchCanStep(order: Order, people: People, sys: System) returns (i: nat)
    requires Exclusive(sys) && forall k :: 0 <= k < |sys| ==> OrderedPlan(order, people, sys[k].plan)
    requires exists k :: 0 <= k < |sys| && !Finished(sys[k])
    ensures CanStep(sys, i)
  {
    i := GreatestWish(order, sys, |sys|);
    if Wanted(sys, i).DialogLock? {
      NobodyBlocksDialogs(order, people, sys, i);
    } else if !CanStep(sys, i) {
      var wish := Wanted(sys, i);
      var j :| 0 <= j < |sys| && j != i && Holds(sys[j], wish);
      i := HolderCanStep(order, people, sys, i, j);
    }
  }

  /** Who holds the greatest wish of all is not waiting itself. */
  lemma HolderCanStep(order: Order, people: People, sys: System, i: nat, j: nat) returns (k: nat)
    requires Exclusive(sys) && forall k :: 0 <= k < |sys| ==> OrderedPlan(order, people, sys[k].plan)
    requires i < |sys| && !Finished(sys[i])
    requires forall k :: 0 <= k < |sys| && !Finished(sys[k]) ==>
      CompareLocks(order, Wanted(sys, k), Wanted(sys, i)) <= 0
    requires j < |sys| && j != i && Holds(sys[j], Wanted(sys, i))
    ensures k == j && CanStep(sys, k)
  {
    k := j;
    if Wanted(sys, j).DialogLock? {
      NobodyBlocksDialogs(order, people, sys, j);
    } else if !CanStep(sys, j) {
      var h :| 0 <= h < |sys| && h != j && Holds(sys[h], Wanted(sys, j));
      assert !Holds(sys[j], Wanted(sys, j));
      BlockedWantsMore(order, people, sys[j], Wanted(sys, i));
      LocksAreTotal(order, Wanted(sys, i), Wanted(sys, j));
      assert false;
    }
  }

  // ----- whole runs -----

  lemma {:induction false} RunsStayExclusive(sys: System, schedule: seq<nat>)
    requires Exclusive(sys) && Runs(sys, schedule)
    ensures Exclusive(After(sys, schedule)) && |After(sys, schedule)| == |sys|
    ensures forall k :: 0 <= k < |sys| ==> After(sys, schedule)[k].plan == sys[k].plan
    decreases |schedule|
  {
    if schedule != [] {
      TakeStaysExclusive(sys, schedule[0]);
      RunsStayExclusive(Take(sys, schedule[0]), schedule[1..]);
    }
  }

  /** No deadlock: wherever concurrent batches with ordered plans get to, one that is unfinished
      leaves some batch able to move. */
  lemma NoDeadlock(order: Order, people: People, plans: seq<seq<Lock>>, schedule: seq<nat>) returns (i: nat)
    requires forall k :: 0 <= k < |plans| ==> OrderedPlan(order, people, plans[k])
    requires Runs(Start(plans), schedule)
    requires exists k :: 0 <= k < |After(Start(plans), schedule)| && !Finished(After(Start(plans), schedule)[k])
    ensures CanStep(After(Start(plans), schedule), i)
  {
    RunsStayExclusive(Start(plans), schedule);
    i := SomeBatchCanStep(order, people, After(Start(plans), schedule));
  }

  function Remaining(sys: System): (n: nat) {
    if sys == [] then 0
    else
      var b := sys[|sys| - 1];
      Remaining(sys[..|sys| - 1]) + if Finished(b) then 0 else |b.plan| - b.taken
  }

  lemma {:induction false} TakeUsesOne(sys: System, i: nat)
    requires i < |sys| && !Finished(sys[i])
    ensures Remaining(Take(sys, i)) == Remaining(sys) - 1
  {
    var n := |sys| - 1;
    if i == n {
      assert Take(sys, i)[..n] == sys[..n];
    } else {
      assert Take(sys, i)[..n] == Take(sys[..n], i);
      TakeUsesOne(sys[..n], i);
    }
  }

  lemma {:induction false} ScheduleUsesItsLength(sys: System, schedule: seq<nat>)
    requires Runs(sys, schedule)
    ensures Remaining(After(sys, schedule)) + |schedule| == Remaining(sys)
    decreases |schedule|
  {
    if schedule != [] {
      TakeUsesOne(sys, schedule[0]);
      ScheduleUsesItsLength(Take(sys, schedule[0]), schedule[1..]);
    }
  }

  lemma {:induction false} NothingRemains(sys: System)
    requires forall k :: 0 <= k < |sys| ==> Finished(sys[k])
    ensures Remaining(sys) == 0
  {
    if sys != [] {
      NothingRemains(sys[..|sys| - 1]);
    }
  }

  /** Every schedule that cannot be extended has finished every batch, after exactly as many
      steps as there were locks to take. */
  lemma MaximalRunsFinish(order: Order, people: People, plans: seq<seq<Lock>>, schedule: seq<nat>)
    requires forall k :: 0 <= k < |plans| ==> OrderedPlan(order, people, plans[k])
    requires Runs(Start(plans), schedule)
    requires forall i :: 0 <= i < |plans| ==> !CanStep(After(Start(plans), schedule), i)
    ensures
      var end := After(Start(plans), schedule);
      |end| == |plans| && forall k :: 0 <= k < |end| ==> Finished(end[k])
    ensures |schedule| == Remaining(Start(plans))
  {
    RunsStayExclusive(Start(plans), schedule);
    var end := After(Start(plans), schedule);
    if exists k :: 0 <= k < |end| && !Finished(end[k]) {
      var i := NoDeadlock(order, people, plans, schedule);
      assert false;
    }
    NothingRemains(end);
    ScheduleUsesItsLength(Start(plans), schedule);
  }

  // ----- the plan of a deletion batch -----

  /** What a batch deletes, in the order its statement came upon the rows, and the dialogs its
      recount updates, in the order that statement comes upon them. */
  datatype Deletion = Deletion(deleted: seq<Message>, dialogs: seq<Lock>)

  function RowLocks(deleted: seq<Message>): (plan: seq<Lock>)
    ensures |plan| == |deleted| && forall i :: 0 <= i < |deleted| ==> plan[i] == RowLock(deleted[i].id)
  {
    seq(|deleted|, i requires 0 <= i < |deleted| => RowLock(deleted[i].id))
  }

  function MarkLocks(t: ThreadId, contacts: seq<ContactId>): (plan: seq<Lock>)
    ensures |plan| == |contacts| && forall i :: 0 <= i < |contacts| ==> plan[i] == MarkLock(t, contacts[i])
  {
    seq(|contacts|, i requires 0 <= i < |contacts| => MarkLock(t, contacts[i]))
  }

  /** Publishing to one thread after the other marks the people of each. */
  function PublishLocks(people: People, ts: seq<ThreadId>): (plan: seq<Lock>) {
    if ts == [] then []
    else
      var n := |ts| - 1;
      PublishLocks(people, ts[..n]) + MarkLocks(ts[n], PeopleOf(people, ts[n]))
  }

  /** The statement locks the rows it deletes as it comes upon them, publishing marks the people of
      each message's thread in the sorted order, and the recount updates the dialogs. */
  function DeletionPlan(people: People, d: Deletion): (plan: seq<Lock>) {
    RowLocks(d.deleted) + PublishLocks(people, Threads(SortStable(d.deleted))) + d.dialogs
  }

  /** The recount updates only dialogs of threads something was deleted from. */
  predicate Recounts(d: Deletion) {
    forall k :: 0 <= k < |d.dialogs| ==> d.dialogs[k].DialogLock? && d.dialogs[k].thread in Threads(d.deleted)
  }

  /** The marks of a thread are written in the order of the contacts. */
  predicate Sorted(people: People) {
    forall t :: t in people ==> StrictlyAscending(people[t])
  }

  /** Some person is in every thread the batch deletes from. */
  predicate HasPeople(people: People, d: Deletion) {
    forall i :: 0 <= i < |d.deleted| ==> PeopleOf(people, d.deleted[i].thread) != []
  }

  /** The statement comes upon the rows in that order. */
  predicate Follows(order: Order, deleted: seq<Message>) {
    forall i, j :: 0 <= i < j < |deleted| ==> PlaceOf(order, deleted[i].id) < PlaceOf(order, deleted[j].id)
  }

  // ----- the plan is ordered -----

  lemma RisesWithOne(order: Order, plan: seq<Lock>, a: Lock)
    requires Rises(order, plan) && !a.DialogLock? && (a in plan || Exceeds(order, a, plan))
    ensures Rises(order, plan + [a])
  {
    forall j | 0 <= j < |plan| + 1
      ensures !(plan + [a])[j].DialogLock?
      ensures (plan + [a])[j] in (plan + [a])[..j] || Exceeds(order, (plan + [a])[j], (plan + [a])[..j])
    {
      if j < |plan| {
        assert (plan + [a])[..j] == plan[..j];
      } else {
        assert (plan + [a])[..j] == plan;
      }
    }
  }

  lemma {:induction false} RowsRise(order: Order, deleted: seq<Message>)
    requires Follows(order, deleted)
    ensures Rises(order, RowLocks(deleted))
  {
    if deleted != [] {
      var n := |deleted| - 1;
      RowsRise(order, deleted[..n]);
      assert RowLocks(deleted) == RowLocks(deleted[..n]) + [RowLock(deleted[n].id)];
      RisesWithOne(order, RowLocks(deleted[..n]), RowLock(deleted[n].id));
    }
  }

  /** Every lock so far is a row's, the mark of a thread before t, or one of the first n marks of t. */
  predicate UpTo(plan: seq<Lock>, t: ThreadId, contacts: seq<ContactId>, n: nat)
    requires n <= |contacts|
  {
    forall i :: 0 <= i < |plan| ==>
      match plan[i]
      case RowLock(_) => true
      case MarkLock(u, c) => Compare(u, t) < 0 || (u == t && c in contacts[..n])
      case DialogLock(_, _) => false
  }

  /** Marking a thread nobody of which has been marked continues the rise. */
  lemma {:induction false} NewMarksRise(order: Order, plan: seq<Lock>, t: ThreadId, contacts: seq<ContactId>, n: nat)
    requires Rises(order, plan) && n <= |contacts| && StrictlyAscending(contacts) && UpTo(plan, t, contacts, 0)
    ensures Rises(order, plan + MarkLocks(t, contacts[..n])) && UpTo(plan + MarkLocks(t, contacts[..n]), t, contacts, n)
  {
    if n == 0 {
      assert plan + MarkLocks(t, contacts[..0]) == plan;
    } else {
      NewMarksRise(order, plan, t, contacts, n - 1);
      var before, mark := plan + MarkLocks(t, contacts[..n - 1]), MarkLock(t, contacts[n - 1]);
      assert plan + MarkLocks(t, contacts[..n]) == before + [mark];
      NextMarkExceeds(order, before, t, contacts, n - 1);
      RisesWithOne(order, before, mark);
    }
  }

  lemma NextMarkExceeds(order: Order, before: seq<Lock>, t: ThreadId, contacts: seq<ContactId>, n: nat)
    requires n < |contacts| && StrictlyAscending(contacts) && UpTo(before, t, contacts, n)
    ensures Exceeds(order, MarkLock(t, contacts[n]), before)
    ensures UpTo(before + [MarkLock(t, contacts[n])], t, contacts, n + 1)
  {
    CompareIsTotal(t, t);
    assert contacts[..n + 1] == contacts[..n] + [contacts[n]];
  }

  /** Marking a thread once more continues it too. */
  lemma {:induction false} OldMarksRise(order: Order, plan: seq<Lock>, marks: seq<Lock>)
    requires Rises(order, plan) && forall i :: 0 <= i < |marks| ==> marks[i] in plan && !marks[i].DialogLock?
    ensures Rises(order, plan + marks)
  {
    if marks == [] {
      assert plan + marks == plan;
    } else {
      var n := |marks| - 1;
      OldMarksRise(order, plan, marks[..n]);
      assert marks[n] in plan + marks[..n];
      RisesWithOne(order, plan + marks[..n], marks[n]);
      assert plan + marks == plan + marks[..n] + [marks[n]];
    }
  }

  /** The marks a publishing takes are exactly those of its threads' people. */
  lemma {:induction false} PublishTakes(people: People, ts: seq<ThreadId>)
    ensures forall a ::
      a in PublishLocks(people, ts) <==> a.MarkLock? && a.thread in ts && a.contact in PeopleOf(people, a.thread)
  {
    if ts != [] {
      var n := |ts| - 1;
      PublishTakes(people, ts[..n]);
      assert ts == ts[..n] + [ts[n]];
      var marks := MarkLocks(ts[n], PeopleOf(people, ts[n]));
      forall a
        ensures a in marks <==> a.MarkLock? && a.thread == ts[n] && a.contact in PeopleOf(people, ts[n])
      {
        if a.MarkLock? && a.thread == ts[n] && a.contact in PeopleOf(people, ts[n]) {
          var i :| 0 <= i < |PeopleOf(people, ts[n])| && PeopleOf(people, ts[n])[i] == a.contact;
          assert marks[i] == a;
        }
      }
    }
  }

  lemma {:induction false} PublishRises(order: Order, rows: seq<Lock>, people: People, ts: seq<ThreadId>)
    requires Rises(order, rows) && forall i :: 0 <= i < |rows| ==> rows[i].RowLock?
    requires Sorted(people) && Ascending(ts)
    ensures Rises(order, rows + PublishLocks(people, ts))
  {
    if ts == [] {
      assert rows + PublishLocks(people, ts) == rows;
    } else {
      var n := |ts| - 1;
      var plan, contacts := rows + PublishLocks(people, ts[..n]), PeopleOf(people, ts[n]);
      PublishRises(order, rows, people, ts[..n]);
      PublishTakes(people, ts[..n]);
      assert rows + PublishLocks(people, ts) == plan + MarkLocks(ts[n], contacts);
      if ts[n] in ts[..n] {
        OldMarksRise(order, plan, MarkLocks(ts[n], contacts));
      } else {
        OnlyEarlierThreads(rows, people, ts);
        NewMarksRise(order, plan, ts[n], contacts, |contacts|);
        assert contacts[..|contacts|] == contacts;
      }
    }
  }

  lemma OnlyEarlierThreads(rows: seq<Lock>, people: People, ts: seq<ThreadId>)
    requires ts != [] && Ascending(ts) && ts[|ts| - 1] !in ts[..|ts| - 1]
    requires forall i :: 0 <= i < |rows| ==> rows[i].RowLock?
    ensures
      var n := |ts| - 1;
      UpTo(rows + PublishLocks(people, ts[..n]), ts[n], PeopleOf(people, ts[n]), 0)
  {
    var n := |ts| - 1;
    var marks := PublishLocks(people, ts[..n]);
    PublishTakes(people, ts[..n]);
    forall i | 0 <= i < |marks|
      ensures marks[i].MarkLock? && Compare(marks[i].thread, ts[n]) < 0
    {
      assert marks[i] in marks;
      var k :| 0 <= k < n && ts[..n][k] == marks[i].thread;
      CompareIsTotal(ts[k], ts[n]);
    }
  }

  lemma RecountIsGuarded(people: People, d: Deletion, k: nat)
    requires Recounts(d) && HasPeople(people, d) && k < |d.dialogs|
    ensures
      GuardOf(people, d.dialogs[k].thread) in PublishLocks(people, Threads(SortStable(d.deleted)))
  {
    var t := d.dialogs[k].thread;
    var i :| 0 <= i < |d.deleted| && Threads(d.deleted)[i] == t;
    SortedKeepsThreads(d.deleted, i);
    PublishTakes(people, Threads(SortStable(d.deleted)));
  }

  lemma DeletionPlanIsOrdered(order: Order, people: People, d: Deletion)
    requires Follows(order, d.deleted) && Sorted(people) && Recounts(d) && HasPeople(people, d)
    ensures OrderedPlan(order, people, DeletionPlan(people, d))
  {
    var ts := Threads(SortStable(d.deleted));
    var rows, plan := RowLocks(d.deleted), DeletionPlan(people, d);
    var first := rows + PublishLocks(people, ts);
    SortStableSorts(d.deleted);
    RowsRise(order, d.deleted);
    PublishRises(order, rows, people, ts);
    assert plan[..|first|] == first;
    forall k | |first| <= k < |plan|
      ensures plan[k].DialogLock? && GuardOf(people, plan[k].thread) in first
    {
      assert plan[k] == d.dialogs[k - |first|];
      RecountIsGuarded(people, d, k - |first|);
    }
    assert Guarded(people, plan, |first|);
  }

  lemma SortedKeepsThreads(ms: seq<Message>, i: nat)
    requires i < |ms|
    ensures ms[i].thread in Threads(SortStable(ms))
  {
    SortStableSorts(ms);
    assert ms[i] in multiset(SortStable(ms));
    var k :| 0 <= k < |SortStable(ms)| && SortStable(ms)[k] == ms[i];
    assert Threads(SortStable(ms))[k] == ms[i].thread;
  }

  // ----- concurrent deletions -----

  function Plans(people: People, batches: seq<Deletion>): (plans: seq<seq<Lock>>)
    ensures |plans| == |batches| && forall i :: 0 <= i < |plans| ==> plans[i] == DeletionPlan(people, batches[i])
  {
    seq(|batches|, i requires 0 <= i < |batches| => DeletionPlan(people, batches[i]))
  }

  /** The schedule cannot be extended. */
  predicate Maximal(plans: seq<seq<Lock>>, schedule: seq<nat>) {
    Runs(Start(plans), schedule) && forall i :: 0 <= i < |plans| ==> !CanStep(After(Start(plans), schedule), i)
  }

  predicate AllFinish(plans: seq<seq<Lock>>, schedule: seq<nat>)
    requires Runs(Start(plans), schedule)
  {
    var end := After(Start(plans), schedule);
    |end| == |plans| && forall k :: 0 <= k < |end| ==> Finished(end[k])
  }

  /** Batches whose recounts go where they deleted, in threads with people. */
  predicate WellPlaced(people: People, batches: seq<Deletion>) {
    Sorted(people) && forall k :: 0 <= k < |batches| ==> Recounts(batches[k]) && HasPeople(people, batches[k])
  }

  /** Any number of concurrent deletion batches in threads with people, whose statements come upon
      the message rows in one common order, runs to the end, however they interleave. */
  lemma DeletionsNeverDeadlock(order: Order, people: People, batches: seq<Deletion>, schedule: seq<nat>)
    requires WellPlaced(people, batches) && Maximal(Plans(people, batches), schedule)
    requires forall k :: 0 <= k < |batches| ==> Follows(order, batches[k].deleted)
    ensures AllFinish(Plans(people, batches), schedule)
  {
    forall k | 0 <= k < |batches|
      ensures OrderedPlan(order, people, Plans(people, batches)[k])
    {
      DeletionPlanIsOrdered(order, people, batches[k]);
    }
    MaximalRunsFinish(order, people, Plans(people, batches), schedule);
  }

  // ----- batches that delete different messages -----

  /** The ids of every message of every batch, in order. */
  function All(batches: seq<Deletion>): (order: Order) {
    if batches == [] then [] else All(batches[..|batches| - 1]) + Ids(batches[|batches| - 1].deleted)
  }

  predicate NoRepeats(order: Order) {
    forall i, j :: 0 <= i < j < |order| ==> order[i] != order[j]
  }

  lemma {:induction false} PlaceOfEach(order: Order, i: nat)
    requires NoRepeats(order) && i < |order|
    ensures PlaceOf(order, order[i]) == i
    decreases |order|
  {
    if i > 0 {
      assert order[1..][i - 1] == order[i];
      PlaceOfEach(order[1..], i - 1);
    }
  }

  lemma {:induction false} BatchWithinAll(batches: seq<Deletion>, k: nat) returns (start: nat)
    requires k < |batches|
    ensures start + |batches[k].deleted| <= |All(batches)|
    ensures All(batches)[start..start + |batches[k].deleted|] == Ids(batches[k].deleted)
    decreases |batches|
  {
    var n := |batches| - 1;
    if k == n {
      start := |All(batches[..n])|;
    } else {
      start := BatchWithinAll(batches[..n], k);
      var end := start + |batches[k].deleted|;
      assert All(batches)[start..end] == All(batches[..n])[start..end];
    }
  }

  lemma {:induction false} EachFollowsAll(batches: seq<Deletion>, k: nat)
    requires NoRepeats(All(batches)) && k < |batches|
    ensures Follows(All(batches), batches[k].deleted)
  {
    var all, deleted := All(batches), batches[k].deleted;
    var start := BatchWithinAll(batches, k);
    forall i | 0 <= i < |deleted|
      ensures PlaceOf(all, deleted[i].id) == start + i
    {
      assert all[start..start + |deleted|][i] == all[start + i];
      PlaceOfEach(all, start + i);
    }
  }

  /** Batches with no message in common never deadlock in threads with people, in whatever order
      their rows are found. */
  lemma SeparateDeletionsNeverDeadlock(people: People, batches: seq<Deletion>, schedule: seq<nat>)
    requires WellPlaced(people, batches) && NoRepeats(All(batches)) && Maximal(Plans(people, batches), schedule)
    ensures AllFinish(Plans(people, batches), schedule)
  {
    forall k | 0 <= k < |batches|
      ensures Follows(All(batches), batches[k].deleted)
    {
      EachFollowsAll(batches, k);
    }
    DeletionsNeverDeadlock(All(batches), people, batches, schedule);
  }

  // ----- what can go wrong -----

  /** Both batches are unfinished, and nobody can move. */
  predicate Stuck(plans: seq<seq<Lock>>, schedule: seq<nat>) {
    && Runs(Start(plans), schedule)
    && (forall k :: 0 <= k < |plans| ==>
          k < |After(Start(plans), schedule)| && !Finished(After(Start(plans), schedule)[k]))
    && forall i :: 0 <= i < |plans| ==> !CanStep(After(Start(plans), schedule), i)
  }

  lemma CrossedPlansDeadlock(a: Lock, b: Lock, p: seq<Lock>, q: seq<Lock>)
    requires a != b
    ensures Stuck([[a, b] + p, [b, a] + q], [0, 1])
  {
    var start := Start([[a, b] + p, [b, a] + q]);
    var one := Take(start, 0);
    assert [0, 1][1..] == [1];
    assert Runs(one, [1]) by {
      assert Runs(Take(one, 1), []);
    }
    var two := Take(one, 1);
    assert After(start, [0, 1]) == After(one, [1]) == After(two, []) == two;
    assert Holds(two[1], b) && Holds(two[0], a) by {
      assert ([b, a] + q)[..1] == [b] && ([a, b] + p)[..1] == [a];
    }
  }

  /** The same with a lock of its own in front of each plan. */
  lemma CrossedTailsDeadlock(m: Lock, n: Lock, a: Lock, b: Lock)
    requires m != n && a != b && m !in {a, b} && n !in {a, b}
    ensures Stuck([[m, a, b], [n, b, a]], [0, 1, 0, 1])
  {
    var start := Start([[m, a, b], [n, b, a]]);
    var s1 := Take(start, 0);
    var s2 := Take(s1, 1);
    var s3 := Take(s2, 0);
    var s4 := Take(s3, 1);
    assert [0, 1, 0, 1][1..] == [1, 0, 1] && [1, 0, 1][1..] == [0, 1] && [0, 1][1..] == [1];
    assert [m, a, b][..1] == [m] && [n, b, a][..1] == [n] && [m, a, b][..2] == [m, a] && [n, b, a][..2] == [n, b];
    assert CanStep(start, 0) && CanStep(s1, 1) && CanStep(s2, 0) && CanStep(s3, 1);
    assert Runs(s3, [1]) by {
      assert Runs(s4, []);
    }
    assert Runs(s2, [0, 1]) && Runs(s1, [1, 0, 1]) && Runs(start, [0, 1, 0, 1]);
    assert After(s3, [1]) == After(s4, []) == s4;
    assert After(s2, [0, 1]) == s4 && After(s1, [1, 0, 1]) == s4 && After(start, [0, 1, 0, 1]) == s4;
    assert Holds(s4[1], b) && Holds(s4[0], a);
  }

  /** Without the sort two batches publishing to two threads block each other for good. */
  lemma UnsortedBatchesDeadlock(people: People, a: ThreadId, b: ThreadId)
    requires a != b && |PeopleOf(people, a)| == 1 && |PeopleOf(people, b)| == 1
    ensures Stuck([PublishLocks(people, [a, b]), PublishLocks(people, [b, a])], [0, 1])
  {
    var x, y := MarkLock(a, PeopleOf(people, a)[0]), MarkLock(b, PeopleOf(people, b)[0]);
    PublishesTwo(people, a, b);
    PublishesTwo(people, b, a);
    CrossedPlansDeadlock(x, y, [], []);
    assert PublishLocks(people, [a, b]) == [x, y] + [] && PublishLocks(people, [b, a]) == [y, x] + [];
  }

  lemma PublishesTwo(people: People, a: ThreadId, b: ThreadId)
    ensures PublishLocks(people, [a, b]) == MarkLocks(a, PeopleOf(people, a)) + MarkLocks(b, PeopleOf(people, b))
  {
    PublishesOne(people, a);
    assert [a, b][..1] == [a];
  }

  lemma PublishesOne(people: People, a: ThreadId)
    ensures PublishLocks(people, [a]) == MarkLocks(a, PeopleOf(people, a))
  {
    assert PublishLocks(people, [a]) == PublishLocks(people, [a][..0]) + MarkLocks(a, PeopleOf(people, a));
    assert [a][..0] == [];
  }

  /** And with it two batches of the same two messages still do, when their statements come upon the
      rows in opposite orders. */
  lemma CrossedScansDeadlock(people: People, m: Message, n: Message, d: seq<Lock>, e: seq<Lock>)
    requires m.id != n.id
    ensures Stuck(Plans(people, [Deletion([m, n], d), Deletion([n, m], e)]), [0, 1])
  {
    var a, b := RowLock(m.id), RowLock(n.id);
    var one, two := DeletionPlan(people, Deletion([m, n], d)), DeletionPlan(people, Deletion([n, m], e));
    assert one == [a, b] + one[2..] && two == [b, a] + two[2..];
    assert Plans(people, [Deletion([m, n], d), Deletion([n, m], e)]) == [[a, b] + one[2..], [b, a] + two[2..]];
    CrossedPlansDeadlock(a, b, one[2..], two[2..]);
  }

  /** Two batches that each delete one message of a thread, and recount two of its dialogs in
      opposite orders. */
  function CrossedRecounts(m: Message, n: Message, d: DialogId, e: DialogId): (batches: seq<Deletion>) {
    [Deletion([m], [DialogLock(m.thread, d), DialogLock(m.thread, e)]),
     Deletion([n], [DialogLock(m.thread, e), DialogLock(m.thread, d)])]
  }

  lemma PlanOfOne(people: People, m: Message, dialogs: seq<Lock>)
    requires PeopleOf(people, m.thread) == []
    ensures DeletionPlan(people, Deletion([m], dialogs)) == [RowLock(m.id)] + dialogs
  {
    assert SortStable([m]) == [m] by {
      assert [m][..0] == [];
    }
    assert Threads([m]) == [m.thread];
    PublishesOne(people, m.thread);
  }

  lemma BotsOnlyDeadlock(people: People, m: Message, n: Message, d: DialogId, e: DialogId)
    requires m.id != n.id && m.thread == n.thread && d != e && PeopleOf(people, m.thread) == []
    ensures Stuck(Plans(people, CrossedRecounts(m, n, d, e)), [0, 1, 0, 1])
  {
    var a, b := DialogLock(m.thread, d), DialogLock(m.thread, e);
    PlanOfOne(people, m, [a, b]);
    PlanOfOne(people, n, [b, a]);
    var batches := CrossedRecounts(m, n, d, e);
    assert DeletionPlan(people, batches[0]) == [RowLock(m.id), a, b];
    assert DeletionPlan(people, batches[1]) == [RowLock(n.id), b, a];
    assert Plans(people, batches) == [[RowLock(m.id), a, b], [RowLock(n.id), b, a]];
    CrossedTailsDeadlock(RowLock(m.id), RowLock(n.id), a, b);
  }

  lemma PeopleKeepRecountsApart(people: People, m: Message, n: Message, d: DialogId, e: DialogId, schedule: seq<nat>)
    requires m.id != n.id && m.thread == n.thread && Sorted(people) && PeopleOf(people, m.thread) != []
    ensures !Stuck(Plans(people, CrossedRecounts(m, n, d, e)), schedule)
  {
    var batches := CrossedRecounts(m, n, d, e);
    if Stuck(Plans(people, batches), schedule) {
      assert !Finished(After(Start(Plans(people, batches)), schedule)[0]);
      SeparatePair(m, n, d, e);
      PairIsWellPlaced(people, m, n, d, e);
      SeparateDeletionsNeverDeadlock(people, batches, schedule);
      assert false;
    }
  }

  lemma PairIsWellPlaced(people: People, m: Message, n: Message, d: DialogId, e: DialogId)
    requires m.thread == n.thread && Sorted(people) && PeopleOf(people, m.thread) != []
    ensures WellPlaced(people, CrossedRecounts(m, n, d, e))
  {
    assert Threads([m]) == [m.thread] && Threads([n]) == [n.thread];
  }

  /** Such a pair can block each other for good exactly if nobody but bots is in the thread: it is
      the mark of a person that keeps recounts of one thread apart. */
  lemma CrossedRecountsDeadlockIff(people: People, m: Message, n: Message, d: DialogId, e: DialogId)
    requires m.id != n.id && m.thread == n.thread && d != e && Sorted(people)
    ensures (exists schedule :: Stuck(Plans(people, CrossedRecounts(m, n, d, e)), schedule))
        <==> PeopleOf(people, m.thread) == []
  {
    if PeopleOf(people, m.thread) == [] {
      BotsOnlyDeadlock(people, m, n, d, e);
    } else {
      forall schedule
        ensures !Stuck(Plans(people, CrossedRecounts(m, n, d, e)), schedule)
      {
        PeopleKeepRecountsApart(people, m, n, d, e, schedule);
      }
    }
  }

  lemma SeparatePair(m: Message, n: Message, d: DialogId, e: DialogId)
    requires m.id != n.id
    ensures NoRepeats(All(CrossedRecounts(m, n, d, e)))
  {
    var batches := CrossedRecounts(m, n, d, e);
    assert batches[..1][..0] == [];
    assert All(batches[..1]) == [m.id];
    assert All(batches) == [m.id, n.id];
  }
}
