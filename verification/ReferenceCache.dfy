/** The cache that skips writes of reference rows that would change nothing. */
module ReferenceCaches {
  import opened Wrappers

  datatype SourceValue = SourceValue(domain: int, name: string, kind: string)
  datatype SourceRef = SourceRef(gate: string, domain: int, name: string, kind: string)
  datatype QueueInfo = QueueInfo(id: int, name: string)

  /** What becomes of a cache Set: it is stored, it is lost together with the old entry, or it is
      lost and the old entry stays. */
  datatype SetOutcome = Stored | Dropped | Kept

  /** A table and the cache in front of it, keyed by a text form of the table's key. */
  datatype Tier<K, V> = Tier(rows: map<K, V>, cache: map<string, V>)

  /** What the outside decides about one refresh. */
  datatype Chance = Chance(miss: bool, upsertFails: bool, set_: SetOutcome)

  // ----- one refresh -----

  /** A lookup that errs or misses, or finds another value, means the row may have changed. */
  predicate Changed<V(==)>(cache: map<string, V>, key: string, v: V, miss: bool) {
    miss || key !in cache || cache[key] != v
  }

  function AfterSet<V>(cache: map<string, V>, key: string, v: V, outcome: SetOutcome): (after: map<string, V>) {
    match outcome
    case Stored => cache[key := v]
    case Dropped => cache - {key}
    case Kept => cache
  }

  function Refresh<K(==), V(==)>(t: Tier<K, V>, k: K, key: string, v: V, c: Chance): (after: Tier<K, V>) {
    if !Changed(t.cache, key, v, c.miss) || c.upsertFails then t
    else Tier(t.rows[k := v], AfterSet(t.cache, key, v, c.set_))
  }

  /** Every remembered value is the stored one. */
  ghost predicate Coherent<K(!new), V>(t: Tier<K, V>, keyOf: K -> string) {
    forall k :: keyOf(k) in t.cache ==> k in t.rows && t.rows[k] == t.cache[keyOf(k)]
  }

  ghost predicate Injective<K(!new)>(keyOf: K -> string) {
    forall a, b :: keyOf(a) == keyOf(b) ==> a == b
  }

  /** The write went through but the cache kept a value that it replaced. */
  predicate LeavesStale<V(==)>(cache: map<string, V>, key: string, v: V, c: Chance) {
    !c.upsertFails && c.set_ == Kept && key in cache && cache[key] != v
  }

  lemma RefreshStaysCoherentIff<K(!new), V>(t: Tier<K, V>, keyOf: K -> string, k: K, v: V, c: Chance)
    requires Injective(keyOf) && Coherent(t, keyOf)
    ensures Coherent(Refresh(t, k, keyOf(k), v, c), keyOf) <==> !LeavesStale(t.cache, keyOf(k), v, c)
  {
    var t' := Refresh(t, k, keyOf(k), v, c);
    if LeavesStale(t.cache, keyOf(k), v, c) {
      assert keyOf(k) in t'.cache && t'.rows[k] != t'.cache[keyOf(k)];
    }
  }

  // ----- runs -----

  datatype Op<K, V> = Write(k: K, v: V, chance: Chance) | Evict(key: string)

  function Step<K(==), V(==)>(t: Tier<K, V>, op: Op<K, V>, keyOf: K -> string): (after: Tier<K, V>) {
    match op
    case Write(k, v, c) => Refresh(t, k, keyOf(k), v, c)
    case Evict(key) => t.(cache := t.cache - {key})
  }

  function Run<K(==), V(==)>(t: Tier<K, V>, ops: seq<Op<K, V>>, keyOf: K -> string): (after: Tier<K, V>)
    decreases |ops|
  {
    if ops == [] then t else Run(Step(t, ops[0], keyOf), ops[1..], keyOf)
  }

  /** The table of a process without a cache: every write reaches it unless its upsert fails. */
  function Uncached<K(==), V>(rows: map<K, V>, ops: seq<Op<K, V>>): (after: map<K, V>)
    decreases |ops|
  {
    if ops == [] then rows
    else
      var op := ops[0];
      Uncached(if op.Write? && !op.chance.upsertFails then rows[op.k := op.v] else rows, ops[1..])
  }

  ghost predicate NeverStale<K(!new), V>(t: Tier<K, V>, ops: seq<Op<K, V>>, keyOf: K -> string)
    decreases |ops|
  {
    ops != [] ==>
      && (ops[0].Write? ==> !LeavesStale(t.cache, keyOf(ops[0].k), ops[0].v, ops[0].chance))
      && NeverStale(Step(t, ops[0], keyOf), ops[1..], keyOf)
  }

  /** Skipping writes is invisible: over any run the table is the one a process without a cache
      leaves, whatever misses, failures and evictions happen on the way. */
  lemma {:induction false} CacheIsInvisible<K(!new), V>(t: Tier<K, V>, ops: seq<Op<K, V>>, keyOf: K -> string)
    requires Injective(keyOf) && Coherent(t, keyOf) && NeverStale(t, ops, keyOf)
    ensures Run(t, ops, keyOf).rows == Uncached(t.rows, ops)
    ensures Coherent(Run(t, ops, keyOf), keyOf)
    decreases |ops|
  {
    if ops != [] {
      var op := ops[0];
      var t' := Step(t, op, keyOf);
      if op.Write? {
        RefreshStaysCoherentIff(t, keyOf, op.k, op.v, op.chance);
        if !Changed(t.cache, keyOf(op.k), op.v, op.chance.miss) {
          assert t.rows[op.k := op.v] == t.rows;
        }
      }
      CacheIsInvisible(t', ops[1..], keyOf);
    }
  }

  /** A value that is cached is not written again, unless its lookup fails, and any other is. */
  lemma CachedValuesAreNotWritten<K(!new), V>(t: Tier<K, V>, k: K, key: string, v: V, c: Chance)
    ensures key in t.cache && t.cache[key] == v && !c.miss ==> Refresh(t, k, key, v, c) == t
    ensures !c.upsertFails && (key !in t.cache || t.cache[key] != v || c.miss) ==>
      var after := Refresh(t, k, key, v, c);
      && after.rows == t.rows[k := v]
      && (c.set_ == Stored ==> after.cache == t.cache[key := v])
      && (c.set_ == Dropped ==> after.cache == map other | other in t.cache && other != key :: t.cache[other])
      && (c.set_ == Kept ==> after.cache == t.cache)
    ensures c.upsertFails ==> Refresh(t, k, key, v, c) == t
  {
  }

  /** A cache that keeps the old entry when a Set is lost does show: the value written last but one
      is taken for the current one, and writing it again is skipped. */
  lemma KeptEntryHidesAWrite<K(!new), V>(keyOf: K -> string, k: K, v: V, w: V)
    requires v != w
    ensures
      var t := Tier(map[k := v], map[keyOf(k) := v]);
      var ops := [Write(k, w, Chance(false, false, Kept)), Write(k, v, Chance(false, false, Stored))];
      Run(t, ops, keyOf).rows == map[k := w] && Uncached(t.rows, ops) == map[k := v]
  {
    var t := Tier(map[k := v], map[keyOf(k) := v]);
    var first, second := Write(k, w, Chance(false, false, Kept)), Write(k, v, Chance(false, false, Stored));
    var t1 := Step(t, first, keyOf);
    assert [first, second][1..] == [second];
    assert Run(t1, [second], keyOf) == Run(Step(t1, second, keyOf), [], keyOf);
    assert Uncached(t.rows[k := w], [second]) == Uncached(t.rows[k := w][k := v], []);
  }

  // ----- the queue key -----

  function Digit(n: nat): (c: char)
    requires n < 10
    ensures '0' <= c <= '9' && c as int == '0' as int + n
  {
    ('0' as int + n) as char
  }

  function Digits(n: nat): (s: string)
    ensures s != [] && forall i :: 0 <= i < |s| ==> '0' <= s[i] <= '9'
  {
    if n < 10 then [Digit(n)] else Digits(n / 10) + [Digit(n % 10)]
  }

  function Decimal(n: int): (s: string)
    ensures ':' !in s
  {
    if n < 0 then "-" + Digits(-n) else Digits(n)
  }

  function QueueCacheKey(q: (int, int)): (key: string) {
    Decimal(q.0) + ":" + Decimal(q.1)
  }

  lemma {:induction false} DigitsAreInjective(a: nat, b: nat)
    requires Digits(a) == Digits(b)
    ensures a == b
  {
    var s, t := Digits(a), Digits(b);
    assert s[|s| - 1] == Digit(a % 10) && t[|t| - 1] == Digit(b % 10);
    if a >= 10 && b >= 10 {
      assert s[..|s| - 1] == Digits(a / 10) && t[..|t| - 1] == Digits(b / 10);
      DigitsAreInjective(a / 10, b / 10);
    } else {
      assert a < 10 <==> |s| == 1;
      assert b < 10 <==> |t| == 1;
    }
  }

  lemma DecimalIsInjective(a: int, b: int)
    requires Decimal(a) == Decimal(b)
    ensures a == b
  {
    var s := Decimal(a);
    assert (a < 0 <==> s[0] == '-') && (b < 0 <==> s[0] == '-');
    if a < 0 {
      assert Digits(-a) == s[1..] == Digits(-b);
      DigitsAreInjective(-a, -b);
    } else {
      DigitsAreInjective(a, b);
    }
  }

  /** Texts around the first colon are decided by the whole. */
  lemma SplitAtColon(a: string, b: string, c: string, d: string)
    requires ':' !in a && ':' !in c
    requires a + ":" + b == c + ":" + d
    ensures a == c && b == d
  {
    var s := a + ":" + b;
    assert s[|a|] == ':' && s[|c|] == ':';
    assert |a| <= |c| by {
      assert forall i :: 0 <= i < |a| ==> s[i] == a[i];
    }
    assert |c| <= |a| by {
      assert forall i :: 0 <= i < |c| ==> s[i] == c[i];
    }
    assert a == s[..|a|] && c == s[..|c|] && b == s[|a| + 1..] && d == s[|c| + 1..];
  }

  lemma QueueCacheKeyIsInjective()
    ensures Injective(QueueCacheKey)
  {
    forall p, q | QueueCacheKey(p) == QueueCacheKey(q)
      ensures p == q
    {
      SplitAtColon(Decimal(p.0), Decimal(p.1), Decimal(q.0), Decimal(q.1));
      DecimalIsInjective(p.0, q.0);
      DecimalIsInjective(p.1, q.1);
    }
  }

  function GateKey(gate: string): (key: string) {
    gate
  }

  // ----- the service's two refreshes -----

  class ReferenceCache {
    var sources: map<string, SourceValue>
    var queues: map<string, string>
    var sourceRows: map<string, SourceValue>
    var queueRows: map<(int, int), string>

    constructor ()
      ensures Valid() && sourceRows == map[] && queueRows == map[]
    {
      sources, queues, sourceRows, queueRows := map[], map[], map[], map[];
    }

    function Sources(): (t: Tier<string, SourceValue>)
      reads this
    {
      Tier(sourceRows, sources)
    }

    function Queues(): (t: Tier<(int, int), string>)
      reads this
    {
      Tier(queueRows, queues)
    }

    ghost predicate Valid()
      reads this
    {
      Coherent(Sources(), GateKey) && Coherent(Queues(), QueueCacheKey)
    }

    method SourceChanged(ref: SourceRef, miss: bool) returns (changed: bool)
      ensures changed == Changed(sources, ref.gate, SourceValue(ref.domain, ref.name, ref.kind), miss)
    {
      if miss || ref.gate !in sources {
        return true;
      }
      changed := sources[ref.gate] != SourceValue(ref.domain, ref.name, ref.kind);
    }

    method RememberSource(ref: SourceRef, outcome: SetOutcome)
      modifies this`sources
      ensures sources == AfterSet(old(sources), ref.gate, SourceValue(ref.domain, ref.name, ref.kind), outcome)
    {
      match outcome
      case Stored => sources := sources[ref.gate := SourceValue(ref.domain, ref.name, ref.kind)];
      case Dropped => sources := sources - {ref.gate};
      case Kept =>
    }

    /** Over a coherent cache the row ends up equal to the argument unless the upsert would fail,
        and the cache stays coherent exactly unless the lost Set left a replaced value behind. */
    method RefreshSource(ref: Option<SourceRef>, c: Chance)
      modifies this
      ensures Queues() == old(Queues())
      ensures ref.None? ==> Sources() == old(Sources())
      ensures ref.Some? ==>
        var v := SourceValue(ref.value.domain, ref.value.name, ref.value.kind);
        && Sources() == Refresh(old(Sources()), ref.value.gate, ref.value.gate, v, c)
        && (old(Valid()) ==> sourceRows == if c.upsertFails then old(sourceRows)
            else old(sourceRows)[ref.value.gate := v])
        && (old(Valid()) ==> (Valid() <==> !LeavesStale(old(sources), ref.value.gate, v, c)))
    {
      if ref.None? {
        return;
      }
      var r := ref.value;
      var changed := SourceChanged(r, c.miss);
      if changed && !c.upsertFails {
        sourceRows := sourceRows[r.gate := SourceValue(r.domain, r.name, r.kind)];
        RememberSource(r, c.set_);
      }
      if old(Valid()) {
        RefreshStaysCoherentIff(old(Sources()), GateKey, r.gate, SourceValue(r.domain, r.name, r.kind), c);
      }
    }

    method QueueChanged(domain: int, q: QueueInfo, miss: bool) returns (changed: bool)
      ensures changed == Changed(queues, QueueCacheKey((domain, q.id)), q.name, miss)
    {
      var key := QueueCacheKey((domain, q.id));
      if miss || key !in queues {
        return true;
      }
      changed := queues[key] != q.name;
    }

    method RememberQueue(domain: int, q: QueueInfo, outcome: SetOutcome)
      modifies this`queues
      ensures queues == AfterSet(old(queues), QueueCacheKey((domain, q.id)), q.name, outcome)
    {
      var key := QueueCacheKey((domain, q.id));
      match outcome
      case Stored => queues := queues[key := q.name];
      case Dropped => queues := queues - {key};
      case Kept =>
    }

    /** The same for a queue; one without a positive id or a name is left alone. */
    method RefreshQueue(domain: int, q: Option<QueueInfo>, c: Chance)
      modifies this
      ensures Sources() == old(Sources())
      ensures q.None? || q.value.id <= 0 || q.value.name == "" ==> Queues() == old(Queues())
      ensures q.Some? && q.value.id > 0 && q.value.name != "" ==>
        var k := (domain, q.value.id);
        && Queues() == Refresh(old(Queues()), k, QueueCacheKey(k), q.value.name, c)
        && (old(Valid()) ==> queueRows == if c.upsertFails then old(queueRows) else old(queueRows)[k := q.value.name])
        && (old(Valid()) ==> (Valid() <==> !LeavesStale(old(queues), QueueCacheKey(k), q.value.name, c)))
    {
      if q.None? || q.value.id <= 0 || q.value.name == "" {
        return;
      }
      var k := (domain, q.value.id);
      var changed := QueueChanged(domain, q.value, c.miss);
      if changed && !c.upsertFails {
        queueRows := queueRows[k := q.value.name];
        RememberQueue(domain, q.value, c.set_);
      }
      if old(Valid()) {
        QueueCacheKeyIsInjective();
        RefreshStaysCoherentIff(old(Queues()), QueueCacheKey, k, q.value.name, c);
      }
    }
  }
}
