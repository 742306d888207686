/**
 The naive list model of the LRU cache with per-key TTL, least recently used entry first, with the
 counters both implementations keep.  Time is real; an operation reads the clock where the code does.
 */
module Lru {
  import opened Lists
  import opened Wrappers

  datatype Entry<K, V> = Entry(key: K, value: V, expires: Option<real>)

  datatype Stats = Stats(hits: nat, misses: nat, evictions: nat, expirations: nat)

  datatype State<K, V> = State(entries: seq<Entry<K, V>>, stats: Stats)

  /** The `ttl` argument of `put`; `NotFinite` is an infinity or NaN. */
  datatype Ttl = UseDefault | Never | Seconds(s: real) | NotFinite

  function EmptyState<K, V>(): State<K, V> {
    State([], Stats(0, 0, 0, 0))
  }

  predicate DistinctKeys<K(==), V>(s: seq<Entry<K, V>>) {
    forall i, j | 0 <= i < j < |s| :: s[i].key != s[j].key
  }

  /** Position of the entry for `k`, or None. */
  function FindKey<K(==), V>(s: seq<Entry<K, V>>, k: K): (r: Option<nat>)
    ensures r.Some? ==> r.value < |s| && s[r.value].key == k
    ensures r.None? ==> forall i | 0 <= i < |s| :: s[i].key != k
  {
    if s == [] then None
    else if s[0].key == k then Some(0)
    else match FindKey(s[1..], k) case Some(i) => Some(i + 1) case None => None
  }

  predicate IsExpired(expires: Option<real>, now: real) {
    expires.Some? && now >= expires.value
  }

  // ----- operations -----

  /** A dead entry is found: removed, and counted as a miss and an expiration. */
  function Buried<K, V>(st: State<K, V>, i: nat): State<K, V>
    requires i < |st.entries|
  {
    State(Without(st.entries, i), st.stats.(misses := st.stats.misses + 1, expirations := st.stats.expirations + 1))
  }

  /** A live entry is found: moved to the end, and counted as a hit. */
  function Used<K, V>(st: State<K, V>, i: nat): State<K, V>
    requires i < |st.entries|
  {
    State(Without(st.entries, i) + [st.entries[i]], st.stats.(hits := st.stats.hits + 1))
  }

  function Get<K(==), V>(st: State<K, V>, k: K, now: real): (State<K, V>, Option<V>) {
    match FindKey(st.entries, k)
    case None => (st.(stats := st.stats.(misses := st.stats.misses + 1)), None)
    case Some(i) =>
      if IsExpired(st.entries[i].expires, now) then (Buried(st, i), None)
      else (Used(st, i), Some(st.entries[i].value))
  }

  /** The TTL that applies; None where `put` raises. */
  function EffectiveTtl(ttl: Ttl, default: Option<real>): Option<Option<real>> {
    match ttl
    case UseDefault => if default.Some? && default.value <= 0.0 then None else Some(default)
    case Never => Some(None)
    case Seconds(s) => if s <= 0.0 then None else Some(Some(s))
    case NotFinite => None
  }

  function Deadline(ttl: Option<real>, now: real): Option<real> {
    match ttl case Some(s) => Some(now + s) case None => None
  }

  /** Drop the least recently used entry; an expired one counts as an expiration. */
  function EvictOne<K, V>(st: State<K, V>, later: real): State<K, V>
    requires st.entries != []
  {
    State(st.entries[1..],
      if IsExpired(st.entries[0].expires, later) then st.stats.(expirations := st.stats.expirations + 1)
      else st.stats.(evictions := st.stats.evictions + 1))
  }

  /** Store an entry that has its deadline; the clock is read again if an entry must go. */
  function Store<K(==), V>(st: State<K, V>, capacity: nat, e: Entry<K, V>, later: real): State<K, V>
    requires capacity >= 1
  {
    match FindKey(st.entries, e.key)
    case Some(i) => st.(entries := Without(st.entries, i) + [e])
    case None =>
      var room := if |st.entries| >= capacity then EvictOne(st, later) else st;
      room.(entries := room.entries + [e])
  }

  /** None where `put` raises, leaving the cache as it was. */
  function Put<K(==), V>(st: State<K, V>, capacity: nat, default: Option<real>,
                         k: K, v: V, ttl: Ttl, now: real, later: real): Option<State<K, V>>
    requires capacity >= 1
  {
    var t :- EffectiveTtl(ttl, default);
    Some(Store(st, capacity, Entry(k, v, Deadline(t, now)), later))
  }

  function Delete<K(==), V>(st: State<K, V>, k: K): (State<K, V>, bool) {
    match FindKey(st.entries, k)
    case Some(i) => (st.(entries := Without(st.entries, i)), true)
    case None => (st, false)
  }

  predicate Contains<K(==), V>(st: State<K, V>, k: K, now: real) {
    match FindKey(st.entries, k)
    case Some(i) => !IsExpired(st.entries[i].expires, now)
    case None => false
  }

  // ----- runs -----

  datatype Op<K, V> =
    | DoGet(k: K, now: real)
    | DoPut(k: K, v: V, ttl: Ttl, now: real, later: real)
    | DoDelete(k: K)
    | DoContains(k: K, now: real)

  function Apply<K(==), V>(st: State<K, V>, capacity: nat, default: Option<real>, op: Op<K, V>): State<K, V>
    requires capacity >= 1
  {
    match op
    case DoGet(k, now) => Get(st, k, now).0
    case DoPut(k, v, ttl, now, later) =>
      (match Put(st, capacity, default, k, v, ttl, now, later) case Some(next) => next case None => st)
    case DoDelete(k) => Delete(st, k).0
    case DoContains(_, _) => st
  }

  function Run<K(==), V>(capacity: nat, default: Option<real>, ops: seq<Op<K, V>>): State<K, V>
    requires capacity >= 1
  {
    if ops == [] then EmptyState()
    else Apply(Run(capacity, default, ops[..|ops| - 1]), capacity, default, ops[|ops| - 1])
  }

  predicate WellKept<K(==), V>(st: State<K, V>, capacity: nat) {
    DistinctKeys(st.entries) && |st.entries| <= capacity
  }

  lemma WithoutLeavesDistinct<K, V>(s: seq<Entry<K, V>>, i: nat)
    requires i < |s| && DistinctKeys(s)
    ensures DistinctKeys(Without(s, i)) && forall j | 0 <= j < |Without(s, i)| :: Without(s, i)[j].key != s[i].key
  {
  }

  lemma StoreKeepsInvariant<K, V>(st: State<K, V>, capacity: nat, e: Entry<K, V>, later: real)
    requires capacity >= 1 && WellKept(st, capacity)
    ensures WellKept(Store(st, capacity, e, later), capacity)
  {
    var found := FindKey(st.entries, e.key);
    if found.Some? {
      WithoutLeavesDistinct(st.entries, found.value);
    }
  }

  lemma ApplyKeepsInvariant<K, V>(st: State<K, V>, capacity: nat, default: Option<real>, op: Op<K, V>)
    requires capacity >= 1 && WellKept(st, capacity)
    ensures WellKept(Apply(st, capacity, default, op), capacity)
  {
    if op.DoPut? {
      var t := EffectiveTtl(op.ttl, default);
      if t.Some? {
        StoreKeepsInvariant(st, capacity, Entry(op.k, op.v, Deadline(t.value, op.now)), op.later);
      }
    } else if !op.DoContains? && FindKey(st.entries, op.k).Some? {
      WithoutLeavesDistinct(st.entries, FindKey(st.entries, op.k).value);
    }
  }

  /** Keys stay distinct and the capacity is never exceeded. */
  lemma {:induction false} RunKeepsInvariant<K, V>(capacity: nat, default: Option<real>, ops: seq<Op<K, V>>)
    requires capacity >= 1
    ensures WellKept(Run(capacity, default, ops), capacity)
  {
    if ops != [] {
      RunKeepsInvariant(capacity, default, ops[..|ops| - 1]);
      ApplyKeepsInvariant(Run(capacity, default, ops[..|ops| - 1]), capacity, default, ops[|ops| - 1]);
    }
  }

  // ----- every entry that came in is accounted for -----

  /** Operations so far that put a key that was absent. */
  function FreshInserts<K(==), V>(capacity: nat, default: Option<real>, ops: seq<Op<K, V>>): nat
    requires capacity >= 1
  {
    if ops == [] then 0
    else
      var st := Run(capacity, default, ops[..|ops| - 1]);
      var op := ops[|ops| - 1];
      FreshInserts(capacity, default, ops[..|ops| - 1])
      + if op.DoPut? && EffectiveTtl(op.ttl, default).Some? && FindKey(st.entries, op.k).None? then 1 else 0
  }

  /** Deletes so far that returned True. */
  function Deletions<K(==), V>(capacity: nat, default: Option<real>, ops: seq<Op<K, V>>): nat
    requires capacity >= 1
  {
    if ops == [] then 0
    else
      Deletions(capacity, default, ops[..|ops| - 1])
      + if ops[|ops| - 1].DoDelete? && Delete(Run(capacity, default, ops[..|ops| - 1]), ops[|ops| - 1].k).1 then 1
        else 0
  }

  /** Gets so far. */
  function Gets<K, V>(ops: seq<Op<K, V>>): nat {
    if ops == [] then 0 else Gets(ops[..|ops| - 1]) + if ops[|ops| - 1].DoGet? then 1 else 0
  }

  /** Every entry inserted is still there, or was evicted, expired or deleted; every get hit or missed. */
  lemma {:induction false} EntriesAreConserved<K, V>(capacity: nat, default: Option<real>, ops: seq<Op<K, V>>)
    requires capacity >= 1
    ensures var st := Run(capacity, default, ops);
      && FreshInserts(capacity, default, ops)
         == |st.entries| + st.stats.evictions + st.stats.expirations + Deletions(capacity, default, ops)
      && Gets(ops) == st.stats.hits + st.stats.misses
  {
    if ops != [] {
      var before, op := ops[..|ops| - 1], ops[|ops| - 1];
      EntriesAreConserved(capacity, default, before);
      ApplyConserves(Run(capacity, default, before), capacity, default, op);
    }
  }

  /** One operation: an entry comes in, or goes out in one of the counted ways. */
  lemma ApplyConserves<K, V>(st: State<K, V>, capacity: nat, default: Option<real>, op: Op<K, V>)
    requires capacity >= 1
    ensures var next := Apply(st, capacity, default, op);
      && |next.entries| + next.stats.evictions + next.stats.expirations
         + (if op.DoDelete? && Delete(st, op.k).1 then 1 else 0)
         == |st.entries| + st.stats.evictions + st.stats.expirations
            + (if op.DoPut? && EffectiveTtl(op.ttl, default).Some? && FindKey(st.entries, op.k).None? then 1 else 0)
      && next.stats.hits + next.stats.misses == st.stats.hits + st.stats.misses + (if op.DoGet? then 1 else 0)
  {
  }

  // ----- a hit returns the last write -----

  /** What the last operation on `k` that wrote or deleted it left: a value and deadline, or nothing. */
  function LastWrite<K(==), V>(default: Option<real>, ops: seq<Op<K, V>>, k: K): Option<(V, Option<real>)> {
    if ops == [] then None
    else
      var op := ops[|ops| - 1];
      if op.DoPut? && op.k == k && EffectiveTtl(op.ttl, default).Some? then
        Some((op.v, Deadline(EffectiveTtl(op.ttl, default).value, op.now)))
      else if op.DoDelete? && op.k == k then None
      else LastWrite(default, ops[..|ops| - 1], k)
  }

  ghost predicate HoldsLastWrites<K, V>(s: seq<Entry<K, V>>, default: Option<real>, ops: seq<Op<K, V>>) {
    forall i | 0 <= i < |s| :: LastWrite(default, ops, s[i].key) == Some((s[i].value, s[i].expires))
  }

  /** Removing an entry, or moving it to the end, leaves the others what they were. */
  lemma HoldsWithout<K, V>(s: seq<Entry<K, V>>, i: nat, default: Option<real>, ops: seq<Op<K, V>>)
    requires i < |s| && HoldsLastWrites(s, default, ops)
    ensures HoldsLastWrites(Without(s, i), default, ops)
    ensures HoldsLastWrites(Without(s, i) + [s[i]], default, ops)
    ensures HoldsLastWrites(s[1..], default, ops)
  {
  }

  lemma StillHolds<K, V>(s: seq<Entry<K, V>>, default: Option<real>, before: seq<Op<K, V>>, op: Op<K, V>)
    requires HoldsLastWrites(s, default, before)
    requires (op.DoPut? && EffectiveTtl(op.ttl, default).Some?) || op.DoDelete? ==>
               forall i | 0 <= i < |s| :: s[i].key != op.k
    ensures HoldsLastWrites(s, default, before + [op])
  {
    assert (before + [op])[..|before|] == before;
  }

  lemma ApplyHoldsLastWrites<K, V>(st: State<K, V>, capacity: nat, default: Option<real>,
                                   before: seq<Op<K, V>>, op: Op<K, V>)
    requires capacity >= 1 && WellKept(st, capacity) && HoldsLastWrites(st.entries, default, before)
    ensures HoldsLastWrites(Apply(st, capacity, default, op).entries, default, before + [op])
  {
    var s := st.entries;
    var found := if op.DoContains? then None else FindKey(s, op.k);
    if found.Some? {
      HoldsWithout(s, found.value, default, before);
    }
    if op.DoPut? && EffectiveTtl(op.ttl, default).Some? {
      var e := Entry(op.k, op.v, Deadline(EffectiveTtl(op.ttl, default).value, op.now));
      var kept := if found.Some? then Without(s, found.value) else if |s| >= capacity then s[1..] else s;
      if found.None? && |s| >= capacity {
        HoldsWithout(s, 0, default, before);
      }
      StillHolds(kept, default, before, op);
      assert LastWrite(default, before + [op], op.k) == Some((op.v, e.expires));
    } else if op.DoDelete? {
      StillHolds(if found.Some? then Without(s, found.value) else s, default, before, op);
    } else {
      StillHolds(Apply(st, capacity, default, op).entries, default, before, op);
    }
  }

  lemma {:induction false} EntriesHoldLastWrites<K, V>(capacity: nat, default: Option<real>, ops: seq<Op<K, V>>)
    requires capacity >= 1
    ensures HoldsLastWrites(Run(capacity, default, ops).entries, default, ops)
  {
    if ops != [] {
      var before, op := ops[..|ops| - 1], ops[|ops| - 1];
      EntriesHoldLastWrites(capacity, default, before);
      RunKeepsInvariant(capacity, default, before);
      ApplyHoldsLastWrites(Run(capacity, default, before), capacity, default, before, op);
      assert before + [op] == ops;
    }
  }

  /** A hit returns the value of the last successful put of that key, not deleted since and not expired. */
  lemma HitReturnsLastWrite<K, V>(capacity: nat, default: Option<real>, ops: seq<Op<K, V>>, k: K, now: real)
    requires capacity >= 1 && Get(Run(capacity, default, ops), k, now).1.Some?
    ensures var w := LastWrite(default, ops, k);
      && w.Some? && w.value.0 == Get(Run(capacity, default, ops), k, now).1.value
      && !IsExpired(w.value.1, now)
  {
    EntriesHoldLastWrites(capacity, default, ops);
  }

  // ----- the order is the order of last use -----

  /** The operation uses the entry for `k`: it puts it, or finds it alive. */
  predicate Uses<K(==), V>(st: State<K, V>, default: Option<real>, op: Op<K, V>, k: K) {
    match op
    case DoGet(j, now) => j == k && Get(st, k, now).1.Some?
    case DoPut(j, _, ttl, _, _) => j == k && EffectiveTtl(ttl, default).Some?
    case _ => false
  }

  /** When `k` was last used, counting operations from 1; 0 if never. */
  function LastUse<K(==), V>(capacity: nat, default: Option<real>, ops: seq<Op<K, V>>, k: K): (r: nat)
    requires capacity >= 1
    ensures r <= |ops|
  {
    if ops == [] then 0
    else
      var before := ops[..|ops| - 1];
      if Uses(Run(capacity, default, before), default, ops[|ops| - 1], k) then |ops|
      else LastUse(capacity, default, before, k)
  }

  ghost predicate ByLastUse<K, V>(s: seq<Entry<K, V>>, capacity: nat, default: Option<real>, ops: seq<Op<K, V>>)
    requires capacity >= 1
  {
    forall i, j | 0 <= i < j < |s| ::
      LastUse(capacity, default, ops, s[i].key) < LastUse(capacity, default, ops, s[j].key)
  }

  /** Entries stand in the order they were last used, so the one evicted is the least recently used. */
  lemma {:induction false} OrderIsLastUse<K, V>(capacity: nat, default: Option<real>, ops: seq<Op<K, V>>)
    requires capacity >= 1
    ensures ByLastUse(Run(capacity, default, ops).entries, capacity, default, ops)
  {
    if ops != [] {
      var before, op := ops[..|ops| - 1], ops[|ops| - 1];
      OrderIsLastUse(capacity, default, before);
      RunKeepsInvariant(capacity, default, before);
      ApplyKeepsOrder(capacity, default, before, op);
      assert before + [op] == ops;
    }
  }

  lemma OrderWithout<K, V>(s: seq<Entry<K, V>>, i: nat, capacity: nat, default: Option<real>, ops: seq<Op<K, V>>)
    requires capacity >= 1 && i < |s| && ByLastUse(s, capacity, default, ops)
    ensures ByLastUse(Without(s, i), capacity, default, ops) && ByLastUse(s[1..], capacity, default, ops)
  {
  }

  /** Entries the operation does not use keep their order. */
  lemma OrderOfUnused<K, V>(s: seq<Entry<K, V>>, capacity: nat, default: Option<real>, before: seq<Op<K, V>>,
                            op: Op<K, V>)
    requires capacity >= 1 && ByLastUse(s, capacity, default, before)
    requires forall i | 0 <= i < |s| :: !Uses(Run(capacity, default, before), default, op, s[i].key)
    ensures ByLastUse(s, capacity, default, before + [op])
  {
    assert (before + [op])[..|before|] == before;
  }

  /** The used entry goes last. */
  lemma OrderOfUsed<K, V>(s: seq<Entry<K, V>>, e: Entry<K, V>, capacity: nat, default: Option<real>,
                          before: seq<Op<K, V>>, op: Op<K, V>)
    requires capacity >= 1 && ByLastUse(s, capacity, default, before)
    requires forall i | 0 <= i < |s| :: !Uses(Run(capacity, default, before), default, op, s[i].key)
    requires Uses(Run(capacity, default, before), default, op, e.key)
    ensures ByLastUse(s + [e], capacity, default, before + [op])
  {
    var ops := before + [op];
    assert ops[..|before|] == before;
    OrderOfUnused(s, capacity, default, before, op);
    forall i | 0 <= i < |s|
      ensures LastUse(capacity, default, ops, s[i].key) < LastUse(capacity, default, ops, e.key)
    {
      assert LastUse(capacity, default, ops, s[i].key) == LastUse(capacity, default, before, s[i].key);
    }
  }

  lemma ApplyKeepsOrder<K, V>(capacity: nat, default: Option<real>, before: seq<Op<K, V>>, op: Op<K, V>)
    requires capacity >= 1 && WellKept(Run(capacity, default, before), capacity)
    requires ByLastUse(Run(capacity, default, before).entries, capacity, default, before)
    ensures ByLastUse(Apply(Run(capacity, default, before), capacity, default, op).entries, capacity, default,
                      before + [op])
  {
    var st := Run(capacity, default, before);
    var s := st.entries;
    var next := Apply(st, capacity, default, op).entries;
    var found := if op.DoContains? then None else FindKey(s, op.k);
    if found.Some? {
      OrderWithout(s, found.value, capacity, default, before);
    }
    if s != [] {
      OrderWithout(s, 0, capacity, default, before);
    }
    if !op.DoContains? && Uses(st, default, op, op.k) {
      var kept := if found.Some? then Without(s, found.value) else if |s| >= capacity then s[1..] else s;
      assert next == kept + [next[|next| - 1]];
      OrderOfUsed(kept, next[|next| - 1], capacity, default, before, op);
    } else {
      OrderOfUnused(next, capacity, default, before, op);
    }
  }
}
