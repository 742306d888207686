/**
 The LRU cache with TTL told by its history alone: which keys it holds, what a get answers and which puts
 are refused, without mentioning how entries are kept.
 */
module LruHistory {
  import opened Lists
  import opened Wrappers
  import opened Lru

  // ----- the history -----

  /** The `ttl` of a put, or else the default, is no positive number of seconds. */
  predicate Refused(ttl: Ttl, default: Option<real>) {
    || ttl.NotFinite?
    || (ttl.Seconds? && ttl.s <= 0.0)
    || (ttl.UseDefault? && default.Some? && default.value <= 0.0)
  }

  /** When what is put at `now` runs out. */
  function RunsOut(ttl: Ttl, default: Option<real>, now: real): Option<real> {
    if ttl.Seconds? then Some(now + ttl.s)
    else if ttl.UseDefault? && default.Some? then Some(now + default.value)
    else None
  }

  predicate Writes<K(==), V>(op: Op<K, V>, default: Option<real>, k: K) {
    op.DoPut? && op.k == k && !Refused(op.ttl, default)
  }

  predicate Erases<K(==), V>(op: Op<K, V>, k: K) {
    op.DoDelete? && op.k == k
  }

  /** What was last put under the key and not deleted since: a value, and when it runs out. */
  function Written<K(==), V>(default: Option<real>, ops: seq<Op<K, V>>, k: K): Option<(V, Option<real>)>
    decreases |ops|
  {
    if ops == [] then None
    else
      var op := ops[|ops| - 1];
      if Writes(op, default, k) then Some((op.v, RunsOut(op.ttl, default, op.now)))
      else if Erases(op, k) then None
      else Written(default, ops[..|ops| - 1], k)
  }

  /** What is written under the key has run out by then. */
  predicate RunOut<K(==), V>(default: Option<real>, ops: seq<Op<K, V>>, k: K, now: real) {
    var w := Written(default, ops, k);
    w.Some? && w.value.1.Some? && now >= w.value.1.value
  }

  /** The keys that were ever put. */
  function Keys<K(==), V>(ops: seq<Op<K, V>>): set<K> {
    set i | 0 <= i < |ops| && ops[i].DoPut? :: ops[i].k
  }

  /**
   The key is held: it was put, and since then neither deleted, nor found run out by a get, nor unused for
   longest when a new key came to a full cache.
   */
  predicate Held<K(==), V>(capacity: nat, default: Option<real>, ops: seq<Op<K, V>>, k: K)
    decreases |ops|, 1
  {
    ops != [] &&
    var before, op := ops[..|ops| - 1], ops[|ops| - 1];
    Writes(op, default, k) ||
    (Held(capacity, default, before, k) && !Erases(op, k)
     && !(op.DoGet? && op.k == k && RunOut(default, before, k, op.now))
     && !(op.DoPut? && Writes(op, default, op.k) && !Held(capacity, default, before, op.k)
          && |AllHeld(capacity, default, before)| >= capacity && UnusedForLongest(capacity, default, before, k)))
  }

  function AllHeld<K(==), V>(capacity: nat, default: Option<real>, ops: seq<Op<K, V>>): set<K>
    decreases |ops|, 2
  {
    set k | k in Keys(ops) && Held(capacity, default, ops, k)
  }

  /** The number of the last operation that put the key or found it, counted from one. */
  function Touched<K(==), V>(capacity: nat, default: Option<real>, ops: seq<Op<K, V>>, k: K): (r: nat)
    ensures r <= |ops|
    decreases |ops|, 0
  {
    if ops == [] then 0
    else
      var before, op := ops[..|ops| - 1], ops[|ops| - 1];
      if Writes(op, default, k)
         || (op.DoGet? && op.k == k && Held(capacity, default, before, k) && !RunOut(default, before, k, op.now))
      then |ops|
      else Touched(capacity, default, before, k)
  }

  /** All other keys held were used since this one. */
  predicate UnusedForLongest<K(==), V>(capacity: nat, default: Option<real>, ops: seq<Op<K, V>>, k: K)
    decreases |ops|, 3
  {
    forall j | j in AllHeld(capacity, default, ops) && j != k ::
      Touched(capacity, default, ops, k) < Touched(capacity, default, ops, j)
  }

  // ----- the list holds that history -----

  predicate HasKey<K(==), V>(s: seq<Entry<K, V>>, k: K) {
    exists i :: 0 <= i < |s| && s[i].key == k
  }

  lemma FindIffHas<K, V>(s: seq<Entry<K, V>>, k: K)
    ensures FindKey(s, k).Some? <==> HasKey(s, k)
  {
  }

  lemma RefusedIff(ttl: Ttl, default: Option<real>, now: real)
    ensures Refused(ttl, default) <==> EffectiveTtl(ttl, default).None?
    ensures !Refused(ttl, default) ==> Deadline(EffectiveTtl(ttl, default).value, now) == RunsOut(ttl, default, now)
  {
  }

  lemma {:induction false} WrittenIsLastWrite<K, V>(default: Option<real>, ops: seq<Op<K, V>>, k: K)
    ensures Written(default, ops, k) == LastWrite(default, ops, k)
  {
    if ops != [] {
      WrittenIsLastWrite(default, ops[..|ops| - 1], k);
      if ops[|ops| - 1].DoPut? {
        RefusedIff(ops[|ops| - 1].ttl, default, ops[|ops| - 1].now);
      }
    }
  }

  lemma {:induction false} HeldWasPut<K, V>(capacity: nat, default: Option<real>, ops: seq<Op<K, V>>, k: K)
    requires Held(capacity, default, ops, k)
    ensures k in Keys(ops)
    decreases |ops|
  {
    var n := |ops| - 1;
    if Writes(ops[n], default, k) {
      assert ops[n].k == k;
    } else {
      HeldWasPut(capacity, default, ops[..n], k);
      var i :| 0 <= i < n && ops[..n][i].DoPut? && ops[..n][i].k == k;
      assert ops[i].DoPut? && ops[i].k == k;
    }
  }

  function KeysOf<K(==), V>(s: seq<Entry<K, V>>): set<K> {
    set i | 0 <= i < |s| :: s[i].key
  }

  lemma {:induction false} KeyCount<K, V>(s: seq<Entry<K, V>>)
    requires DistinctKeys(s)
    ensures |KeysOf(s)| == |s|
  {
    if s != [] {
      var n := |s| - 1;
      KeyCount(s[..n]);
      assert KeysOf(s) == KeysOf(s[..n]) + {s[n].key};
      assert s[n].key !in KeysOf(s[..n]);
    }
  }

  // ----- what one operation does to the keys -----

  predicate FoundDead<K(==), V>(s: seq<Entry<K, V>>, k: K, now: real) {
    FindKey(s, k).Some? && IsExpired(s[FindKey(s, k).value].expires, now)
  }

  lemma WithoutKeys<K, V>(s: seq<Entry<K, V>>, i: nat, k: K)
    requires DistinctKeys(s) && i < |s|
    ensures HasKey(Without(s, i), k) <==> HasKey(s, k) && k != s[i].key
    ensures HasKey(Without(s, i) + [s[i]], k) <==> HasKey(s, k)
  {
    if j :| 0 <= j < |s| && s[j].key == k {
      var moved := Without(s, i) + [s[i]];
      assert moved[if j < i then j else if j == i then |s| - 1 else j - 1].key == k;
      if j != i {
        assert Without(s, i)[if j < i then j else j - 1].key == k;
      }
    }
    forall j | 0 <= j < |Without(s, i)| ensures HasKey(s, Without(s, i)[j].key) && Without(s, i)[j].key != s[i].key {
      assert Without(s, i)[j] == s[if j < i then j else j + 1];
    }
  }

  lemma WithKey<K, V>(s: seq<Entry<K, V>>, e: Entry<K, V>, k: K)
    ensures HasKey(s + [e], k) <==> HasKey(s, k) || k == e.key
  {
    if j :| 0 <= j < |s| && s[j].key == k {
      assert (s + [e])[j].key == k;
    }
    assert (s + [e])[|s|].key == e.key;
  }

  lemma GetKeys<K, V>(st: State<K, V>, k: K, now: real, j: K)
    requires DistinctKeys(st.entries)
    ensures HasKey(Get(st, k, now).0.entries, j) <==>
      HasKey(st.entries, j) && !(j == k && FoundDead(st.entries, k, now))
  {
    match FindKey(st.entries, k)
    case Some(i) => WithoutKeys(st.entries, i, j);
    case None =>
  }

  lemma DeleteKeys<K, V>(st: State<K, V>, k: K, j: K)
    requires DistinctKeys(st.entries)
    ensures HasKey(Delete(st, k).0.entries, j) <==> HasKey(st.entries, j) && j != k
  {
    match FindKey(st.entries, k)
    case Some(i) => WithoutKeys(st.entries, i, j);
    case None =>
  }

  lemma StoreKeys<K, V>(st: State<K, V>, capacity: nat, e: Entry<K, V>, later: real, j: K)
    requires capacity >= 1 && DistinctKeys(st.entries)
    ensures HasKey(Store(st, capacity, e, later).entries, j) <==>
      || j == e.key
      || (HasKey(st.entries, j) && !(!HasKey(st.entries, e.key) && |st.entries| >= capacity && st.entries[0].key == j))
  {
    FindIffHas(st.entries, e.key);
    match FindKey(st.entries, e.key)
    case Some(i) =>
      WithoutKeys(st.entries, i, j);
      WithKey(Without(st.entries, i), e, j);
    case None =>
      if |st.entries| >= capacity {
        WithoutKeys(st.entries, 0, j);
        assert Without(st.entries, 0) == st.entries[1..];
        WithKey(st.entries[1..], e, j);
      } else {
        WithKey(st.entries, e, j);
      }
  }

  /** The key stays, or is put. */
  predicate KeyStays<K(==), V>(st: State<K, V>, capacity: nat, default: Option<real>, op: Op<K, V>, k: K)
    requires capacity >= 1
  {
    Writes(op, default, k) ||
    (HasKey(st.entries, k) && !Erases(op, k) && !(op.DoGet? && op.k == k && FoundDead(st.entries, k, op.now))
     && !(op.DoPut? && Writes(op, default, op.k) && !HasKey(st.entries, op.k)
          && |st.entries| >= capacity && st.entries[0].key == k))
  }

  lemma KeysAfter<K, V>(st: State<K, V>, capacity: nat, default: Option<real>, op: Op<K, V>, k: K)
    requires capacity >= 1 && DistinctKeys(st.entries)
    ensures HasKey(Apply(st, capacity, default, op).entries, k) <==> KeyStays(st, capacity, default, op, k)
  {
    match op
    case DoGet(j, now) => GetKeys(st, j, now, k);
    case DoPut(j, v, ttl, now, later) =>
      RefusedIff(ttl, default, now);
      if !Refused(ttl, default) {
        StoreKeys(st, capacity, Entry(j, v, RunsOut(ttl, default, now)), later, k);
      }
    case DoDelete(j) => DeleteKeys(st, j, k);
    case DoContains(_, _) =>
  }

  // ----- the history of a run -----

  ghost predicate HoldsHistory<K(!new), V>(s: seq<Entry<K, V>>, capacity: nat, default: Option<real>,
                                           ops: seq<Op<K, V>>)
    requires capacity >= 1
  {
    forall k :: (HasKey(s, k) <==> Held(capacity, default, ops, k))
                && Touched(capacity, default, ops, k) == LastUse(capacity, default, ops, k)
  }

  lemma DeadIffRunOut<K(!new), V>(s: seq<Entry<K, V>>, default: Option<real>, ops: seq<Op<K, V>>, k: K, now: real)
    requires HoldsLastWrites(s, default, ops) && HasKey(s, k)
    ensures FoundDead(s, k, now) <==> RunOut(default, ops, k, now)
  {
    FindIffHas(s, k);
    WrittenIsLastWrite(default, ops, k);
  }

  lemma HeldCount<K(!new), V>(s: seq<Entry<K, V>>, capacity: nat, default: Option<real>, ops: seq<Op<K, V>>)
    requires capacity >= 1 && HoldsHistory(s, capacity, default, ops) && DistinctKeys(s)
    ensures AllHeld(capacity, default, ops) == KeysOf(s) && |AllHeld(capacity, default, ops)| == |s|
  {
    KeyCount(s);
    forall k ensures k in AllHeld(capacity, default, ops) <==> k in KeysOf(s) {
      if Held(capacity, default, ops, k) {
        HeldWasPut(capacity, default, ops, k);
      }
      assert HasKey(s, k) <==> k in KeysOf(s);
    }
  }

  lemma FirstIsOldest<K(!new), V>(s: seq<Entry<K, V>>, capacity: nat, default: Option<real>, ops: seq<Op<K, V>>, k: K)
    requires capacity >= 1 && HoldsHistory(s, capacity, default, ops) && DistinctKeys(s)
    requires ByLastUse(s, capacity, default, ops) && HasKey(s, k)
    ensures s[0].key == k <==> UnusedForLongest(capacity, default, ops, k)
  {
    HeldCount(s, capacity, default, ops);
    var i :| 0 <= i < |s| && s[i].key == k;
    assert s[0].key in KeysOf(s);
    if i == 0 {
      forall j | j in KeysOf(s) && j != k
        ensures Touched(capacity, default, ops, k) < Touched(capacity, default, ops, j) {
        var m :| 0 <= m < |s| && s[m].key == j;
      }
    } else {
      assert LastUse(capacity, default, ops, s[0].key) < LastUse(capacity, default, ops, s[i].key);
    }
  }

  lemma HeldFollows<K(!new), V>(st: State<K, V>, capacity: nat, default: Option<real>, ops: seq<Op<K, V>>,
                                before: seq<Op<K, V>>, op: Op<K, V>, k: K)
    requires capacity >= 1 && ops != [] && before == ops[..|ops| - 1] && op == ops[|ops| - 1]
    requires HoldsHistory(st.entries, capacity, default, before) && HoldsLastWrites(st.entries, default, before)
    requires ByLastUse(st.entries, capacity, default, before) && DistinctKeys(st.entries)
    ensures KeyStays(st, capacity, default, op, k) <==> Held(capacity, default, ops, k)
  {
    HeldCount(st.entries, capacity, default, before);
    if HasKey(st.entries, k) {
      FirstIsOldest(st.entries, capacity, default, before, k);
      if op.DoGet? {
        DeadIffRunOut(st.entries, default, before, k, op.now);
      }
    }
  }

  lemma TouchFollows<K(!new), V>(st: State<K, V>, capacity: nat, default: Option<real>, ops: seq<Op<K, V>>,
                                 before: seq<Op<K, V>>, op: Op<K, V>, k: K)
    requires capacity >= 1 && ops != [] && before == ops[..|ops| - 1] && op == ops[|ops| - 1]
    requires st == Run(capacity, default, before)
    requires HoldsHistory(st.entries, capacity, default, before) && HoldsLastWrites(st.entries, default, before)
    ensures Touched(capacity, default, ops, k) == LastUse(capacity, default, ops, k)
  {
    FindIffHas(st.entries, k);
    if op.DoPut? {
      RefusedIff(op.ttl, default, op.now);
    } else if op.DoGet? && HasKey(st.entries, k) {
      DeadIffRunOut(st.entries, default, before, k, op.now);
    }
  }

  lemma {:induction false} RunHoldsHistory<K(!new), V>(capacity: nat, default: Option<real>, ops: seq<Op<K, V>>)
    requires capacity >= 1
    ensures HoldsHistory(Run(capacity, default, ops).entries, capacity, default, ops)
    decreases |ops|
  {
    if ops != [] {
      var before, op := ops[..|ops| - 1], ops[|ops| - 1];
      var st := Run(capacity, default, before);
      RunHoldsHistory(capacity, default, before);
      RunKeepsInvariant(capacity, default, before);
      EntriesHoldLastWrites(capacity, default, before);
      OrderIsLastUse(capacity, default, before);
      var s := Apply(st, capacity, default, op).entries;
      forall k
        ensures (HasKey(s, k) <==> Held(capacity, default, ops, k))
                && Touched(capacity, default, ops, k) == LastUse(capacity, default, ops, k)
      {
        KeysAfter(st, capacity, default, op, k);
        HeldFollows(st, capacity, default, ops, before, op, k);
        TouchFollows(st, capacity, default, ops, before, op, k);
      }
    }
  }

  // ----- what the cache answers -----

  /** After any run, a get hits exactly if the key is held and has not run out, and answers what was last
      put; the cache contains exactly these keys. */
  lemma GetsAreDecidedByHistory<K(!new), V>(capacity: nat, default: Option<real>, ops: seq<Op<K, V>>, k: K, now: real)
    requires capacity >= 1
    ensures var st := Run(capacity, default, ops);
      var live := Held(capacity, default, ops, k) && !RunOut(default, ops, k, now);
      && (live ==> Written(default, ops, k).Some?)
      && Get(st, k, now).1 == (if live then Some(Written(default, ops, k).value.0) else None)
      && Contains(st, k, now) == live
  {
    var st := Run(capacity, default, ops);
    RunHoldsHistory(capacity, default, ops);
    EntriesHoldLastWrites(capacity, default, ops);
    WrittenIsLastWrite(default, ops, k);
    FindIffHas(st.entries, k);
    if HasKey(st.entries, k) {
      DeadIffRunOut(st.entries, default, ops, k, now);
    }
  }

  /** A put is refused exactly if its time to live is no positive number; a delete finds exactly a held key;
      and as many entries are stored as keys are held. */
  lemma PutsAndDeletesByHistory<K(!new), V>(capacity: nat, default: Option<real>, ops: seq<Op<K, V>>, k: K, v: V,
                                            ttl: Ttl, now: real, later: real)
    requires capacity >= 1
    ensures Put(Run(capacity, default, ops), capacity, default, k, v, ttl, now, later).None? <==> Refused(ttl, default)
    ensures Delete(Run(capacity, default, ops), k).1 <==> Held(capacity, default, ops, k)
    ensures |Run(capacity, default, ops).entries| == |AllHeld(capacity, default, ops)|
  {
    var st := Run(capacity, default, ops);
    RunHoldsHistory(capacity, default, ops);
    RunKeepsInvariant(capacity, default, ops);
    HeldCount(st.entries, capacity, default, ops);
    FindIffHas(st.entries, k);
    RefusedIff(ttl, default, now);
  }

  // ----- the counters -----

  /** A new key comes to a full cache. */
  predicate NeedsRoom<K(==), V>(capacity: nat, default: Option<real>, before: seq<Op<K, V>>, op: Op<K, V>) {
    op.DoPut? && Writes(op, default, op.k) && !Held(capacity, default, before, op.k)
    && |AllHeld(capacity, default, before)| >= capacity
  }

  /** The key unused for longest has run out by then. */
  predicate OldestRunOut<K(==), V>(capacity: nat, default: Option<real>, ops: seq<Op<K, V>>, now: real) {
    exists k | k in AllHeld(capacity, default, ops) ::
      UnusedForLongest(capacity, default, ops, k) && RunOut(default, ops, k, now)
  }

  function One(b: bool): nat {
    if b then 1 else 0
  }

  /** What an operation adds: a get hits or misses, finding its key run out or not; a put that needs room
      evicts, or clears away what has run out. */
  function Counted<K(==), V>(capacity: nat, default: Option<real>, before: seq<Op<K, V>>, op: Op<K, V>): Stats {
    var held := op.DoGet? && Held(capacity, default, before, op.k);
    var dead := held && RunOut(default, before, op.k, op.now);
    var room := NeedsRoom(capacity, default, before, op);
    var cleared := room && OldestRunOut(capacity, default, before, op.later);
    Stats(One(held && !dead), One(op.DoGet? && (!held || dead)), One(room && !cleared), One(dead || cleared))
  }

  function Sum(a: Stats, b: Stats): Stats {
    Stats(a.hits + b.hits, a.misses + b.misses, a.evictions + b.evictions, a.expirations + b.expirations)
  }

  function Tally<K(==), V>(capacity: nat, default: Option<real>, ops: seq<Op<K, V>>): Stats
    decreases |ops|
  {
    if ops == [] then Stats(0, 0, 0, 0)
    else
      var before := ops[..|ops| - 1];
      Sum(Tally(capacity, default, before), Counted(capacity, default, before, ops[|ops| - 1]))
  }

  /** What an operation adds to the counters, by what it finds in the list. */
  lemma ApplyCounts<K, V>(st: State<K, V>, capacity: nat, default: Option<real>, op: Op<K, V>)
    requires capacity >= 1
    ensures var next := Apply(st, capacity, default, op).stats;
      var held := op.DoGet? && HasKey(st.entries, op.k);
      var dead := held && FoundDead(st.entries, op.k, op.now);
      var room := op.DoPut? && Writes(op, default, op.k) && !HasKey(st.entries, op.k) && |st.entries| >= capacity;
      var cleared := room && IsExpired(st.entries[0].expires, op.later);
      next == Sum(st.stats, Stats(One(held && !dead), One(op.DoGet? && (!held || dead)), One(room && !cleared),
                                  One(dead || cleared)))
  {
    if op.DoPut? {
      RefusedIff(op.ttl, default, op.now);
    }
    if !op.DoContains? {
      FindIffHas(st.entries, op.k);
    }
  }

  lemma FirstRunOut<K(!new), V>(s: seq<Entry<K, V>>, capacity: nat, default: Option<real>, ops: seq<Op<K, V>>,
                                now: real)
    requires capacity >= 1 && s != [] && HoldsHistory(s, capacity, default, ops) && DistinctKeys(s)
    requires ByLastUse(s, capacity, default, ops) && HoldsLastWrites(s, default, ops)
    ensures IsExpired(s[0].expires, now) <==> OldestRunOut(capacity, default, ops, now)
  {
    var first := s[0].key;
    assert HasKey(s, first);
    HeldCount(s, capacity, default, ops);
    FirstIsOldest(s, capacity, default, ops, first);
    WrittenIsLastWrite(default, ops, first);
    if k :| k in AllHeld(capacity, default, ops) && UnusedForLongest(capacity, default, ops, k)
            && RunOut(default, ops, k, now)
    {
      assert HasKey(s, k);
      FirstIsOldest(s, capacity, default, ops, k);
    }
  }

  lemma CountFollows<K(!new), V>(st: State<K, V>, capacity: nat, default: Option<real>, before: seq<Op<K, V>>,
                                 op: Op<K, V>)
    requires capacity >= 1 && DistinctKeys(st.entries) && HoldsHistory(st.entries, capacity, default, before)
    requires ByLastUse(st.entries, capacity, default, before) && HoldsLastWrites(st.entries, default, before)
    ensures Apply(st, capacity, default, op).stats == Sum(st.stats, Counted(capacity, default, before, op))
  {
    ApplyCounts(st, capacity, default, op);
    HeldCount(st.entries, capacity, default, before);
    if op.DoGet? && HasKey(st.entries, op.k) {
      DeadIffRunOut(st.entries, default, before, op.k, op.now);
    }
    if op.DoPut? && st.entries != [] {
      FirstRunOut(st.entries, capacity, default, before, op.later);
    }
  }

  /** The counters count, over any run, what the history says was found. */
  lemma {:induction false} CountersByHistory<K(!new), V>(capacity: nat, default: Option<real>, ops: seq<Op<K, V>>)
    requires capacity >= 1
    ensures Run(capacity, default, ops).stats == Tally(capacity, default, ops)
    decreases |ops|
  {
    if ops != [] {
      var before, op := ops[..|ops| - 1], ops[|ops| - 1];
      CountersByHistory(capacity, default, before);
      RunHoldsHistory(capacity, default, before);
      RunKeepsInvariant(capacity, default, before);
      EntriesHoldLastWrites(capacity, default, before);
      OrderIsLastUse(capacity, default, before);
      CountFollows(Run(capacity, default, before), capacity, default, before, op);
    }
  }
}
