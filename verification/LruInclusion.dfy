/**
 Larger caches never do worse: at every moment a smaller cache holds a subsequence of the entries of a
 larger one that saw the same operations, although a missed `get` inserts nothing.
 */
module LruInclusion {
  import opened Lists
  import opened Wrappers
  import opened Lru

  /** `c` is a subsequence of `d`. */
  ghost predicate Sub<T>(c: seq<T>, d: seq<T>) {
    if c == [] then true
    else if d == [] then false
    else if c[0] == d[0] then Sub(c[1..], d[1..])
    else Sub(c, d[1..])
  }

  lemma {:induction false} SubTail<T>(c: seq<T>, d: seq<T>)
    requires c != [] && Sub(c, d)
    ensures Sub(c[1..], d)
    decreases |d|, 1
  {
    if c[0] == d[0] {
      SubSkip(c[1..], d);
    } else {
      SubTail(c, d[1..]);
      SubSkip(c[1..], d);
    }
  }

  /** More in front of the larger list does no harm. */
  lemma {:induction false} SubSkip<T>(c: seq<T>, d: seq<T>)
    requires d != [] && Sub(c, d[1..])
    ensures Sub(c, d)
    decreases |d|, 0
  {
    if c != [] && c[0] == d[0] {
      SubTail(c, d[1..]);
    }
  }

  lemma {:induction false} SubMembers<T>(c: seq<T>, d: seq<T>)
    requires Sub(c, d)
    ensures |c| <= |d| && forall x | x in c :: x in d
  {
    if c != [] {
      if c[0] == d[0] {
        SubMembers(c[1..], d[1..]);
        assert c == [c[0]] + c[1..];
      } else {
        SubMembers(c, d[1..]);
      }
    }
  }

  lemma {:induction false} SubSnoc<T>(c: seq<T>, d: seq<T>, e: T)
    requires Sub(c, d)
    ensures Sub(c, d + [e])
    ensures Sub(c + [e], d + [e])
  {
    if d == [] {
      assert c + [e] == [e] && d + [e] == [e];
    } else {
      assert (d + [e])[1..] == d[1..] + [e];
      if c == [] {
        SubSnoc([], d[1..], e);
        assert c + [e] == [e] == [] + [e];
        SubSkip([e], d + [e]);
        SubSkip([], d + [e]);
      } else if c[0] == d[0] {
        assert (c + [e])[1..] == c[1..] + [e];
        SubSnoc(c[1..], d[1..], e);
      } else {
        SubSnoc(c, d[1..], e);
      }
    }
  }

  // ----- operations as dropping a key and appending an entry -----

  function DropKey<K(==), V>(s: seq<Entry<K, V>>, k: K): seq<Entry<K, V>> {
    if s == [] then [] else (if s[0].key == k then [] else [s[0]]) + DropKey(s[1..], k)
  }

  lemma {:induction false} DropAbsent<K, V>(s: seq<Entry<K, V>>, k: K)
    requires forall i | 0 <= i < |s| :: s[i].key != k
    ensures DropKey(s, k) == s
  {
    if s != [] {
      DropAbsent(s[1..], k);
    }
  }

  lemma {:induction false} WithoutIsDrop<K, V>(s: seq<Entry<K, V>>, i: nat)
    requires i < |s| && DistinctKeys(s)
    ensures Without(s, i) == DropKey(s, s[i].key)
  {
    if i == 0 {
      DropAbsent(s[1..], s[0].key);
      assert Without(s, 0) == s[1..];
    } else {
      WithoutIsDrop(s[1..], i - 1);
      assert Without(s, i) == [s[0]] + Without(s[1..], i - 1);
    }
  }

  lemma DropHead<K, V>(s: seq<Entry<K, V>>, k: K)
    requires s != []
    ensures s[0].key == k ==> DropKey(s, k) == DropKey(s[1..], k)
    ensures s[0].key != k ==>
      DropKey(s, k) != [] && DropKey(s, k)[0] == s[0] && DropKey(s, k)[1..] == DropKey(s[1..], k)
  {
  }

  lemma {:induction false} SubDrop<K, V>(c: seq<Entry<K, V>>, d: seq<Entry<K, V>>, k: K)
    requires Sub(c, d)
    ensures Sub(DropKey(c, k), DropKey(d, k))
  {
    if c != [] {
      DropHead(c, k);
      DropHead(d, k);
      if c[0] == d[0] {
        SubDrop(c[1..], d[1..], k);
      } else {
        SubDrop(c, d[1..], k);
        if d[0].key != k {
          SubSkip(DropKey(c, k), DropKey(d, k));
        }
      }
    }
  }

  /** What the smaller cache finds, the larger one finds. */
  lemma FindInBoth<K, V>(c: seq<Entry<K, V>>, d: seq<Entry<K, V>>, k: K)
    requires Sub(c, d) && DistinctKeys(c) && DistinctKeys(d)
    ensures FindKey(c, k).Some? ==> FindKey(d, k).Some? && d[FindKey(d, k).value] == c[FindKey(c, k).value]
  {
    SubMembers(c, d);
    if FindKey(c, k).Some? {
      var e := c[FindKey(c, k).value];
      assert e in d;
      var j :| 0 <= j < |d| && d[j] == e;
    }
  }

  /** If the larger cache's oldest entry is in the smaller one, it is the oldest there too. */
  lemma OldestIsOldest<K, V>(c: seq<Entry<K, V>>, d: seq<Entry<K, V>>)
    requires Sub(c, d) && d != [] && DistinctKeys(d)
    ensures Sub(c, d[1..]) || (c != [] && c[0] == d[0] && Sub(c[1..], d[1..]))
  {
  }

  // ----- the invariant -----

  ghost predicate Inside<K, V>(c: seq<Entry<K, V>>, d: seq<Entry<K, V>>, small: nat, large: nat) {
    Sub(c, d) && DistinctKeys(c) && DistinctKeys(d) && |c| <= small && |d| <= large && |d| - |c| <= large - small
  }

  /** The list once `k` is gone from it, wherever it was. */
  lemma RemoveStaysInside<K, V>(c: seq<Entry<K, V>>, d: seq<Entry<K, V>>, k: K, small: nat, large: nat)
    requires small <= large && Inside(c, d, small, large)
    ensures var c1 := Removed(c, k); var d1 := Removed(d, k);
      Sub(c1, d1) && DistinctKeys(c1) && DistinctKeys(d1) && |c1| <= small && |d1| <= large
      && |d1| - |c1| <= large - small
  {
    RemovedIsDrop(c, k);
    RemovedIsDrop(d, k);
    SubDrop(c, d, k);
    FindInBoth(c, d, k);
  }

  function Removed<K(==), V>(s: seq<Entry<K, V>>, k: K): seq<Entry<K, V>> {
    match FindKey(s, k) case Some(i) => Without(s, i) case None => s
  }

  lemma RemovedIsDrop<K, V>(s: seq<Entry<K, V>>, k: K)
    requires DistinctKeys(s)
    ensures Removed(s, k) == DropKey(s, k)
    ensures DistinctKeys(Removed(s, k)) && forall i | 0 <= i < |Removed(s, k)| :: Removed(s, k)[i].key != k
  {
    match FindKey(s, k)
    case Some(i) =>
      WithoutIsDrop(s, i);
      WithoutLeavesDistinct(s, i);
    case None => DropAbsent(s, k);
  }

  /** A used entry moves to the end: of both lists, or of the larger one only. */
  lemma MoveStaysInside<K, V>(c: seq<Entry<K, V>>, d: seq<Entry<K, V>>, k: K, small: nat, large: nat, e: Entry<K, V>)
    requires small <= large && Inside(c, d, small, large) && e.key == k && FindKey(d, k).Some?
    ensures FindKey(c, k).Some? ==> Inside(Removed(c, k) + [e], Removed(d, k) + [e], small, large)
    ensures FindKey(c, k).None? ==> Inside(c, Removed(d, k) + [e], small, large)
  {
    RemoveStaysInside(c, d, k, small, large);
    RemovedIsDrop(c, k);
    RemovedIsDrop(d, k);
    SubSnoc(Removed(c, k), Removed(d, k), e);
  }

  function Evicted<K, V>(s: seq<Entry<K, V>>, capacity: nat): seq<Entry<K, V>>
    requires capacity >= 1
  {
    if |s| >= capacity then s[1..] else s
  }

  /** A key new to both: each makes room on its own terms. */
  lemma InsertStaysInside<K, V>(c: seq<Entry<K, V>>, d: seq<Entry<K, V>>, small: nat, large: nat, e: Entry<K, V>)
    requires 1 <= small <= large && Inside(c, d, small, large)
    requires FindKey(d, e.key).None?
    ensures Inside(Evicted(c, small) + [e], Evicted(d, large) + [e], small, large)
  {
    FindInBoth(c, d, e.key);
    var c1, d1 := Evicted(c, small), Evicted(d, large);
    assert Sub(c1, d1) by {
      if |c| >= small {
        SubTail(c, d);
      }
      if |d| >= large {
        OldestIsOldest(c, d);
        if Sub(c, d[1..]) {
          SubTail(c, d[1..]);
        }
      }
    }
    SubSnoc(c1, d1, e);
  }

  /** A key the larger cache still holds and the smaller one lost. */
  lemma ReinsertStaysInside<K, V>(c: seq<Entry<K, V>>, d: seq<Entry<K, V>>, small: nat, large: nat, e: Entry<K, V>)
    requires 1 <= small <= large && Inside(c, d, small, large)
    requires FindKey(c, e.key).None? && FindKey(d, e.key).Some?
    ensures Inside(Evicted(c, small) + [e], Removed(d, e.key) + [e], small, large)
  {
    RemoveStaysInside(c, d, e.key, small, large);
    RemovedIsDrop(d, e.key);
    var c1 := Evicted(c, small);
    if |c| >= small {
      SubTail(c, Removed(d, e.key));
    }
    SubSnoc(c1, Removed(d, e.key), e);
  }

  lemma ApplyStaysInside<K, V>(c: State<K, V>, d: State<K, V>, small: nat, large: nat,
                               default: Option<real>, op: Op<K, V>)
    requires 1 <= small <= large && Inside(c.entries, d.entries, small, large)
    ensures Inside(Apply(c, small, default, op).entries, Apply(d, large, default, op).entries, small, large)
  {
    if !op.DoContains? {
      var k := op.k;
      FindInBoth(c.entries, d.entries, k);
      RemoveStaysInside(c.entries, d.entries, k, small, large);
      match op
      case DoGet(_, now) =>
        if FindKey(d.entries, k).Some? {
          MoveStaysInside(c.entries, d.entries, k, small, large, d.entries[FindKey(d.entries, k).value]);
        }
      case DoPut(_, v, ttl, now, later) =>
        var t := EffectiveTtl(ttl, default);
        if t.Some? {
          StoreStaysInside(c, d, small, large, Entry(k, v, Deadline(t.value, now)), later);
        }
      case DoDelete(_) =>
    }
  }

  lemma StoreStaysInside<K, V>(c: State<K, V>, d: State<K, V>, small: nat, large: nat, e: Entry<K, V>, later: real)
    requires 1 <= small <= large && Inside(c.entries, d.entries, small, large)
    ensures Inside(Store(c, small, e, later).entries, Store(d, large, e, later).entries, small, large)
  {
    FindInBoth(c.entries, d.entries, e.key);
    if FindKey(d.entries, e.key).None? {
      InsertStaysInside(c.entries, d.entries, small, large, e);
    } else if FindKey(c.entries, e.key).None? {
      ReinsertStaysInside(c.entries, d.entries, small, large, e);
    } else {
      MoveStaysInside(c.entries, d.entries, e.key, small, large, e);
    }
  }

  /** A hit in the smaller cache is a hit in the larger one, with the same value. */
  lemma HitInBoth<K, V>(c: State<K, V>, d: State<K, V>, small: nat, large: nat, k: K, now: real)
    requires Inside(c.entries, d.entries, small, large) && Get(c, k, now).1.Some?
    ensures Get(d, k, now).1 == Get(c, k, now).1
  {
    FindInBoth(c.entries, d.entries, k);
  }

  /**
   For the same operations and clock readings, the smaller cache's entries (keys, values, deadlines) are a
   subsequence of the larger one's, and it hits no more often.
   */
  lemma {:induction false} LargerCachesNeverDoWorse<K, V>(small: nat, large: nat, default: Option<real>,
                                                          ops: seq<Op<K, V>>)
    requires 1 <= small <= large
    ensures Inside(Run(small, default, ops).entries, Run(large, default, ops).entries, small, large)
    ensures Run(small, default, ops).stats.hits <= Run(large, default, ops).stats.hits
  {
    if ops != [] {
      var before, op := ops[..|ops| - 1], ops[|ops| - 1];
      LargerCachesNeverDoWorse(small, large, default, before);
      var c, d := Run(small, default, before), Run(large, default, before);
      ApplyStaysInside(c, d, small, large, default, op);
      if op.DoGet? && Get(c, op.k, op.now).1.Some? {
        HitInBoth(c, d, small, large, op.k, op.now);
      }
    }
  }
}
