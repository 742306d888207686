/**
 The cache on an ordered dict, refined to the same list model with the same counters.
 */
module OrderedLru {
  import opened Lists
  import opened Wrappers
  import opened Lru

  datatype Slot<V> = Slot(value: V, expires: Option<real>)

  /** An ordered dict: a mapping and the order of its keys. */
  ghost predicate Ordered<K, V>(data: map<K, Slot<V>>, order: seq<K>) {
    Distinct(order) && (forall k | k in order :: k in data) && forall k | k in data :: k in order
  }

  function Items<K(==), V>(data: map<K, Slot<V>>, order: seq<K>): seq<Entry<K, V>>
    requires forall k | k in order :: k in data
  {
    seq(|order|, i requires 0 <= i < |order| => Entry(order[i], data[order[i]].value, data[order[i]].expires))
  }

  /** Where a key stands in the order. */
  function IndexOf<K(==)>(order: seq<K>, k: K): (i: nat)
    requires k in order
    ensures i < |order| && order[i] == k
  {
    if order[0] == k then 0 else 1 + IndexOf(order[1..], k)
  }

  lemma ItemsFind<K, V>(data: map<K, Slot<V>>, order: seq<K>, k: K)
    requires Ordered(data, order)
    ensures DistinctKeys(Items(data, order))
    ensures k in data ==> FindKey(Items(data, order), k) == Some(IndexOf(order, k))
    ensures k !in data ==> FindKey(Items(data, order), k) == None
  {
    var s := Items(data, order);
    assert forall i | 0 <= i < |s| :: s[i].key == order[i];
    if k in data {
      assert s[IndexOf(order, k)].key == k;
    }
  }

  lemma DistinctWithout<K>(order: seq<K>, i: nat)
    requires Distinct(order) && i < |order|
    ensures Distinct(Without(order, i))
    ensures forall p | 0 <= p < |Without(order, i)| :: Without(order, i)[p] in order && Without(order, i)[p] != order[i]
  {
  }

  lemma OrderedWithout<K, V>(data: map<K, Slot<V>>, order: seq<K>, k: K)
    requires Ordered(data, order) && k in data
    ensures Ordered(data - {k}, Without(order, IndexOf(order, k)))
  {
    var i := IndexOf(order, k);
    var o := Without(order, i);
    forall j | j in data && j != k ensures j in o {
      var p := IndexOf(order, j);
      assert o[if p < i then p else p - 1] == j;
    }
    DistinctWithout(order, i);
  }

  lemma ItemsWithout<K, V>(data: map<K, Slot<V>>, order: seq<K>, k: K)
    requires Ordered(data, order) && k in data
    ensures Ordered(data - {k}, Without(order, IndexOf(order, k)))
    ensures Items(data - {k}, Without(order, IndexOf(order, k))) == Without(Items(data, order), IndexOf(order, k))
  {
    OrderedWithout(data, order, k);
  }

  lemma ItemsAppend<K, V>(data: map<K, Slot<V>>, order: seq<K>, k: K, slot: Slot<V>)
    requires Ordered(data, order) && k !in data
    ensures Ordered(data[k := slot], order + [k])
    ensures Items(data[k := slot], order + [k]) == Items(data, order) + [Entry(k, slot.value, slot.expires)]
  {
  }

  lemma {:induction false} OrderCount<K, V>(data: map<K, Slot<V>>, order: seq<K>)
    requires Ordered(data, order)
    ensures |data| == |order|
    decreases |order|
  {
    if order == [] {
      assert data.Keys == {};
    } else {
      var k := order[|order| - 1];
      var rest := order[..|order| - 1];
      assert order == rest + [k];
      assert Ordered(data - {k}, rest);
      OrderCount(data - {k}, rest);
      assert data.Keys == (data - {k}).Keys + {k};
    }
  }

  class OrderedDictCache<K(==), V> {
    const capacity: nat
    const defaultTtl: Option<real>
    var data: map<K, Slot<V>>
    var order: seq<K>
    var stats: Stats

    ghost predicate Valid()
      reads this
    {
      capacity >= 1 && |order| <= capacity && Ordered(data, order)
    }

    ghost function Abs(): State<K, V>
      requires Valid()
      reads this
    {
      State(Items(data, order), stats)
    }

    constructor (capacity: nat, defaultTtl: Option<real>)
      requires capacity >= 1 && (defaultTtl.Some? ==> defaultTtl.value > 0.0)
      ensures Valid() && Abs() == EmptyState()
      ensures this.capacity == capacity && this.defaultTtl == defaultTtl
    {
      this.capacity := capacity;
      this.defaultTtl := defaultTtl;
      data := map[];
      order := [];
      stats := Stats(0, 0, 0, 0);
    }

    /** `del self._data[key]`. */
    method Remove(key: K)
      requires Valid() && key in data
      modifies this`data, this`order
      ensures Valid() && data == old(data) - {key} && order == Without(old(order), IndexOf(old(order), key))
      ensures Items(data, order) == Without(old(Items(data, order)), IndexOf(old(order), key))
    {
      ItemsWithout(data, order, key);
      order := Without(order, IndexOf(order, key));
      data := data - {key};
    }

    /** Set a slot and move its key to the end. */
    method SetLast(key: K, slot: Slot<V>)
      requires Valid() && key in data
      modifies this`data, this`order
      ensures Valid()
      ensures Items(data, order)
           == Without(old(Items(data, order)), IndexOf(old(order), key)) + [Entry(key, slot.value, slot.expires)]
    {
      ItemsWithout(data, order, key);
      ItemsAppend(data - {key}, Without(order, IndexOf(order, key)), key, slot);
      order := Without(order, IndexOf(order, key)) + [key];
      assert data[key := slot] == (data - {key})[key := slot];
      data := data[key := slot];
    }

    method Get(key: K, now: real) returns (r: Option<V>)
      requires Valid()
      modifies this
      ensures Valid() && (Abs(), r) == Lru.Get(old(Abs()), key, now)
    {
      ItemsFind(data, order, key);
      if key !in data {
        stats := stats.(misses := stats.misses + 1);
        return None;
      }
      var slot := data[key];
      if IsExpired(slot.expires, now) {
        Remove(key);
        stats := stats.(misses := stats.misses + 1, expirations := stats.expirations + 1);
        return None;
      }
      SetLast(key, slot);
      stats := stats.(hits := stats.hits + 1);
      return Some(slot.value);
    }

    /** `popitem(last=False)` and its count. */
    method PopOldest(later: real)
      requires Valid() && order != []
      modifies this
      ensures Valid() && |order| < capacity && Abs() == Lru.EvictOne(old(Abs()), later)
      ensures data.Keys <= old(data.Keys)
    {
      var victim := data[order[0]];
      assert Without(Items(data, order), 0) == Items(data, order)[1..];
      Remove(order[0]);
      if IsExpired(victim.expires, later) {
        stats := stats.(expirations := stats.expirations + 1);
      } else {
        stats := stats.(evictions := stats.evictions + 1);
      }
    }

    /** ok is false where the source raises on the TTL. */
    method Put(key: K, value: V, ttl: Ttl, now: real, later: real) returns (ok: bool)
      requires Valid()
      modifies this
      ensures Valid()
      ensures var next := Lru.Put(old(Abs()), capacity, defaultTtl, key, value, ttl, now, later);
        ok == next.Some? && Abs() == if next.Some? then next.value else old(Abs())
    {
      var effective := EffectiveTtl(ttl, defaultTtl);
      if effective.None? {
        return false;
      }
      var slot := Slot(value, Deadline(effective.value, now));
      ItemsFind(data, order, key);
      if key in data {
        SetLast(key, slot);
        return true;
      }
      OrderCount(data, order);
      if |data| >= capacity {
        PopOldest(later);
      }
      ItemsAppend(data, order, key, slot);
      order := order + [key];
      data := data[key := slot];
      return true;
    }

    method Delete(key: K) returns (removed: bool)
      requires Valid()
      modifies this
      ensures Valid() && (Abs(), removed) == Lru.Delete(old(Abs()), key)
    {
      ItemsFind(data, order, key);
      if key !in data {
        return false;
      }
      Remove(key);
      return true;
    }

    method Len() returns (n: nat)
      requires Valid()
      ensures n == |Abs().entries|
    {
      OrderCount(data, order);
      return |data|;
    }

    method Contains(key: K, now: real) returns (r: bool)
      requires Valid()
      ensures r == Lru.Contains(Abs(), key, now)
    {
      ItemsFind(data, order, key);
      return key in data && !IsExpired(data[key].expires, now);
    }
  }
}
