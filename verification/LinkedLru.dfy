/**
 The cache as a dict of nodes and a doubly linked list between two sentinels, refined to the list model.
 */
module LinkedLru {
  import opened Lists
  import opened Wrappers
  import opened Lru

  /** A cache entry and list link; the sentinels carry no entry. */
  class Node<K, V> {
    var entry: Option<Entry<K, V>>
    var prev: Node?<K, V>
    var next: Node?<K, V>

    constructor (entry: Option<Entry<K, V>>)
      ensures this.entry == entry && prev == null && next == null
    {
      this.entry := entry;
      prev := null;
      next := null;
    }
  }

  // ----- chains: tail sentinel, nodes from least recently used, head sentinel -----

  ghost predicate LinkedAt<K, V>(chain: seq<Node<K, V>>, i: nat)
    requires i + 1 < |chain|
    reads chain`prev, chain`next
  {
    chain[i].prev == chain[i + 1] && chain[i + 1].next == chain[i]
  }

  /** No node twice, and `prev` and `next` inverse along the chain. */
  ghost predicate Linked<K, V>(chain: seq<Node<K, V>>)
    reads chain`prev, chain`next
  {
    Distinct(chain) && forall i: nat | i + 1 < |chain| :: LinkedAt(chain, i)
  }

  /** The nodes between the sentinels carry these entries. */
  ghost predicate Carries<K, V>(chain: seq<Node<K, V>>, contents: seq<Entry<K, V>>)
    reads chain`entry
  {
    |chain| == |contents| + 2 && forall i | 0 <= i < |contents| :: chain[i + 1].entry == Some(contents[i])
  }

  /** The dict maps exactly the keys of the entries, each to the node in its place. */
  ghost predicate Indexed<K, V>(chain: seq<Node<K, V>>, contents: seq<Entry<K, V>>, index: map<K, Node<K, V>>)
    requires |chain| == |contents| + 2
  {
    && (forall i | 0 <= i < |contents| :: contents[i].key in index && index[contents[i].key] == chain[i + 1])
    && (forall k | k in index :: FindKey(contents, k).Some?)
  }

  lemma ContentsDistinct<K, V>(chain: seq<Node<K, V>>, contents: seq<Entry<K, V>>, index: map<K, Node<K, V>>)
    requires |chain| == |contents| + 2 && Distinct(chain) && Indexed(chain, contents, index)
    ensures DistinctKeys(contents)
  {
    forall i, j | 0 <= i < j < |contents| ensures contents[i].key != contents[j].key {
      assert chain[i + 1] != chain[j + 1];
    }
  }

  /** The dict has one key per entry. */
  lemma IndexCount<K, V>(chain: seq<Node<K, V>>, contents: seq<Entry<K, V>>, index: map<K, Node<K, V>>)
    requires |chain| == |contents| + 2 && Distinct(chain) && Indexed(chain, contents, index)
    ensures |index| == |contents|
  {
    ContentsDistinct(chain, contents, index);
    var keys := seq(|contents|, i requires 0 <= i < |contents| => contents[i].key);
    DistinctCount(keys);
    forall k ensures k in index <==> k in keys {
      if k in index {
        assert keys[FindKey(contents, k).value] == k;
      }
    }
    assert index.Keys == set k | k in keys;
    assert |index| == |index.Keys|;
  }

  /** Dropping a node, its entry and its key keeps list and dict in step. */
  lemma IndexWithout<K, V>(chain: seq<Node<K, V>>, contents: seq<Entry<K, V>>, index: map<K, Node<K, V>>, i: nat)
    requires |chain| == |contents| + 2 && Distinct(chain) && Indexed(chain, contents, index) && i < |contents|
    ensures Indexed(Without(chain, i + 1), Without(contents, i), index - {contents[i].key})
    ensures chain[i + 1] !in Without(chain, i + 1)
  {
    ContentsDistinct(chain, contents, index);
    WithoutFinds(contents, i);
    var c, n, x := Without(contents, i), Without(chain, i + 1), index - {contents[i].key};
    forall j | 0 <= j < |c| ensures c[j].key in x && x[c[j].key] == n[j + 1] {
      var k := if j < i then j else j + 1;
      assert c[j] == contents[k] && n[j + 1] == chain[k + 1] && contents[k].key != contents[i].key;
    }
  }

  /** Every other key is still found. */
  lemma WithoutFinds<K, V>(contents: seq<Entry<K, V>>, i: nat)
    requires i < |contents|
    ensures forall k | k != contents[i].key && FindKey(contents, k).Some? :: FindKey(Without(contents, i), k).Some?
  {
    var c := Without(contents, i);
    forall k | k != contents[i].key && FindKey(contents, k).Some? ensures FindKey(c, k).Some? {
      var j := FindKey(contents, k).value;
      assert c[if j < i then j else j - 1].key == k;
    }
  }

  /** A chain with a node put next to the head. */
  ghost function Pushed<K, V>(chain: seq<Node<K, V>>, node: Node<K, V>): seq<Node<K, V>>
    requires |chain| >= 2
  {
    chain[..|chain| - 1] + [node, chain[|chain| - 1]]
  }

  /** Adding a node under a new key keeps list and dict in step. */
  lemma IndexPushed<K, V>(chain: seq<Node<K, V>>, contents: seq<Entry<K, V>>, index: map<K, Node<K, V>>,
                          node: Node<K, V>, e: Entry<K, V>)
    requires |chain| == |contents| + 2 && Indexed(chain, contents, index) && e.key !in index
    ensures Indexed(Pushed(chain, node), contents + [e], index[e.key := node])
  {
    var c := contents + [e];
    forall k | k in index[e.key := node] ensures FindKey(c, k).Some? {
      if k == e.key {
        assert c[|contents|].key == k;
      } else {
        assert c[FindKey(contents, k).value].key == k;
      }
    }
  }

  /** Moving a node next to the head needs no change to the dict. */
  lemma IndexMoved<K, V>(chain: seq<Node<K, V>>, contents: seq<Entry<K, V>>, index: map<K, Node<K, V>>,
                         i: nat, e: Entry<K, V>)
    requires |chain| == |contents| + 2 && Distinct(chain) && Indexed(chain, contents, index) && i < |contents|
    requires e.key == contents[i].key
    ensures Indexed(Pushed(Without(chain, i + 1), chain[i + 1]), Without(contents, i) + [e], index)
  {
    IndexWithout(chain, contents, index, i);
    IndexPushed(Without(chain, i + 1), Without(contents, i), index - {e.key}, chain[i + 1], e);
    assert (index - {e.key})[e.key := chain[i + 1]] == index;
  }

  /** Dropping a node drops its entry, and leaves the sentinels in place. */
  lemma CarriesWithout<K, V>(chain: seq<Node<K, V>>, contents: seq<Entry<K, V>>, i: nat)
    requires Carries(chain, contents) && i < |contents|
    ensures var c := Without(chain, i + 1);
      && Carries(c, Without(contents, i))
      && c[0] == chain[0] && c[|c| - 1] == chain[|chain| - 1]
      && forall n | n in c :: n in chain
  {
    var c, s := Without(chain, i + 1), Without(contents, i);
    forall j | 0 <= j < |s| ensures c[j + 1].entry == Some(s[j]) {
      var k := if j < i then j else j + 1;
      assert c[j + 1] == chain[k + 1] && s[j] == contents[k];
    }
  }

  lemma PushedMembers<K, V>(chain: seq<Node<K, V>>, node: Node<K, V>)
    requires |chain| >= 2
    ensures forall n | n in Pushed(chain, node) :: n in chain || n == node
  {
  }

  lemma CarriesMoved<K, V>(chain: seq<Node<K, V>>, contents: seq<Entry<K, V>>, i: nat, e: Entry<K, V>)
    requires |chain| == |contents| + 2 && i < |contents| && chain[i + 1].entry == Some(e)
    requires forall j | 0 <= j < |contents| && j != i :: chain[j + 1].entry == Some(contents[j])
    ensures Carries(Pushed(Without(chain, i + 1), chain[i + 1]), Without(contents, i) + [e])
    ensures Pushed(Without(chain, i + 1), chain[i + 1])[0] == chain[0]
    ensures forall n | n in Pushed(Without(chain, i + 1), chain[i + 1]) :: n in chain
  {
    var c, s := Pushed(Without(chain, i + 1), chain[i + 1]), Without(contents, i) + [e];
    forall j | 0 <= j < |s| ensures c[j + 1].entry == Some(s[j]) {
      if j < |s| - 1 {
        var k := if j < i then j else j + 1;
        assert c[j + 1] == chain[k + 1] && s[j] == contents[k];
      }
    }
  }

  lemma DropFirst<T>(s: seq<T>)
    requires s != []
    ensures Without(s, 0) == s[1..]
  {
  }

  class LruTtlCache<K(==), V> {
    const capacity: nat
    const defaultTtl: Option<real>
    const head: Node<K, V>
    const tail: Node<K, V>
    var index: map<K, Node<K, V>>
    var stats: Stats
    ghost var chain: seq<Node<K, V>>
    ghost var contents: seq<Entry<K, V>>

    ghost predicate Valid()
      reads `chain, `contents, `index, chain
    {
      && capacity >= 1 && |contents| <= capacity
      && Carries(chain, contents)
      && chain[0] == tail && chain[|chain| - 1] == head
      && Linked(chain)
      && Indexed(chain, contents, index)
    }

    ghost function Repr(): set<Node<K, V>>
      reads `chain
    {
      set n | n in chain
    }

    /** The model state this cache stands for. */
    ghost function Abs(): State<K, V>
      reads this
    {
      State(contents, stats)
    }

    /** An empty cache, for arguments that pass the source's validation. */
    constructor (capacity: nat, defaultTtl: Option<real>)
      requires capacity >= 1 && (defaultTtl.Some? ==> defaultTtl.value > 0.0)
      ensures Valid() && fresh(chain) && Abs() == EmptyState()
      ensures this.capacity == capacity && this.defaultTtl == defaultTtl
    {
      this.capacity := capacity;
      this.defaultTtl := defaultTtl;
      var h := new Node<K, V>(None);
      var t := new Node<K, V>(None);
      head := h;
      tail := t;
      index := map[];
      stats := Stats(0, 0, 0, 0);
      chain := [t, h];
      contents := [];
      new;
      head.next := tail;
      tail.prev := head;
    }

    // ----- list helpers -----

    ghost function At(i: nat): Node<K, V>
      requires i < |chain|
      reads `chain
    {
      chain[i]
    }

    /** `_unlink`: take node `i` of the chain out of the list. */
    method Unlink(node: Node<K, V>, ghost i: nat)
      requires Linked(chain) && 0 < i < |chain| - 1 && chain[i] == node
      modifies this`chain, node`prev, node`next, At(i + 1)`next, At(i - 1)`prev
      ensures chain == Without(old(chain), i) && Linked(chain)
    {
      assert LinkedAt(chain, i) && LinkedAt(chain, i - 1);
      var prev, nxt := node.prev, node.next;
      prev.next := nxt;
      nxt.prev := prev;
      node.prev := null;
      node.next := null;
      chain := Without(chain, i);
      forall j: nat | j + 1 < |chain| ensures LinkedAt(chain, j) {
        assert j + 1 < i ==> old(LinkedAt(chain, j));
        assert j >= i ==> old(LinkedAt(chain, j + 1));
      }
    }

    /** `_push_front`: insert a node right after the head. */
    method PushFront(node: Node<K, V>)
      requires Linked(chain) && |chain| >= 2 && node !in chain && chain[|chain| - 1] == head
      modifies this`chain, node`prev, node`next, head`next, At(|chain| - 2)`prev
      ensures chain == Pushed(old(chain), node) && Linked(chain)
    {
      ghost var n := |chain|;
      assert LinkedAt(chain, n - 2);
      var first := head.next;
      node.prev := head;
      node.next := first;
      head.next := node;
      first.prev := node;
      chain := Pushed(chain, node);
      forall j: nat | j + 1 < |chain| ensures LinkedAt(chain, j) {
        assert j + 2 < n ==> old(LinkedAt(chain, j));
      }
    }

    // ----- steps on list and dict together -----

    /** The entry the model finds under a key is the node the dict points to. */
    lemma IndexFinds(k: K) returns (i: nat)
      requires Valid()
      ensures k !in index ==> FindKey(contents, k) == None
      ensures k in index ==>
        && FindKey(contents, k) == Some(i) && i < |contents|
        && chain[i + 1] == index[k] && index[k].entry == Some(contents[i])
    {
      if FindKey(contents, k).Some? {
        i := FindKey(contents, k).value;
        assert contents[i].key in index;
      } else {
        i := 0;
      }
    }

    /** `_remove_node`, for the node of entry `i`. */
    method RemoveNode(node: Node<K, V>, ghost i: nat)
      requires Valid() && i < |contents| && chain[i + 1] == node
      modifies this`chain, this`index, this`contents, Repr()`prev, Repr()`next
      ensures Valid() && Repr() <= old(Repr())
      ensures contents == Without(old(contents), i) && index.Keys <= old(index.Keys)
    {
      IndexWithout(chain, contents, index, i);
      CarriesWithout(chain, contents, i);
      index := index - {node.entry.value.key};
      Unlink(node, i + 1);
      contents := Without(contents, i);
    }

    /** `_move_to_front`, on the chain. */
    method MoveToFront(node: Node<K, V>, ghost i: nat)
      requires Linked(chain) && 0 < i < |chain| - 1 && chain[i] == node && chain[|chain| - 1] == head
      modifies this`chain, Repr()`prev, Repr()`next
      ensures chain == Pushed(Without(old(chain), i), node) && Linked(chain)
    {
      Unlink(node, i);
      PushFront(node);
    }

    /** Moving the node of entry `i`, which now carries `e`, moves the entry. */
    method Promote(node: Node<K, V>, ghost i: nat, ghost e: Entry<K, V>)
      requires i < |contents| && |chain| == |contents| + 2 && Linked(chain) && chain[i + 1] == node
      requires chain[0] == tail && chain[|chain| - 1] == head && capacity >= 1 && |contents| <= capacity
      requires Indexed(chain, contents, index) && node.entry == Some(e) && e.key == contents[i].key
      requires forall j | 0 <= j < |contents| && j != i :: chain[j + 1].entry == Some(contents[j])
      modifies this`chain, this`contents, Repr()`prev, Repr()`next
      ensures Valid() && Repr() <= old(Repr())
      ensures contents == Without(old(contents), i) + [e]
    {
      IndexMoved(chain, contents, index, i, e);
      CarriesMoved(chain, contents, i, e);
      MoveToFront(node, i + 1);
      contents := Without(contents, i) + [e];
    }

    // ----- public operations; None stands for a miss -----

    method Get(key: K, now: real) returns (r: Option<V>)
      requires Valid()
      modifies this, Repr()
      ensures Valid() && Repr() <= old(Repr())
      ensures (Abs(), r) == Lru.Get(old(Abs()), key, now)
    {
      ghost var i := IndexFinds(key);
      if key !in index {
        stats := stats.(misses := stats.misses + 1);
        return None;
      }
      var node := index[key];
      if IsExpired(node.entry.value.expires, now) {
        Expire(node, i);
        return None;
      }
      r := Touch(node, i);
    }

    /** The lookup found a dead entry. */
    method Expire(node: Node<K, V>, ghost i: nat)
      requires Valid() && i < |contents| && chain[i + 1] == node
      modifies this, Repr()
      ensures Valid() && Repr() <= old(Repr())
      ensures Abs() == Buried(old(Abs()), i)
    {
      RemoveNode(node, i);
      stats := stats.(misses := stats.misses + 1);
      stats := stats.(expirations := stats.expirations + 1);
    }

    /** The lookup found a live entry. */
    method Touch(node: Node<K, V>, ghost i: nat) returns (r: Option<V>)
      requires Valid() && i < |contents| && chain[i + 1] == node
      modifies this, Repr()
      ensures Valid() && Repr() <= old(Repr())
      ensures Abs() == Used(old(Abs()), i)
      ensures r == Some(old(contents[i]).value)
    {
      assert node.entry == Some(contents[i]);
      r := Some(node.entry.value.value);
      Promote(node, i, contents[i]);
      stats := stats.(hits := stats.hits + 1);
    }

    /** `_evict_one`: drop the node before the tail; only an unexpired one counts as evicted. */
    method EvictOne(later: real)
      requires Valid() && contents != []
      modifies this, Repr()
      ensures Valid() && |contents| < capacity && Repr() <= old(Repr())
      ensures Abs() == Lru.EvictOne(old(Abs()), later)
      ensures index.Keys <= old(index.Keys)
    {
      assert LinkedAt(chain, 0);
      var victim := tail.prev;
      assert victim == chain[0 + 1] && victim.entry == Some(contents[0]);
      DropFirst(contents);
      var expired := IsExpired(victim.entry.value.expires, later);
      RemoveNode(victim, 0);
      if expired {
        stats := stats.(expirations := stats.expirations + 1);
      } else {
        stats := stats.(evictions := stats.evictions + 1);
      }
    }

    /** ok is false where the source raises on the TTL. */
    method Put(key: K, value: V, ttl: Ttl, now: real, later: real) returns (ok: bool)
      requires Valid()
      modifies this, Repr()
      ensures Valid() && fresh(Repr() - old(Repr()))
      ensures var next := Lru.Put(old(Abs()), capacity, defaultTtl, key, value, ttl, now, later);
        ok == next.Some? && Abs() == if next.Some? then next.value else old(Abs())
    {
      var effective := EffectiveTtl(ttl, defaultTtl);
      if effective.None? {
        return false;
      }
      var e := Entry(key, value, Deadline(effective.value, now));
      if key in index {
        Update(e);
      } else {
        Insert(e, later);
      }
      return true;
    }

    /** A key already there: overwrite its node and make it most recent. */
    method Update(e: Entry<K, V>)
      requires Valid() && e.key in index
      modifies this`chain, this`contents, Repr()
      ensures Valid() && Repr() <= old(Repr())
      ensures Abs() == Store(old(Abs()), capacity, e, 0.0)
    {
      ghost var i := IndexFinds(e.key);
      var node := index[e.key];
      node.entry := Some(e);
      Promote(node, i, e);
    }

    /** A new key: make room, then link a fresh node. */
    method Insert(e: Entry<K, V>, later: real)
      requires Valid() && e.key !in index
      modifies this, Repr()
      ensures Valid() && fresh(Repr() - old(Repr()))
      ensures Abs() == Store(old(Abs()), capacity, e, later)
    {
      ghost var i := IndexFinds(e.key);
      IndexCount(chain, contents, index);
      if |index| >= capacity {
        EvictOne(later);
      }
      Link(e);
    }

    method Link(e: Entry<K, V>)
      requires Valid() && e.key !in index && |contents| < capacity
      modifies this`chain, this`index, this`contents, Repr()`prev, Repr()`next
      ensures Valid() && fresh(Repr() - old(Repr()))
      ensures contents == old(contents) + [e]
    {
      var node := new Node(Some(e));
      PushedMembers(chain, node);
      IndexPushed(chain, contents, index, node, e);
      index := index[e.key := node];
      PushFront(node);
      contents := contents + [e];
    }

    method Delete(key: K) returns (removed: bool)
      requires Valid()
      modifies this, Repr()
      ensures Valid() && Repr() <= old(Repr())
      ensures (Abs(), removed) == Lru.Delete(old(Abs()), key)
    {
      ghost var i := IndexFinds(key);
      if key !in index {
        return false;
      }
      RemoveNode(index[key], i);
      return true;
    }

    method Len() returns (n: nat)
      requires Valid()
      ensures n == |Abs().entries|
    {
      IndexCount(chain, contents, index);
      return |index|;
    }

    /** `__contains__`: a peek. */
    method Contains(key: K, now: real) returns (r: bool)
      requires Valid()
      ensures r == Lru.Contains(Abs(), key, now)
    {
      ghost var i := IndexFinds(key);
      if key !in index {
        return false;
      }
      return !IsExpired(index[key].entry.value.expires, now);
    }
  }

  /** Construction; null where the source raises on the capacity or the default TTL. */
  method Create<K(==), V>(capacity: int, defaultTtl: Ttl) returns (cache: LruTtlCache?<K, V>)
    ensures cache == null <==> capacity < 1 || EffectiveTtl(defaultTtl, None).None?
    ensures cache != null ==> cache.Valid() && fresh(cache) && fresh(cache.chain) && cache.Abs() == EmptyState()
    ensures cache != null ==> cache.capacity == capacity && Some(cache.defaultTtl) == EffectiveTtl(defaultTtl, None)
  {
    var ttl := EffectiveTtl(defaultTtl, None);
    if capacity < 1 || ttl.None? {
      return null;
    }
    cache := new LruTtlCache(capacity, ttl.value);
  }
}
