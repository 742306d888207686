/**
 The cache object: partition objects by key, the owner map and the id counter.  Every operation works on
 one partition and leaves the objects of the others alone; seen as a whole, the cache goes where the
 functions on values say, and stays coherent.
 */
module SemanticCache {
  import opened Wrappers
  import Lru
  import opened VectorIndex
  import opened Partitions
  import opened PartitionLookup
  import opened PartitionObject
  import Ops = CacheOperations

  /** What a lookup in shadow mode would have answered. */
  datatype ShadowEntry = ShadowEntry(at: real, query: string, key: Ops.Key, wouldBe: Outcome)

  /** In shadow mode nothing is served; a hit is reported as a miss with its score. */
  function Shadowed(r: Outcome): Outcome {
    if r.Hit? then Miss("shadow_mode", Some(r.score)) else r
  }

  /** A bounded log keeps its latest entries. */
  function Latest(log: seq<ShadowEntry>, capacity: nat): seq<ShadowEntry> {
    if |log| > capacity then log[|log| - capacity..] else log
  }

  /** The reason a refused query is answered with. */
  function RefusalReason(refusal: string): string {
    if refusal == "" then "not_cacheable" else refusal
  }

  class SemanticCache {
    const cfg: Config
    const defaultTtl: Option<real>
    const shadow: bool
    const logCapacity: nat
    var shadowLog: seq<ShadowEntry>
    var partitions: map<Ops.Key, Partition>
    var owner: map<Id, Ops.Key>
    var nextId: nat
    ghost var contents: map<Ops.Key, Part>  // what the partition objects hold
    ghost var repr: set<object>

    /** The objects behind one key. */
    ghost function At(key: Ops.Key): set<object>
      reads `partitions
    {
      if key in partitions then {partitions[key], partitions[key].index} else {}
    }

    ghost predicate Holds(key: Ops.Key, p: Partition)
      requires {p, p.index} <= repr
      reads `contents, `repr, repr
    {
      p.Valid() && p.index.dim == cfg.dim && key in contents && p.Abs() == contents[key]
    }

    /** No object serves two keys. */
    ghost predicate Separate()
      reads `partitions
    {
      forall j, k | j in partitions && k in partitions && j != k ::
        partitions[j] != partitions[k] && partitions[j].index != partitions[k].index
    }

    /** Each partition object holds its contents. */
    ghost predicate AllHold()
      reads `partitions, `contents, `repr, repr
    {
      forall key | key in partitions :: {partitions[key], partitions[key].index} <= repr && Holds(key, partitions[key])
    }

    ghost predicate Consistent()
      reads `partitions, `contents, `repr, repr
    {
      this !in repr && partitions.Keys == contents.Keys && Separate() && AllHold()
    }

    ghost predicate Valid()
      reads `partitions, `contents, `repr, repr
    {
      Consistent()
    }

    /** The whole cache as a value. */
    ghost function Abs(): Ops.Cache
      reads `contents, `owner, `nextId
    {
      Ops.Cache(contents, owner, nextId)
    }

    constructor (cfg: Config, defaultTtl: Option<real>, shadow: bool, logCapacity: nat)
      requires cfg.capacity >= 1 && cfg.topK >= 1 && logCapacity >= 1
      ensures this.cfg == cfg && this.defaultTtl == defaultTtl && this.shadow == shadow
        && this.logCapacity == logCapacity
      ensures shadowLog == []
      ensures Valid() && Abs() == Ops.INIT && Ops.Ok(Abs(), cfg)
    {
      this.cfg := cfg;
      this.defaultTtl := defaultTtl;
      this.shadow := shadow;
      this.logCapacity := logCapacity;
      shadowLog := [];
      partitions := map[];
      owner := map[];
      nextId := 1;
      contents := map[];
      repr := {};
    }

    /** Valid but for what the partition of one key now holds. */
    ghost predicate ValidExcept(key: Ops.Key)
      reads `partitions, `contents, `repr, repr
    {
      && this !in repr && partitions.Keys == contents.Keys && Separate() && key in partitions
      && (forall k | k in partitions :: {partitions[k], partitions[k].index} <= repr)
      && (forall k | k in partitions && k != key :: Holds(k, partitions[k]))
      && partitions[key].Valid() && partitions[key].index.dim == cfg.dim
    }

    /** Working on the objects of one key touches nothing else. */
    twostate lemma Untouched(key: Ops.Key)
      requires old(Valid()) && key in old(partitions) && old(partitions)[key].Valid()
      requires forall o: object | o in old(repr) + {this} && o !in old(At(key)) :: unchanged(o)
      ensures ValidExcept(key) && partitions == old(partitions) && contents == old(contents)
      ensures owner == old(owner) && nextId == old(nextId) && shadowLog == old(shadowLog)
    {
      assert this !in old(At(key)) by {
        assert old(Holds(key, partitions[key]));
      }
      forall k | k in partitions && k != key ensures Holds(k, partitions[k]) {
        assert old(Holds(k, partitions[k]));
      }
    }

    /** Note what the partition of one key holds by now. */
    ghost method Note(key: Ops.Key)
      requires ValidExcept(key)
      modifies `contents
      ensures Valid() && partitions == old(partitions) && partitions[key].Valid()
      ensures contents == old(contents)[key := partitions[key].Abs()]
        && partitions[key].Abs() == old(partitions[key].Abs())
      ensures owner == old(owner) && nextId == old(nextId) && shadowLog == old(shadowLog)
    {
      contents := contents[key := partitions[key].Abs()];
      forall k | k in partitions && k != key ensures Holds(k, partitions[k]) {
        assert old(Holds(k, partitions[k]));
      }
    }

    /** What the fields of a partition are. */
    lemma Fields(key: Ops.Key)
      requires Valid() && key in partitions
      ensures partitions[key].entries == contents[key].entries && partitions[key].exact == contents[key].exact
    {
      assert Holds(key, partitions[key]);
    }

    /** `_lookup_internal` on a partition that exists. */
    method SearchAt(key: Ops.Key, query: string, now: real, v: Vector, ghost part: Part)
      returns (r: Outcome, ghost cands: seq<Candidate>, ghost q: Part)
      requires Valid() && key in partitions && part == contents[key] && Coherent(part, cfg) && cfg.topK >= 1
      modifies `contents, At(key)
      ensures Valid() && partitions == old(partitions) && owner == old(owner) && nextId == old(nextId)
      ensures contents == old(contents)[key := q] && shadowLog == old(shadowLog)
      ensures (q, r) == LookupIn(part, cfg, query, now, v, cands)
      ensures Searched(part, cfg, query, now, v, cands)
    {
      var p := partitions[key];
      assert Holds(key, p);
      assert p.Abs() == part;
      r, cands := p.Lookup(cfg, query, now, v);
      q := p.Abs();
      Untouched(key);
      Note(key);
    }

    /** `set(partition.entries)`. */
    method LiveIds(key: Ops.Key) returns (ids: set<Id>)
      requires Valid() && key in partitions
      ensures key in contents && ids == contents[key].entries.Keys
    {
      Fields(key);
      ids := partitions[key].entries.Keys;
    }

    /** The ids that left a partition leave the owner map; `before` is the cache before they left. */
    method Disown(key: Ops.Key, was: set<Id>, ghost before: Ops.Cache, ghost q: Part)
      requires Valid() && key in partitions && key in before.parts
      requires contents == before.parts[key := q] && owner == before.owner
      requires was == before.parts[key].entries.Keys
      modifies `owner
      ensures Valid() && partitions == old(partitions) && contents == old(contents) && nextId == old(nextId)
      ensures Abs() == Ops.Shrunk(before, key, q).(nextId := nextId) && shadowLog == old(shadowLog)
    {
      var ids := LiveIds(key);
      owner := owner - (was - ids);
      Ops.ShrunkParts(before, key, q, contents, owner);
    }

    /** The same, and the ids that left it disowned. */
    method LookupAt(key: Ops.Key, query: string, now: real, v: Vector)
      returns (r: Outcome, ghost cands: seq<Candidate>, ghost q: Part)
      requires Valid() && key in partitions && Coherent(contents[key], cfg) && cfg.topK >= 1
      modifies `owner, `contents, At(key)
      ensures Valid() && partitions == old(partitions) && shadowLog == old(shadowLog)
      ensures (q, r) == LookupIn(old(contents)[key], cfg, query, now, v, cands)
      ensures Searched(old(contents)[key], cfg, query, now, v, cands)
      ensures Abs() == Ops.Shrunk(old(Abs()), key, q)
    {
      var was := LiveIds(key);
      r, cands, q := SearchAt(key, query, now, v, contents[key]);
      Disown(key, was, old(Abs()), q);
    }

    /** `_lookup_internal`, after the policy. */
    method LookupInternal(key: Ops.Key, query: string, now: real, v: Vector)
      returns (r: Outcome, ghost cands: seq<Candidate>)
      requires Valid() && Ops.Ok(Abs(), cfg) && cfg.topK >= 1
      modifies `owner, `contents, At(key)
      ensures Valid() && Ops.Ok(Abs(), cfg) && partitions == old(partitions) && shadowLog == old(shadowLog)
      ensures (Abs(), r) == Ops.Lookup(old(Abs()), cfg, true, key, query, now, v, cands)
      ensures key in old(partitions) ==> Searched(old(contents)[key], cfg, query, now, v, cands)
    {
      cands := [];
      if key !in partitions {
        return Miss("empty_partition", None), [];
      }
      ghost var q;
      r, cands, q := LookupAt(key, query, now, v);
      Ops.LookupOk(old(Abs()), cfg, true, key, query, now, v, cands);
    }

    /** What `lookup` makes of that: in shadow mode it is logged, not served. */
    method Report(key: Ops.Key, query: string, now: real, served: Outcome) returns (r: Outcome)
      requires Valid()
      modifies `shadowLog
      ensures Valid() && Abs() == old(Abs()) && partitions == old(partitions) && contents == old(contents)
      ensures r == if shadow then Shadowed(served) else served
      ensures shadowLog == if shadow && !served.Raised?
                           then Latest(old(shadowLog) + [ShadowEntry(now, query, key, served)], logCapacity)
                             else old(shadowLog)
    {
      if shadow && !served.Raised? {
        shadowLog := Latest(shadowLog + [ShadowEntry(now, query, key, served)], logCapacity);
        return Shadowed(served);
      }
      return served;
    }

    /** `lookup`; `refusal` is the policy's reason not to cache the query, if it has one, and `served` what
        serve mode answers. */
    method Lookup(refusal: Option<string>, key: Ops.Key, query: string, now: real, v: Vector)
      returns (r: Outcome, ghost served: Outcome, ghost cands: seq<Candidate>)
      requires Valid() && Ops.Ok(Abs(), cfg) && cfg.topK >= 1
      modifies `owner, `contents, `shadowLog, At(key)
      ensures Valid() && Ops.Ok(Abs(), cfg) && partitions == old(partitions)
      ensures refusal.Some? ==>
        r == Miss(RefusalReason(refusal.value), None) && Abs() == old(Abs()) && shadowLog == old(shadowLog)
      ensures refusal.None? ==>
        && (Abs(), served) == Ops.Lookup(old(Abs()), cfg, true, key, query, now, v, cands)
        && (key in old(partitions) ==> Searched(old(contents)[key], cfg, query, now, v, cands))
        && r == (if shadow then Shadowed(served) else served)
        && shadowLog == if shadow && !served.Raised?
                        then Latest(old(shadowLog) + [ShadowEntry(now, query, key, served)], logCapacity)
                          else old(shadowLog)
    {
      if refusal.Some? {
        return Miss(RefusalReason(refusal.value), None), Raised, [];
      }
      var found;
      found, cands := LookupInternal(key, query, now, v);
      served := found;
      r := Report(key, query, now, found);
    }

    /** Take an entry out of its partition. */
    method DropAt(key: Ops.Key, id: Id, ghost part: Part) returns (removed: bool)
      requires Valid() && key in partitions && part == contents[key]
      modifies `contents, At(key)
      ensures Valid() && partitions == old(partitions) && owner == old(owner) && nextId == old(nextId)
      ensures contents == old(contents)[key := RemoveEntry(part, id)] && removed == (id in part.entries)
    {
      var p := partitions[key];
      assert Holds(key, p);
      assert p.Abs() == part;
      removed := p.Remove(id);
      Untouched(key);
      Note(key);
    }

    /** The id left the owner map; `before` is the cache before it left its partition. */
    method DisownOne(key: Ops.Key, id: Id, ghost before: Ops.Cache)
      requires Valid() && key in before.parts
      requires contents == before.parts[key := RemoveEntry(before.parts[key], id)]
      requires owner == before.owner && nextId == before.nextId
      modifies `owner
      ensures Valid() && partitions == old(partitions) && Abs() == Ops.RemoveAt(before, key, id)
    {
      owner := owner - {id};
      Ops.RemovedParts(before, key, id, contents, owner);
    }

    /** `_remove_entry`: from the partition and from the owner map. */
    method RemoveAt(key: Ops.Key, id: Id) returns (removed: bool)
      requires Valid() && key in partitions
      modifies `owner, `contents, At(key)
      ensures Valid() && partitions == old(partitions)
      ensures Abs() == Ops.RemoveAt(old(Abs()), key, id) && removed == (id in old(contents)[key].entries)
    {
      removed := DropAt(key, id, contents[key]);
      DisownOne(key, id, old(Abs()));
    }

    method Invalidate(id: Id) returns (removed: bool)
      requires Valid() && Ops.Ok(Abs(), cfg)
      modifies `owner, `contents, if id in owner then At(owner[id]) else {}
      ensures Valid() && Ops.Ok(Abs(), cfg) && partitions == old(partitions)
      ensures (Abs(), removed) == Ops.Invalidate(old(Abs()), id)
    {
      Ops.InvalidateOk(Abs(), cfg, id);
      if id !in owner {
        return false;
      }
      assert Ops.OwnerOk(Abs(), id);
      removed := RemoveAt(owner[id], id);
    }

    /** Good feedback counts in place. */
    method PraiseAt(key: Ops.Key, id: Id, ghost part: Part)
      requires Valid() && key in partitions && part == contents[key] && id in part.entries
      modifies `contents, At(key)
      ensures Valid() && partitions == old(partitions) && owner == old(owner) && nextId == old(nextId)
      ensures contents == old(contents)[key := Praise(part, id)]
    {
      var p := partitions[key];
      assert Holds(key, p);
      assert p.Abs() == part;
      p.CountPraise(id);
      Untouched(key);
      Note(key);
    }

    /** `feedback` on an entry that has an owner. */
    method FeedbackAt(key: Ops.Key, id: Id, good: bool)
      requires Valid() && id in owner && owner[id] == key && key in partitions
      modifies `owner, `contents, At(key)
      ensures Valid() && partitions == old(partitions)
      ensures Abs() == Ops.Feedback(old(Abs()), id, good)
    {
      assert Holds(key, partitions[key]);
      if id !in partitions[key].entries {
        return;
      }
      if good {
        PraiseAt(key, id, contents[key]);
      } else {
        var _ := RemoveAt(key, id);
      }
    }

    method Feedback(id: Id, good: bool)
      requires Valid() && Ops.Ok(Abs(), cfg)
      modifies `owner, `contents, if id in owner then At(owner[id]) else {}
      ensures Valid() && Ops.Ok(Abs(), cfg) && partitions == old(partitions)
      ensures Abs() == Ops.Feedback(old(Abs()), id, good)
    {
      Ops.FeedbackOk(Abs(), cfg, id, good);
      if id !in owner {
        return;
      }
      assert Ops.OwnerOk(Abs(), id);
      FeedbackAt(owner[id], id, good);
    }

    /** A new partition object goes under its key. */
    method AddPartition(key: Ops.Key, p: Partition)
      requires Valid() && key !in partitions && this !in {p, p.index} && {p, p.index} !! repr
      requires p.Valid() && p.index.dim == cfg.dim && p.Abs() == NO_PART
      modifies `partitions, `contents, `repr
      ensures Valid() && partitions == old(partitions)[key := p] && contents == old(contents)[key := NO_PART]
    {
      partitions := partitions[key := p];
      contents := contents[key := NO_PART];
      repr := repr + {p, p.index};
      forall k | k in partitions ensures Holds(k, partitions[k]) {
        assert k != key ==> old(Holds(k, partitions[k]));
      }
    }

    /** `_get_or_create_partition`. */
    method MakePartition(key: Ops.Key)
      requires Valid()
      modifies `partitions, `contents, `repr
      ensures Valid() && key in partitions && (key !in old(partitions) ==> fresh(At(key)))
      ensures key in old(partitions) ==> partitions == old(partitions)
      ensures contents == old(contents)[key := Ops.PartAt(old(Abs()), key)]
    {
      if key !in partitions {
        var p := new Partition(cfg.dim);
        AddPartition(key, p);
      } else {
        assert contents == contents[key := contents[key]];
      }
    }

    /** Refresh an entry in place, unless the index refuses the vector. */
    method RefreshAt(key: Ops.Key, id: Id, query: string, response: string, now: real, expires: Option<real>, v: Vector)
      returns (ok: bool)
      requires Valid() && key in partitions && id in contents[key].entries
      modifies `contents, At(key)
      ensures Valid() && partitions == old(partitions) && owner == old(owner) && nextId == old(nextId)
      ensures ok == Accepts(cfg.dim, v)
      ensures contents == if ok then old(contents)[key := Upsert(old(contents)[key], cfg.dim, id, query, response, now,
                                                                 expires, v)]
                          else old(contents)
    {
      var p := partitions[key];
      assert Holds(key, p);
      ok := p.Refresh(cfg.dim, id, query, response, now, expires, v);
      Untouched(key);
      Note(key);
      assert !ok ==> contents == old(contents);
    }

    /** Install an entry, unless the index refuses the vector. */
    method InstallAt(key: Ops.Key, id: Id, e: Entry, v: Vector) returns (ok: bool, ghost q: Part)
      requires Valid() && key in partitions
      modifies `contents, At(key)
      ensures Valid() && partitions == old(partitions) && owner == old(owner) && nextId == old(nextId)
      ensures ok == Accepts(cfg.dim, v)
      ensures ok ==> q == Insert(old(contents)[key], cfg, id, e, v) && contents == old(contents)[key := q]
      ensures !ok ==> contents == old(contents)
    {
      var p := partitions[key];
      assert Holds(key, p);
      ok := p.Install(cfg, id, e, v);
      q := p.Abs();
      Untouched(key);
      Note(key);
      assert !ok ==> contents == old(contents);
    }

    /** The part of `store` after policy, TTL and partition. */
    method Admit(key: Ops.Key, query: string, response: string, v: Vector, now: real, expires: Option<real>)
      returns (r: Ops.StoreResult)
      requires Valid() && key in partitions
      modifies `owner, `nextId, `contents, At(key)
      ensures Valid() && partitions == old(partitions)
      ensures (Abs(), r) == Ops.Admitted(old(Abs()), cfg, key, query, response, v, now, expires)
    {
      var p := partitions[key];
      Fields(key);
      var h := cfg.hash(query);
      if h in p.exact && p.exact[h] in p.entries {
        var id := p.exact[h];
        var ok := RefreshAt(key, id, query, response, now, expires, v);
        Ops.AdmittedAgain(old(Abs()), cfg, key, query, response, v, now, expires, id);
        return if ok then Ops.Stored(id) else Ops.Invalid;
      }
      r := StoreFresh(key, Entry(query, h, response, now, expires, 0, 0), v);
      Ops.AdmittedFresh(old(Abs()), cfg, key, query, response, v, now, expires);
    }

    method TakeId(key: Ops.Key) returns (id: Id)
      requires Valid()
      modifies `nextId
      ensures Valid() && partitions == old(partitions) && contents == old(contents) && owner == old(owner)
      ensures id == Id(key.tenant, old(nextId)) && nextId == old(nextId) + 1
    {
      id := Id(key.tenant, nextId);
      nextId := nextId + 1;
    }

    /** The new id gets an owner, and ids that made room for it lose theirs. */
    method Enrol(key: Ops.Key, id: Id, was: set<Id>, ghost before: Ops.Cache, ghost q: Part)
      requires Valid() && key in partitions && key in before.parts
      requires contents == before.parts[key := q] && owner == before.owner && nextId == before.nextId + 1
      requires was == before.parts[key].entries.Keys && id == Id(key.tenant, before.nextId)
      modifies `owner
      ensures Valid() && partitions == old(partitions) && Abs() == Ops.Enrolled(before, key, q)
    {
      Disown(key, was, before, q);
      owner := owner[id := key];
    }

    /** The next id is used up even if the index then refuses the vector. */
    method StoreFresh(key: Ops.Key, e: Entry, v: Vector) returns (r: Ops.StoreResult)
      requires Valid() && key in partitions
      modifies `owner, `nextId, `contents, At(key)
      ensures Valid() && partitions == old(partitions)
      ensures r == if Accepts(cfg.dim, v) then Ops.Stored(Id(key.tenant, old(nextId))) else Ops.Invalid
      ensures Abs() == if Accepts(cfg.dim, v) then Ops.StoreNew(old(Abs()), cfg, key, e, v)
                       else old(Abs()).(nextId := old(nextId) + 1)
    {
      var was := LiveIds(key);
      var id := TakeId(key);
      var ok;
      ghost var q;
      ok, q := InstallAt(key, id, e, v);
      if !ok {
        return Ops.Invalid;
      }
      Enrol(key, id, was, old(Abs()), q);
      return Ops.Stored(id);
    }

    /** `store` on the values of the cache. */
    method Put(allowed: bool, key: Ops.Key, query: string, response: string, v: Vector, now: real, ttl: Lru.Ttl)
      returns (r: Ops.StoreResult)
      requires Valid()
      modifies this, At(key)
      ensures Valid()
      ensures (Abs(), r) == Ops.Store(old(Abs()), cfg, allowed, key, query, response, v, now, ttl, defaultTtl)
    {
      if !allowed {
        return Ops.NotCacheable;
      }
      var effective := Lru.EffectiveTtl(ttl, defaultTtl);
      if effective.None? {
        return Ops.Invalid;
      }
      MakePartition(key);
      r := Admit(key, query, response, v, now, Lru.Deadline(effective.value, now));
    }

    /** `store`; `allowed` is what the cacheability policy says. */
    method Store(allowed: bool, key: Ops.Key, query: string, response: string, v: Vector, now: real, ttl: Lru.Ttl)
      returns (r: Ops.StoreResult)
      requires Valid() && Ops.Ok(Abs(), cfg) && cfg.capacity >= 1
      modifies this, At(key)
      ensures Valid() && Ops.Ok(Abs(), cfg)
      ensures (Abs(), r) == Ops.Store(old(Abs()), cfg, allowed, key, query, response, v, now, ttl, defaultTtl)
    {
      Ops.StoreOk(Abs(), cfg, allowed, key, query, response, v, now, ttl, defaultTtl);
      r := Put(allowed, key, query, response, v, now, ttl);
    }
  }
}
