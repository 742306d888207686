/**
 The semantic cache as a value: partitions by key, and the owner map from entry ids to partitions.
 */
module CacheOperations {
  import opened Wrappers
  import Lru
  import opened VectorIndex
  import opened Partitions
  import opened PartitionLookup

  /** Tenant, model, system prompt hash, parameter hash and embedder model. */
  datatype Key = Key(tenant: string, model: string, prompt: string, params: string, embedder: string)

  datatype Cache = Cache(parts: map<Key, Part>, owner: map<Id, Key>, nextId: nat)

  const INIT := Cache(map[], map[], 1)

  datatype StoreResult = Stored(id: Id) | NotCacheable | Invalid

  function PartAt(c: Cache, key: Key): Part {
    if key in c.parts then c.parts[key] else NO_PART
  }

  /** A partition changed: ids that left it leave the owner map. */
  function Shrunk(c: Cache, key: Key, q: Part): Cache {
    c.(parts := c.parts[key := q], owner := c.owner - (PartAt(c, key).entries.Keys - q.entries.Keys))
  }

  /** `lookup` in serve mode; `allowed` is what the cacheability policy says. */
  function Lookup(c: Cache, cfg: Config, allowed: bool, key: Key, query: string, now: real, v: Vector,
                  cands: seq<Candidate>): (Cache, Outcome)
  {
    if !allowed then (c, Miss("not_cacheable", None))
    else if key !in c.parts then (c, Miss("empty_partition", None))
    else
      var r := LookupIn(c.parts[key], cfg, query, now, v, cands);
      (Shrunk(c, key, r.0), r.1)
  }

  /** The id under which a query is stored already. */
  function ExistingId(p: Part, h: string): Option<Id> {
    if h in p.exact && p.exact[h] in p.entries then Some(p.exact[h]) else None
  }

  /** A partition took in an entry under the next id. */
  function Enrolled(c: Cache, key: Key, q: Part): Cache {
    var shrunk := Shrunk(c, key, q);
    shrunk.(owner := shrunk.owner[Id(key.tenant, c.nextId) := key], nextId := c.nextId + 1)
  }

  /** Install a new entry under the next id. */
  function StoreNew(c: Cache, cfg: Config, key: Key, e: Entry, v: Vector): Cache
    requires key in c.parts && Accepts(cfg.dim, v)
  {
    Enrolled(c, key, Insert(c.parts[key], cfg, Id(key.tenant, c.nextId), e, v))
  }

  /** The part of `store` after policy, TTL and partition. */
  function Admitted(made: Cache, cfg: Config, key: Key, query: string, response: string, v: Vector,
                    now: real, expires: Option<real>): (Cache, StoreResult)
    requires key in made.parts
  {
    var p := made.parts[key];
    var h := cfg.hash(query);
    match ExistingId(p, h)
    case Some(id) =>
      if !Accepts(cfg.dim, v) then (made, Invalid)
      else (made.(parts := made.parts[key := Upsert(p, cfg.dim, id, query, response, now, expires, v)]), Stored(id))
    case None =>
      if !Accepts(cfg.dim, v) then (made.(nextId := made.nextId + 1), Invalid)
      else (StoreNew(made, cfg, key, Entry(query, h, response, now, expires, 0, 0), v),
            Stored(Id(key.tenant, made.nextId)))
  }

  /** What a lookup changes, once the partition is `q`. */
  lemma ShrunkParts(c: Cache, key: Key, q: Part, parts: map<Key, Part>, owner: map<Id, Key>)
    requires key in c.parts && parts == c.parts[key := q]
    requires owner == c.owner - (c.parts[key].entries.Keys - q.entries.Keys)
    ensures Cache(parts, owner, c.nextId) == Shrunk(c, key, q)
  {
  }

  lemma AdmittedAgain(made: Cache, cfg: Config, key: Key, query: string, response: string, v: Vector,
                      now: real, expires: Option<real>, id: Id)
    requires key in made.parts && ExistingId(made.parts[key], cfg.hash(query)) == Some(id)
    ensures Admitted(made, cfg, key, query, response, v, now, expires)
         == if !Accepts(cfg.dim, v) then (made, Invalid)
            else
              var q := Upsert(made.parts[key], cfg.dim, id, query, response, now, expires, v);
              (made.(parts := made.parts[key := q]), Stored(id))
  {
  }

  lemma AdmittedFresh(made: Cache, cfg: Config, key: Key, query: string, response: string, v: Vector,
                      now: real, expires: Option<real>)
    requires key in made.parts && ExistingId(made.parts[key], cfg.hash(query)).None?
    ensures Admitted(made, cfg, key, query, response, v, now, expires)
         == if !Accepts(cfg.dim, v) then (made.(nextId := made.nextId + 1), Invalid)
            else (StoreNew(made, cfg, key, Entry(query, cfg.hash(query), response, now, expires, 0, 0), v),
                  Stored(Id(key.tenant, made.nextId)))
  {
  }

  /** What removing changes, once the entry left the partition. */
  lemma RemovedParts(c: Cache, key: Key, id: Id, parts: map<Key, Part>, owner: map<Id, Key>)
    requires key in c.parts && parts == c.parts[key := RemoveEntry(c.parts[key], id)] && owner == c.owner - {id}
    ensures Cache(parts, owner, c.nextId) == RemoveAt(c, key, id)
  {
  }

  /** `store`; the policy refuses, or the source raises, or an entry is refreshed or installed. */
  function Store(c: Cache, cfg: Config, allowed: bool, key: Key, query: string, response: string, v: Vector,
                 now: real, ttl: Lru.Ttl, defaultTtl: Option<real>): (Cache, StoreResult)
  {
    var effective := Lru.EffectiveTtl(ttl, defaultTtl);
    if !allowed then (c, NotCacheable)
    else if effective.None? then (c, Invalid)
    else
      var made := c.(parts := c.parts[key := PartAt(c, key)]);
      Admitted(made, cfg, key, query, response, v, now, Lru.Deadline(effective.value, now))
  }

  /** Remove an entry from the partition that owns it. */
  function RemoveAt(c: Cache, key: Key, id: Id): Cache {
    var q := RemoveEntry(PartAt(c, key), id);
    c.(parts := c.parts[key := q], owner := c.owner - {id})
  }

  function Invalidate(c: Cache, id: Id): (Cache, bool) {
    if id !in c.owner then (c, false)
    else (RemoveAt(c, c.owner[id], id), id in PartAt(c, c.owner[id]).entries)
  }

  /** Bad feedback evicts at once. */
  function Feedback(c: Cache, id: Id, good: bool): Cache {
    if id !in c.owner || id !in PartAt(c, c.owner[id]).entries then c
    else
      var key := c.owner[id];
      var p := PartAt(c, key);
      if good then
        c.(parts := c.parts[key := Praise(p, id)])
      else RemoveAt(c, key, id)
  }

  // ----- what every operation keeps -----

  predicate OwnerOk(c: Cache, id: Id)
    requires id in c.owner
  {
    c.owner[id] in c.parts && id in c.parts[c.owner[id]].entries && id.n < c.nextId
  }

  predicate OwnedAll(c: Cache, key: Key)
    requires key in c.parts
  {
    forall id | id in c.parts[key].entries :: id in c.owner && c.owner[id] == key
  }

  /** The owner map is the exact inverse of the partitions. */
  predicate Owned(c: Cache) {
    (forall key | key in c.parts :: OwnedAll(c, key)) && forall id | id in c.owner :: OwnerOk(c, id)
  }

  ghost predicate AllCoherent(parts: map<Key, Part>, cfg: Config) {
    forall key | key in parts :: Coherent(parts[key], cfg)
  }

  /** All partitions coherent and exactly owned. */
  ghost predicate Ok(c: Cache, cfg: Config) {
    AllCoherent(c.parts, cfg) && Owned(c)
  }

  lemma NoPartIsCoherent(cfg: Config)
    ensures Coherent(NO_PART, cfg)
  {
  }

  lemma CoherentUpdate(parts: map<Key, Part>, cfg: Config, key: Key, q: Part)
    requires AllCoherent(parts, cfg) && Coherent(q, cfg)
    ensures AllCoherent(parts[key := q], cfg)
  {
  }

  function OwnedBy(ids: set<Id>, key: Key): map<Id, Key> {
    map id | id in ids :: key
  }

  /** A partition takes the place of another (or of none); ids that left are disowned, a new one is owned. */
  lemma OwnedUpdate(c: Cache, key: Key, q: Part, added: set<Id>, next: nat)
    requires Owned(c) && q.entries.Keys <= PartAt(c, key).entries.Keys + added && added <= q.entries.Keys
    requires next >= c.nextId && forall id | id in added :: id !in c.owner && id.n < next
    ensures var gone := PartAt(c, key).entries.Keys - q.entries.Keys;
      Owned(Cache(c.parts[key := q], (c.owner - gone) + OwnedBy(added, key), next))
  {
    var gone := PartAt(c, key).entries.Keys - q.entries.Keys;
    var d := Cache(c.parts[key := q], (c.owner - gone) + OwnedBy(added, key), next);
    assert key in c.parts ==> OwnedAll(c, key);
    forall k | k in d.parts ensures OwnedAll(d, k) {
      assert k in c.parts ==> OwnedAll(c, k);
    }
    OwnersUpdate(c, key, q, added, next, d);
  }

  lemma OwnersUpdate(c: Cache, key: Key, q: Part, added: set<Id>, next: nat, d: Cache)
    requires Owned(c) && added <= q.entries.Keys && next >= c.nextId && forall id | id in added :: id.n < next
    requires d == Cache(c.parts[key := q],
                        (c.owner - (PartAt(c, key).entries.Keys - q.entries.Keys)) + OwnedBy(added, key), next)
    ensures forall id | id in d.owner :: OwnerOk(d, id)
  {
    assert key in c.parts ==> OwnedAll(c, key);
    forall id | id in d.owner ensures OwnerOk(d, id) {
      assert id in c.owner ==> OwnerOk(c, id);
    }
  }

  /** The same, when nothing is added. */
  lemma OwnedShrink(c: Cache, key: Key, q: Part)
    requires Owned(c) && q.entries.Keys <= PartAt(c, key).entries.Keys
    ensures Owned(Shrunk(c, key, q))
  {
    OwnedUpdate(c, key, q, {}, c.nextId);
    var gone := PartAt(c, key).entries.Keys - q.entries.Keys;
    assert (c.owner - gone) + OwnedBy({}, key) == c.owner - gone;
  }

  /** Creating an empty partition is harmless. */
  lemma MadeOk(c: Cache, cfg: Config, key: Key)
    requires Ok(c, cfg)
    ensures Ok(c.(parts := c.parts[key := PartAt(c, key)]), cfg)
  {
    NoPartIsCoherent(cfg);
    CoherentUpdate(c.parts, cfg, key, PartAt(c, key));
    OwnedShrink(c, key, PartAt(c, key));
    Unshrunk(c, key, PartAt(c, key));
  }

  lemma Unshrunk(c: Cache, key: Key, q: Part)
    requires q.entries.Keys == PartAt(c, key).entries.Keys
    ensures Shrunk(c, key, q) == c.(parts := c.parts[key := q])
  {
    assert PartAt(c, key).entries.Keys - q.entries.Keys == {};
    assert c.owner - {} == c.owner;
  }

  /** A coherent partition with no new entries takes the place of the old one. */
  lemma ShrunkOk(c: Cache, cfg: Config, key: Key, q: Part)
    requires Ok(c, cfg) && Coherent(q, cfg) && q.entries.Keys <= PartAt(c, key).entries.Keys
    ensures Ok(Shrunk(c, key, q), cfg)
  {
    CoherentUpdate(c.parts, cfg, key, q);
    OwnedShrink(c, key, q);
  }

  lemma LookupOk(c: Cache, cfg: Config, allowed: bool, key: Key, query: string, now: real, v: Vector,
                 cands: seq<Candidate>)
    requires Ok(c, cfg)
    ensures Ok(Lookup(c, cfg, allowed, key, query, now, v, cands).0, cfg)
  {
    if allowed && key in c.parts {
      var p := c.parts[key];
      LookupKeepsCoherent(p, cfg, query, now, v, cands);
      LookupKeepsLive(p, cfg, query, now, v, cands);
      ShrunkOk(c, cfg, key, LookupIn(p, cfg, query, now, v, cands).0);
    }
  }

  /** The next id belongs to nobody. */
  lemma NextIdIsNew(c: Cache, cfg: Config, key: Key)
    requires Ok(c, cfg) && key in c.parts
    ensures Id(key.tenant, c.nextId) !in c.parts[key].entries && Id(key.tenant, c.nextId) !in c.owner
  {
    var id := Id(key.tenant, c.nextId);
    assert OwnedAll(c, key);
    assert id in c.owner ==> OwnerOk(c, id);
  }

  lemma InsertKeys(p: Part, cfg: Config, id: Id, e: Entry, v: Vector)
    requires Coherent(p, cfg) && cfg.capacity >= 1 && Accepts(cfg.dim, v)
    ensures Insert(p, cfg, id, e, v).entries.Keys <= p.entries.Keys + {id}
    ensures id in Insert(p, cfg, id, e, v).entries
  {
    RoomIsMade(p, cfg);
  }

  lemma StoreNewOk(c: Cache, cfg: Config, key: Key, e: Entry, v: Vector)
    requires Ok(c, cfg) && key in c.parts && Accepts(cfg.dim, v) && cfg.capacity >= 1
    requires ExistingId(c.parts[key], e.hash).None?
    ensures Ok(StoreNew(c, cfg, key, e, v), cfg)
  {
    var id := Id(key.tenant, c.nextId);
    var p := c.parts[key];
    NextIdIsNew(c, cfg, key);
    NotExisting(p, cfg, e.hash);
    InsertKeepsCoherent(p, cfg, id, e, v);
    InsertKeys(p, cfg, id, e, v);
    CoherentUpdate(c.parts, cfg, key, Insert(p, cfg, id, e, v));
    OwnedInstall(c, key, id, Insert(p, cfg, id, e, v));
  }

  lemma OwnedInstall(c: Cache, key: Key, id: Id, q: Part)
    requires Owned(c) && id == Id(key.tenant, c.nextId) && id !in c.owner
    requires id in q.entries && q.entries.Keys <= PartAt(c, key).entries.Keys + {id}
    ensures Owned(Cache(c.parts[key := q], (c.owner - (PartAt(c, key).entries.Keys - q.entries.Keys))[id := key],
                        c.nextId + 1))
  {
    OwnedUpdate(c, key, q, {id}, c.nextId + 1);
    var left := c.owner - (PartAt(c, key).entries.Keys - q.entries.Keys);
    assert left + OwnedBy({id}, key) == left[id := key];
  }

  lemma SameKeysOk(c: Cache, cfg: Config, key: Key, q: Part)
    requires Ok(c, cfg) && Coherent(q, cfg) && q.entries.Keys == PartAt(c, key).entries.Keys
    ensures Ok(c.(parts := c.parts[key := q]), cfg)
  {
    ShrunkOk(c, cfg, key, q);
    Unshrunk(c, key, q);
  }

  lemma NextIdOk(c: Cache, cfg: Config)
    requires Ok(c, cfg)
    ensures Ok(c.(nextId := c.nextId + 1), cfg)
  {
    var d := c.(nextId := c.nextId + 1);
    forall k | k in d.parts ensures OwnedAll(d, k) {
      assert OwnedAll(c, k);
    }
    forall id | id in d.owner ensures OwnerOk(d, id) {
      assert OwnerOk(c, id);
    }
  }

  lemma UpsertKeys(p: Part, dim: nat, id: Id, query: string, response: string, now: real, expires: Option<real>,
                   v: Vector)
    requires id in p.entries && Accepts(dim, v)
    ensures Upsert(p, dim, id, query, response, now, expires, v).entries.Keys == p.entries.Keys
  {
  }

  lemma RefreshOk(c: Cache, cfg: Config, key: Key, id: Id, query: string, response: string, now: real,
                  expires: Option<real>, v: Vector)
    requires Ok(c, cfg) && id in PartAt(c, key).entries && Accepts(cfg.dim, v)
    ensures Ok(c.(parts := c.parts[key := Upsert(PartAt(c, key), cfg.dim, id, query, response, now, expires, v)]), cfg)
  {
    var p := PartAt(c, key);
    NoPartIsCoherent(cfg);
    UpsertKeepsCoherent(p, cfg, id, query, response, now, expires, v);
    UpsertKeys(p, cfg.dim, id, query, response, now, expires, v);
    SameKeysOk(c, cfg, key, Upsert(p, cfg.dim, id, query, response, now, expires, v));
  }

  /** In a coherent partition a hash without a live id is not in the exact-match map at all. */
  lemma NotExisting(p: Part, cfg: Config, h: string)
    requires Coherent(p, cfg) && ExistingId(p, h).None?
    ensures h !in p.exact
  {
  }

  /** Storing keeps every partition coherent and the owner map exact. */
  lemma StoreOk(c: Cache, cfg: Config, allowed: bool, key: Key, query: string, response: string, v: Vector,
                now: real, ttl: Lru.Ttl, defaultTtl: Option<real>)
    requires Ok(c, cfg) && cfg.capacity >= 1
    ensures Ok(Store(c, cfg, allowed, key, query, response, v, now, ttl, defaultTtl).0, cfg)
  {
    var effective := Lru.EffectiveTtl(ttl, defaultTtl);
    if allowed && effective.Some? {
      MadeOk(c, cfg, key);
      AdmittedOk(c.(parts := c.parts[key := PartAt(c, key)]), cfg, key, query, response, v, now,
                 Lru.Deadline(effective.value, now));
    }
  }

  lemma AdmittedOk(made: Cache, cfg: Config, key: Key, query: string, response: string, v: Vector,
                   now: real, expires: Option<real>)
    requires Ok(made, cfg) && key in made.parts && cfg.capacity >= 1
    ensures Ok(Admitted(made, cfg, key, query, response, v, now, expires).0, cfg)
  {
    var existing := ExistingId(made.parts[key], cfg.hash(query));
    if existing.Some? {
      RefreshedOk(made, cfg, key, query, response, v, now, expires);
    } else if Accepts(cfg.dim, v) {
      StoreNewOk(made, cfg, key, Entry(query, cfg.hash(query), response, now, expires, 0, 0), v);
    } else {
      NextIdOk(made, cfg);
    }
  }

  lemma RefreshedOk(made: Cache, cfg: Config, key: Key, query: string, response: string, v: Vector,
                    now: real, expires: Option<real>)
    requires Ok(made, cfg) && key in made.parts && ExistingId(made.parts[key], cfg.hash(query)).Some?
    ensures Ok(Admitted(made, cfg, key, query, response, v, now, expires).0, cfg)
  {
    if Accepts(cfg.dim, v) {
      RefreshOk(made, cfg, key, ExistingId(made.parts[key], cfg.hash(query)).value, query, response, now, expires, v);
    }
  }

  lemma RemoveAtShrinks(c: Cache, key: Key, id: Id)
    requires id in PartAt(c, key).entries
    ensures RemoveAt(c, key, id) == Shrunk(c, key, RemoveEntry(PartAt(c, key), id))
  {
    var p := PartAt(c, key);
    assert p.entries.Keys - (p.entries - {id}).Keys == {id};
  }

  lemma RemoveAtOk(c: Cache, cfg: Config, key: Key, id: Id)
    requires Ok(c, cfg) && key in c.parts && id in c.parts[key].entries
    ensures Ok(RemoveAt(c, key, id), cfg)
  {
    RemoveAtShrinks(c, key, id);
    RemoveKeepsCoherent(c.parts[key], cfg, id);
    ShrunkOk(c, cfg, key, RemoveEntry(c.parts[key], id));
  }

  lemma InvalidateOk(c: Cache, cfg: Config, id: Id)
    requires Ok(c, cfg)
    ensures Ok(Invalidate(c, id).0, cfg) && Invalidate(c, id).1 == (id in c.owner)
  {
    if id in c.owner {
      assert OwnerOk(c, id);
      RemoveAtOk(c, cfg, c.owner[id], id);
    }
  }

  lemma PraiseKeeps(p: Part, cfg: Config, id: Id)
    requires Coherent(p, cfg) && id in p.entries
    ensures Coherent(Praise(p, id), cfg) && Praise(p, id).entries.Keys == p.entries.Keys
  {
    var q := Praise(p, id);
    assert q.entries.Keys == p.entries.Keys;
    assert |q.entries| == |q.entries.Keys| == |p.entries|;
  }

  lemma PraiseOk(c: Cache, cfg: Config, key: Key, id: Id)
    requires Ok(c, cfg) && key in c.parts && id in c.parts[key].entries
    ensures Ok(c.(parts := c.parts[key := Praise(c.parts[key], id)]), cfg)
  {
    PraiseKeeps(c.parts[key], cfg, id);
    SameKeysOk(c, cfg, key, Praise(c.parts[key], id));
  }

  lemma FeedbackOk(c: Cache, cfg: Config, id: Id, good: bool)
    requires Ok(c, cfg)
    ensures Ok(Feedback(c, id, good), cfg)
  {
    if id in c.owner {
      assert OwnerOk(c, id);
      var key := c.owner[id];
      var p := c.parts[key];
      if good {
        PraiseOk(c, cfg, key, id);
      } else {
        RemoveAtOk(c, cfg, key, id);
      }
    }
  }
}
