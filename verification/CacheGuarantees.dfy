/**
 The semantic cache over whole runs: agreement of its structures, isolation of partitions, exact round
 trips, and the one way a live answer is missed.
 */
module CacheGuarantees {
  import opened Wrappers
  import Lru
  import opened VectorIndex
  import opened Partitions
  import opened PartitionLookup
  import opened CacheOperations

  datatype Step =
    | StoreStep(allowed: bool, key: Key, query: string, response: string, v: Vector, now: real, ttl: Lru.Ttl)
    | LookupStep(allowed: bool, key: Key, query: string, now: real, v: Vector, cands: seq<Candidate>)
    | InvalidateStep(id: Id)
    | FeedbackStep(id: Id, good: bool)

  function Next(c: Cache, cfg: Config, defaultTtl: Option<real>, step: Step): Cache {
    match step
    case StoreStep(allowed, key, query, response, v, now, ttl) =>
      Store(c, cfg, allowed, key, query, response, v, now, ttl, defaultTtl).0
    case LookupStep(allowed, key, query, now, v, cands) => Lookup(c, cfg, allowed, key, query, now, v, cands).0
    case InvalidateStep(id) => Invalidate(c, id).0
    case FeedbackStep(id, good) => Feedback(c, id, good)
  }

  function Run(cfg: Config, defaultTtl: Option<real>, steps: seq<Step>): Cache {
    if steps == [] then INIT
    else Next(Run(cfg, defaultTtl, steps[..|steps| - 1]), cfg, defaultTtl, steps[|steps| - 1])
  }

  lemma NextOk(c: Cache, cfg: Config, defaultTtl: Option<real>, step: Step)
    requires Ok(c, cfg) && cfg.capacity >= 1
    ensures Ok(Next(c, cfg, defaultTtl, step), cfg)
  {
    match step
    case StoreStep(allowed, key, query, response, v, now, ttl) =>
      StoreOk(c, cfg, allowed, key, query, response, v, now, ttl, defaultTtl);
    case LookupStep(allowed, key, query, now, v, cands) => LookupOk(c, cfg, allowed, key, query, now, v, cands);
    case InvalidateStep(id) => InvalidateOk(c, cfg, id);
    case FeedbackStep(id, good) => FeedbackOk(c, cfg, id, good);
  }

  /**
   After any run, in every partition the entries, the recency order, the exact-match map and the index rows
   hold exactly the same entries, within capacity, and the owner map is the inverse of the partitions.
   */
  lemma {:induction false} RunStaysCoherent(cfg: Config, defaultTtl: Option<real>, steps: seq<Step>)
    requires cfg.capacity >= 1
    ensures Ok(Run(cfg, defaultTtl, steps), cfg)
  {
    if steps != [] {
      RunStaysCoherent(cfg, defaultTtl, steps[..|steps| - 1]);
      NextOk(Run(cfg, defaultTtl, steps[..|steps| - 1]), cfg, defaultTtl, steps[|steps| - 1]);
    }
  }

  /** No entry is ever in two partitions, and a hit comes from the partition that was asked. */
  lemma PartitionsAreIsolated(cfg: Config, defaultTtl: Option<real>, steps: seq<Step>, key: Key, query: string,
                              now: real, v: Vector, cands: seq<Candidate>)
    requires cfg.capacity >= 1
    requires var c := Run(cfg, defaultTtl, steps);
      && Lookup(c, cfg, true, key, query, now, v, cands).1.Hit?
      && Searched(PartAt(c, key), cfg, query, now, v, cands)
    ensures var c := Run(cfg, defaultTtl, steps);
      var hit := Lookup(c, cfg, true, key, query, now, v, cands).1;
      && hit.id in c.owner && c.owner[hit.id] == key
      && forall other | other in c.parts && other != key :: hit.id !in c.parts[other].entries
  {
    RunStaysCoherent(cfg, defaultTtl, steps);
    var c := Run(cfg, defaultTtl, steps);
    HitIsSound(c.parts[key], cfg, query, now, v, cands);
    assert OwnedAll(c, key);
    forall other | other in c.parts && other != key
      ensures Lookup(c, cfg, true, key, query, now, v, cands).1.id !in c.parts[other].entries
    {
      assert OwnedAll(c, other);
    }
  }

  /** The partition answers the query exactly, with this response. */
  predicate Serves(p: Part, cfg: Config, query: string, id: Id, response: string, expires: Option<real>) {
    && cfg.hash(query) in p.exact && p.exact[cfg.hash(query)] == id && id in p.entries
    && p.entries[id].query == query && p.entries[id].response == response && p.entries[id].expires == expires
  }

  lemma ServedExactly(p: Part, cfg: Config, query: string, id: Id, response: string, expires: Option<real>,
                      later: real, w: Vector, cands: seq<Candidate>)
    requires Serves(p, cfg, query, id, response, expires) && !Lru.IsExpired(expires, later)
    ensures LookupIn(p, cfg, query, later, w, cands).1 == Hit(id, response, 1.0, query, "exact")
  {
    assert p.entries != map[];
  }

  lemma AdmittedServes(made: Cache, cfg: Config, key: Key, query: string, response: string, v: Vector,
                       now: real, expires: Option<real>)
    requires key in made.parts && Admitted(made, cfg, key, query, response, v, now, expires).1.Stored?
    ensures var r := Admitted(made, cfg, key, query, response, v, now, expires);
      key in r.0.parts && Serves(r.0.parts[key], cfg, query, r.1.id, response, expires)
  {
  }

  lemma StoreServes(c: Cache, cfg: Config, key: Key, query: string, response: string, v: Vector, now: real,
                    ttl: Lru.Ttl, defaultTtl: Option<real>)
    requires Store(c, cfg, true, key, query, response, v, now, ttl, defaultTtl).1.Stored?
    ensures var s := Store(c, cfg, true, key, query, response, v, now, ttl, defaultTtl);
      && key in s.0.parts && Lru.EffectiveTtl(ttl, defaultTtl).Some?
      && Serves(s.0.parts[key], cfg, query, s.1.id, response,
                Lru.Deadline(Lru.EffectiveTtl(ttl, defaultTtl).value, now))
  {
    var expires := Lru.Deadline(Lru.EffectiveTtl(ttl, defaultTtl).value, now);
    var made := c.(parts := c.parts[key := PartAt(c, key)]);
    AdmittedServes(made, cfg, key, query, response, v, now, expires);
    var r := Admitted(made, cfg, key, query, response, v, now, expires);
    assert Store(c, cfg, true, key, query, response, v, now, ttl, defaultTtl) == r;
  }

  // ----- an entry that is left alone keeps its answer -----

  /** Two versions of an entry that give the same answer. */
  predicate SameAnswer(e: Entry, f: Entry) {
    e.query == f.query && e.hash == f.hash && e.response == f.response && e.expires == f.expires
  }

  predicate Keeps(c: Cache, d: Cache, key: Key, id: Id) {
    id in PartAt(c, key).entries ==>
      id in PartAt(d, key).entries && SameAnswer(PartAt(c, key).entries[id], PartAt(d, key).entries[id])
  }

  /** The store is let through by the policy, and neither its TTL nor its vector makes it raise. */
  predicate TakesIn(cfg: Config, defaultTtl: Option<real>, step: Step)
    requires step.StoreStep?
  {
    step.allowed && Lru.EffectiveTtl(step.ttl, defaultTtl).Some? && Accepts(cfg.dim, step.v)
  }

  /** The store puts a new entry into a full partition whose least recently used entry is `id`. */
  predicate Evicts(p: Part, cfg: Config, query: string, id: Id) {
    ExistingId(p, cfg.hash(query)).None? && |p.entries| >= cfg.capacity && p.order != [] && p.order[0] == id
  }

  /** The step neither overwrites nor evicts the entry, nor finds it expired, invalidates it or hears that
      it was bad. */
  predicate Spares(c: Cache, cfg: Config, defaultTtl: Option<real>, key: Key, id: Id, step: Step) {
    var p := PartAt(c, key);
    id in p.entries ==>
      match step
      case StoreStep(_, at, query, _, _, _, _) =>
        at == key && TakesIn(cfg, defaultTtl, step) ==>
          cfg.hash(query) != p.entries[id].hash && !Evicts(p, cfg, query, id)
      case LookupStep(allowed, at, _, now, _, _) => allowed && at == key ==> Live(p.entries[id], now)
      case InvalidateStep(other) => other != id
      case FeedbackStep(other, good) => other != id || good
  }

  lemma RemovalSpares(c: Cache, at: Key, other: Id, key: Key, id: Id)
    requires other != id
    ensures Keeps(c, RemoveAt(c, at, other), key, id)
  {
  }

  lemma InvalidateSpares(c: Cache, other: Id, key: Key, id: Id)
    requires other != id
    ensures Keeps(c, Invalidate(c, other).0, key, id)
  {
    if other in c.owner {
      RemovalSpares(c, c.owner[other], other, key, id);
    }
  }

  lemma FeedbackSpares(c: Cache, other: Id, good: bool, key: Key, id: Id)
    requires other != id || good
    ensures Keeps(c, Feedback(c, other, good), key, id)
  {
    if other in c.owner && !good {
      RemovalSpares(c, c.owner[other], other, key, id);
    }
  }

  lemma LookupSpares(c: Cache, cfg: Config, allowed: bool, at: Key, query: string, now: real, v: Vector,
                     cands: seq<Candidate>, key: Key, id: Id)
    requires allowed && at == key && id in PartAt(c, key).entries ==> Live(PartAt(c, key).entries[id], now)
    ensures Keeps(c, Lookup(c, cfg, allowed, at, query, now, v, cands).0, key, id)
  {
    if allowed && at in c.parts {
      LookupKeepsLive(c.parts[at], cfg, query, now, v, cands);
    }
  }

  /** A refresh touches the entry of its own query only. */
  lemma RefreshSpares(p: Part, cfg: Config, id: Id, other: Id, query: string, response: string, now: real,
                      expires: Option<real>, v: Vector)
    requires Coherent(p, cfg) && id in p.entries && Accepts(cfg.dim, v)
    requires ExistingId(p, cfg.hash(query)) == Some(other) && cfg.hash(query) != p.entries[id].hash
    ensures Upsert(p, cfg.dim, other, query, response, now, expires, v).entries[id] == p.entries[id]
  {
  }

  lemma InsertSpares(p: Part, cfg: Config, id: Id, other: Id, e: Entry, v: Vector)
    requires id in p.entries && other != id && Accepts(cfg.dim, v)
    requires !(|p.entries| >= cfg.capacity && p.order != [] && p.order[0] == id)
    ensures id in Insert(p, cfg, other, e, v).entries && Insert(p, cfg, other, e, v).entries[id] == p.entries[id]
  {
  }

  /** A store into another partition, or of a vector that is refused, leaves the partition as it was. */
  lemma AdmittedElsewhere(made: Cache, cfg: Config, at: Key, query: string, response: string, v: Vector,
                          now: real, expires: Option<real>, key: Key)
    requires at in made.parts && (at != key || !Accepts(cfg.dim, v))
    ensures PartAt(Admitted(made, cfg, at, query, response, v, now, expires).0, key) == PartAt(made, key)
  {
  }

  /** A store under another hash keeps the entry, unless it evicts it to make room. */
  lemma AdmittedSpares(made: Cache, cfg: Config, key: Key, query: string, response: string, v: Vector,
                       now: real, expires: Option<real>, id: Id)
    requires key in made.parts && Coherent(made.parts[key], cfg) && id in made.parts[key].entries
    requires Accepts(cfg.dim, v) && Id(key.tenant, made.nextId) != id
    requires cfg.hash(query) != made.parts[key].entries[id].hash && !Evicts(made.parts[key], cfg, query, id)
    ensures Keeps(made, Admitted(made, cfg, key, query, response, v, now, expires).0, key, id)
  {
    var p, h := made.parts[key], cfg.hash(query);
    match ExistingId(p, h)
    case Some(other) => RefreshSpares(p, cfg, id, other, query, response, now, expires, v);
    case None =>
      InsertSpares(p, cfg, id, Id(key.tenant, made.nextId), Entry(query, h, response, now, expires, 0, 0), v);
  }

  /** Creating the partition first changes nothing that is in it. */
  lemma MadeKeeps(c: Cache, at: Key, d: Cache, key: Key, id: Id)
    requires Keeps(c.(parts := c.parts[at := PartAt(c, at)]), d, key, id)
    ensures Keeps(c, d, key, id)
  {
  }

  lemma StoreSpares(c: Cache, cfg: Config, defaultTtl: Option<real>, step: Step, made: Cache, key: Key, id: Id)
    requires Ok(c, cfg) && step.StoreStep? && Spares(c, cfg, defaultTtl, key, id, step)
    requires step.allowed && Lru.EffectiveTtl(step.ttl, defaultTtl).Some?
    requires id in PartAt(c, key).entries && made == c.(parts := c.parts[step.key := PartAt(c, step.key)])
    ensures var expires := Lru.Deadline(Lru.EffectiveTtl(step.ttl, defaultTtl).value, step.now);
      Keeps(made, Admitted(made, cfg, step.key, step.query, step.response, step.v, step.now, expires).0, key, id)
  {
    var expires := Lru.Deadline(Lru.EffectiveTtl(step.ttl, defaultTtl).value, step.now);
    if step.key != key || !Accepts(cfg.dim, step.v) {
      AdmittedElsewhere(made, cfg, step.key, step.query, step.response, step.v, step.now, expires, key);
    } else {
      NextIdIsNew(c, cfg, key);
      AdmittedSpares(made, cfg, key, step.query, step.response, step.v, step.now, expires, id);
    }
  }

  lemma StoreIsAdmitted(c: Cache, cfg: Config, defaultTtl: Option<real>, step: Step)
    requires step.StoreStep? && step.allowed && Lru.EffectiveTtl(step.ttl, defaultTtl).Some?
    ensures var expires := Lru.Deadline(Lru.EffectiveTtl(step.ttl, defaultTtl).value, step.now);
      Next(c, cfg, defaultTtl, step)
      == Admitted(c.(parts := c.parts[step.key := PartAt(c, step.key)]), cfg, step.key, step.query, step.response,
                  step.v, step.now, expires).0
  {
  }

  lemma RefusedStoreKeeps(c: Cache, cfg: Config, defaultTtl: Option<real>, step: Step)
    requires step.StoreStep? && !(step.allowed && Lru.EffectiveTtl(step.ttl, defaultTtl).Some?)
    ensures Next(c, cfg, defaultTtl, step) == c
  {
  }

  lemma StoreKeepsEntry(c: Cache, cfg: Config, defaultTtl: Option<real>, step: Step, key: Key, id: Id)
    requires Ok(c, cfg) && step.StoreStep? && Spares(c, cfg, defaultTtl, key, id, step)
    ensures Keeps(c, Next(c, cfg, defaultTtl, step), key, id)
  {
    if !(step.allowed && Lru.EffectiveTtl(step.ttl, defaultTtl).Some?) {
      RefusedStoreKeeps(c, cfg, defaultTtl, step);
    } else if id in PartAt(c, key).entries {
      var made := c.(parts := c.parts[step.key := PartAt(c, step.key)]);
      StoreSpares(c, cfg, defaultTtl, step, made, key, id);
      StoreIsAdmitted(c, cfg, defaultTtl, step);
      MadeKeeps(c, step.key, Next(c, cfg, defaultTtl, step), key, id);
    }
  }

  lemma StepKeepsEntry(c: Cache, cfg: Config, defaultTtl: Option<real>, step: Step, key: Key, id: Id)
    requires Ok(c, cfg) && Spares(c, cfg, defaultTtl, key, id, step)
    ensures Keeps(c, Next(c, cfg, defaultTtl, step), key, id)
  {
    match step
    case StoreStep(_, _, _, _, _, _, _) =>
      StoreKeepsEntry(c, cfg, defaultTtl, step, key, id);
    case LookupStep(allowed, at, query, now, v, cands) =>
      LookupSpares(c, cfg, allowed, at, query, now, v, cands, key, id);
    case InvalidateStep(other) =>
      if id in PartAt(c, key).entries {
        InvalidateSpares(c, other, key, id);
      }
    case FeedbackStep(other, good) =>
      if id in PartAt(c, key).entries {
        FeedbackSpares(c, other, good, key, id);
      }
  }

  /** The steps, taken from the cache `c`. */
  function Resume(c: Cache, cfg: Config, defaultTtl: Option<real>, steps: seq<Step>): Cache
    decreases |steps|
  {
    if steps == [] then c else Resume(Next(c, cfg, defaultTtl, steps[0]), cfg, defaultTtl, steps[1..])
  }

  /** Each of the steps, taken from the cache `c`, leaves the entry alone. */
  predicate AllSpare(c: Cache, cfg: Config, defaultTtl: Option<real>, key: Key, id: Id, steps: seq<Step>)
    decreases |steps|
  {
    steps == [] ||
    (Spares(c, cfg, defaultTtl, key, id, steps[0]) &&
     AllSpare(Next(c, cfg, defaultTtl, steps[0]), cfg, defaultTtl, key, id, steps[1..]))
  }

  lemma KeepsTransitive(c: Cache, d: Cache, e: Cache, key: Key, id: Id)
    requires Keeps(c, d, key, id) && Keeps(d, e, key, id)
    ensures Keeps(c, e, key, id)
  {
  }

  /** An entry that every step spares keeps its answer. */
  lemma {:induction false} EntryStays(c: Cache, cfg: Config, defaultTtl: Option<real>, steps: seq<Step>, key: Key,
                                      id: Id)
    requires cfg.capacity >= 1 && Ok(c, cfg) && AllSpare(c, cfg, defaultTtl, key, id, steps)
    ensures Keeps(c, Resume(c, cfg, defaultTtl, steps), key, id)
    decreases |steps|
  {
    if steps != [] {
      var d := Next(c, cfg, defaultTtl, steps[0]);
      NextOk(c, cfg, defaultTtl, steps[0]);
      StepKeepsEntry(c, cfg, defaultTtl, steps[0], key, id);
      EntryStays(d, cfg, defaultTtl, steps[1..], key, id);
      KeepsTransitive(c, d, Resume(d, cfg, defaultTtl, steps[1..]), key, id);
    }
  }

  lemma {:induction false} ResumedRun(cfg: Config, defaultTtl: Option<real>, start: seq<Step>, after: seq<Step>)
    ensures Resume(Run(cfg, defaultTtl, start), cfg, defaultTtl, after) == Run(cfg, defaultTtl, start + after)
    decreases |after|
  {
    if after == [] {
      assert start + after == start;
    } else {
      assert (start + [after[0]])[..|start|] == start;
      ResumedRun(cfg, defaultTtl, start + [after[0]], after[1..]);
      assert start + [after[0]] + after[1..] == start + after;
    }
  }

  /** In a coherent partition, having the entry is serving it. */
  lemma ServesByEntry(p: Part, cfg: Config, query: string, id: Id, response: string, expires: Option<real>)
    requires Coherent(p, cfg)
    ensures Serves(p, cfg, query, id, response, expires)
       <==> && id in p.entries && p.entries[id].hash == cfg.hash(query) && p.entries[id].query == query
            && p.entries[id].response == response && p.entries[id].expires == expires
  {
  }

  /**
   What was stored is served, by exact match, until it expires: after any run, a store and any further
   steps that leave the entry alone, the query is answered with the stored response.
   */
  lemma StoredIsServed(cfg: Config, defaultTtl: Option<real>, before: seq<Step>, store: Step, after: seq<Step>,
                       later: real, w: Vector, cands: seq<Candidate>)
    requires cfg.capacity >= 1 && store.StoreStep? && store.allowed
    requires var stored := Store(Run(cfg, defaultTtl, before), cfg, true, store.key, store.query, store.response,
                                 store.v, store.now, store.ttl, defaultTtl).1;
      stored.Stored? && AllSpare(Run(cfg, defaultTtl, before + [store]), cfg, defaultTtl, store.key, stored.id, after)
    requires Lru.EffectiveTtl(store.ttl, defaultTtl).Some?
    requires !Lru.IsExpired(Lru.Deadline(Lru.EffectiveTtl(store.ttl, defaultTtl).value, store.now), later)
    ensures var id := Store(Run(cfg, defaultTtl, before), cfg, true, store.key, store.query, store.response, store.v,
                            store.now, store.ttl, defaultTtl).1.id;
      Lookup(Run(cfg, defaultTtl, before + [store] + after), cfg, true, store.key, store.query, later, w, cands).1
      == Hit(id, store.response, 1.0, store.query, "exact")
  {
    var c := Run(cfg, defaultTtl, before);
    var r := Store(c, cfg, true, store.key, store.query, store.response, store.v, store.now, store.ttl, defaultTtl);
    var id, start := r.1.id, before + [store];
    var expires := Lru.Deadline(Lru.EffectiveTtl(store.ttl, defaultTtl).value, store.now);
    assert start[..|before|] == before && Run(cfg, defaultTtl, start) == r.0;
    StoreServes(c, cfg, store.key, store.query, store.response, store.v, store.now, store.ttl, defaultTtl);
    RunStaysCoherent(cfg, defaultTtl, start);
    EntryStays(r.0, cfg, defaultTtl, after, store.key, id);
    ResumedRun(cfg, defaultTtl, start, after);
    RunStaysCoherent(cfg, defaultTtl, start + after);
    var d := Run(cfg, defaultTtl, start + after);
    assert store.key in d.parts;
    ServesByEntry(r.0.parts[store.key], cfg, store.query, id, store.response, expires);
    ServesByEntry(d.parts[store.key], cfg, store.query, id, store.response, expires);
    ServedExactly(d.parts[store.key], cfg, store.query, id, store.response, expires, later, w, cands);
  }

  // ----- a live answer can be missed -----

  const EAST := [1.0, 0.0]
  const NORTH_EAST := [0.8, 0.6]

  /** One live entry behind one expired entry that scores higher; both vectors have length one, as
      embedders return them. */
  function CrowdedPart(): Part {
    var live := Entry("a", "a", "answer", 0.0, None, 0, 0);
    var dead := Entry("b", "b", "old", 0.0, Some(1.0), 0, 0);
    Part(map[Id("t", 1) := live, Id("t", 2) := dead],
         [Id("t", 1), Id("t", 2)],
         map["a" := Id("t", 1), "b" := Id("t", 2)],
         [Row(Id("t", 1), NORTH_EAST), Row(Id("t", 2), EAST)])
  }

  function CrowdedConfig(): Config {
    Config(2, 2, 1, 0.0, 0.5, q => q, (_, _) => None, (_, _) => true)
  }

  lemma CrowdedIsCoherent()
    ensures Coherent(CrowdedPart(), CrowdedConfig())
  {
    var p := CrowdedPart();
    var a, b := Id("t", 1), Id("t", 2);
    assert p.order[0] == a && p.order[1] == b && p.rows[0].id == a && p.rows[1].id == b;
    assert p.entries.Keys == {a, b};
    assert Ids(p.order) == {a, b} && RowIds(p.rows) == {a, b};
  }

  lemma CrowdedScores()
    ensures Dot(EAST, EAST) == 1.0 && Dot(NORTH_EAST, EAST) == 0.8 && Dot(NORTH_EAST, NORTH_EAST) == 1.0
  {
    DotOfTwo(1.0, 0.0, 1.0, 0.0);
    DotOfTwo(0.8, 0.6, 1.0, 0.0);
    DotOfTwo(0.8, 0.6, 0.8, 0.6);
  }

  lemma DotOfTwo(a: real, b: real, c: real, d: real)
    ensures Dot([a, b], [c, d]) == a * c + b * d
  {
    assert [a, b][1..] == [b] && [c, d][1..] == [d];
    var none: seq<real> := [];
    assert [b][1..] == none && [d][1..] == none && Dot(none, none) == 0.0;
    assert Dot([b], [d]) == b * d;
  }

  /**
   Expired entries that fill the top k hide a live one: a search for one candidate, with the higher row
   expired, answers "no live candidates" although a live entry passes every threshold.
   */
  lemma ExpiredCrowdOutLive()
    ensures var p := CrowdedPart(); var cfg := CrowdedConfig();
      var cands := [Candidate(Id("t", 2), 1.0)];
      && Coherent(p, cfg) && IsTopK(p.rows, EAST, cfg.topK, cands)
      && (forall i | 0 <= i < |p.rows| :: Dot(p.rows[i].xs, p.rows[i].xs) == 1.0)
      && Id("t", 1) in p.entries && Live(p.entries[Id("t", 1)], 5.0)
      && ScoreOf(p, cfg.dim, Id("t", 1), EAST) >= cfg.tauHit
      && LookupIn(p, cfg, "c", 5.0, Finite(EAST), cands).1 == Miss("no_live_candidates", None)
  {
    CrowdedIsCoherent();
    CrowdedScores();
    CrowdedTop();
    CrowdedLookup();
  }

  lemma CrowdedTop()
    ensures IsTopK(CrowdedPart().rows, EAST, 1, [Candidate(Id("t", 2), 1.0)])
  {
    var rows := CrowdedPart().rows;
    var cands := [Candidate(Id("t", 2), 1.0)];
    CrowdedScores();
    assert rows[1].id == cands[0].id;
    assert Scored(rows, EAST, cands[0]);
    assert Beaten(rows[0], EAST, cands) && Beaten(rows[1], EAST, cands);
  }

  lemma CrowdedLookup()
    ensures LookupIn(CrowdedPart(), CrowdedConfig(), "c", 5.0, Finite(EAST), [Candidate(Id("t", 2), 1.0)]).1
         == Miss("no_live_candidates", None)
  {
    var p := CrowdedPart();
    var cands := [Candidate(Id("t", 2), 1.0)];
    assert "c" !in p.exact;
    assert Id("t", 2) in p.entries && p.entries != map[];
    assert Scan(p, cands, 5.0).1 == Scan(RemoveEntry(p, Id("t", 2)), cands[1..], 5.0).1 == None;
  }
}
