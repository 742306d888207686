/**
 The semantic cache told by its history: what an entry holds is what the last store that answered with its
 id was told, and what a lookup answers follows from that.
 */
module CacheHistory {
  import opened Lists
  import opened Wrappers
  import Lru
  import LruHistory
  import opened VectorIndex
  import opened Partitions
  import opened PartitionLookup
  import opened CacheOperations
  import opened CacheGuarantees
  import opened SemanticHits

  // ----- the history -----

  function Told(step: Step, defaultTtl: Option<real>): Record
    requires step.StoreStep?
  {
    Record(step.query, step.response, LruHistory.RunsOut(step.ttl, defaultTtl, step.now),
           if step.v.Finite? then step.v.xs else [])
  }

  /** The step is a store, and answers with this id. */
  predicate Stores(c: Cache, cfg: Config, defaultTtl: Option<real>, step: Step, id: Id) {
    && step.StoreStep?
    && Store(c, cfg, step.allowed, step.key, step.query, step.response, step.v, step.now, step.ttl, defaultTtl).1
       == Stored(id)
  }

  /** What the last store that answered with the id was told. */
  function LastStore(cfg: Config, defaultTtl: Option<real>, steps: seq<Step>, id: Id): Option<Record>
    decreases |steps|
  {
    if steps == [] then None
    else
      var before, step := steps[..|steps| - 1], steps[|steps| - 1];
      if Stores(Run(cfg, defaultTtl, before), cfg, defaultTtl, step, id) then Some(Told(step, defaultTtl))
      else LastStore(cfg, defaultTtl, before, id)
  }

  // ----- an entry that stays keeps its record -----

  /** If the entry is still there, so is all that is known of it. */
  ghost predicate Survives(p: Part, q: Part, id: Id) {
    id in q.entries ==>
      && id in p.entries && SameAnswer(p.entries[id], q.entries[id])
      && forall xs | Row(id, xs) in p.rows :: Row(id, xs) in q.rows
  }

  lemma SurvivorAsStored(p: Part, q: Part, cfg: Config, id: Id, rec: Record)
    requires AsStored(p, cfg, id, rec) && Survives(p, q, id) && id in q.entries
    ensures AsStored(q, cfg, id, rec)
  {
  }

  lemma SurvivesTwice(p: Part, q: Part, r: Part, id: Id)
    requires Survives(p, q, id) && Survives(q, r, id)
    ensures Survives(p, r, id)
  {
  }

  lemma RemovalSurvived(p: Part, gone: Id, id: Id)
    ensures Survives(p, RemoveEntry(p, gone), id)
  {
    if id != gone {
      forall xs | Row(id, xs) in p.rows ensures Row(id, xs) in RemoveEntry(p, gone).rows {
        RemovedRows(p.rows, gone, Row(id, xs));
      }
    }
  }

  lemma {:induction false} ScanSurvived(p: Part, cands: seq<Candidate>, now: real, id: Id)
    ensures Survives(p, Scan(p, cands, now).0, id)
    decreases |cands|
  {
    if cands != [] {
      var head := cands[0].id;
      if head !in p.entries {
        ScanSurvived(p, cands[1..], now, id);
      } else if !Live(p.entries[head], now) {
        ScanSurvived(RemoveEntry(p, head), cands[1..], now, id);
        RemovalSurvived(p, head, id);
        SurvivesTwice(p, RemoveEntry(p, head), Scan(p, cands, now).0, id);
      }
    }
  }

  lemma ExactSurvived(p: Part, cfg: Config, query: string, now: real, id: Id)
    ensures Survives(p, ExactStage(p, cfg, query, now).0, id)
  {
    var h := cfg.hash(query);
    if h in p.exact {
      RemovalSurvived(p, p.exact[h], id);
    }
  }

  lemma SimilarSurvived(p: Part, cfg: Config, query: string, now: real, cands: seq<Candidate>, id: Id)
    ensures Survives(p, SimilarStage(p, cfg, query, now, cands).0, id)
  {
    ScanSurvived(p, cands, now, id);
    ScanFinds(p, cands, now);
    var scanned := Scan(p, cands, now);
    if scanned.1.Some? {
      JudgeTouches(scanned.0, cfg, query, scanned.1.value);
    }
  }

  lemma LookupSurvived(p: Part, cfg: Config, query: string, now: real, v: Vector, cands: seq<Candidate>, id: Id)
    ensures Survives(p, LookupIn(p, cfg, query, now, v, cands).0, id)
  {
    var q := ExactStage(p, cfg, query, now).0;
    LookupStages(p, cfg, query, now, v, cands);
    ExactSurvived(p, cfg, query, now, id);
    SimilarSurvived(q, cfg, query, now, cands, id);
    SurvivesTwice(p, q, SimilarStage(q, cfg, query, now, cands).0, id);
  }

  lemma UpsertSurvived(p: Part, dim: nat, other: Id, query: string, response: string, now: real,
                       expires: Option<real>, v: Vector, id: Id)
    requires other in p.entries && Accepts(dim, v) && id != other
    ensures Survives(p, Upsert(p, dim, other, query, response, now, expires, v), id)
  {
    forall xs | Row(id, xs) in p.rows ensures Row(id, xs) in AddRow(p.rows, dim, other, v).value {
      RemovedRows(p.rows, other, Row(id, xs));
    }
  }

  lemma AddedRows(p: Part, cfg: Config, other: Id, v: Vector, row: Row)
    requires Accepts(cfg.dim, v) && row in AddRow(p.rows, cfg.dim, other, v).value
    requires |p.entries| >= cfg.capacity && p.order != [] ==> row.id != p.order[0]
    ensures row in RoomRows(p, cfg, AddRow(p.rows, cfg.dim, other, v).value)
  {
    if |p.entries| >= cfg.capacity && p.order != [] {
      RemovedRows(AddRow(p.rows, cfg.dim, other, v).value, p.order[0], row);
    }
  }

  lemma InsertSurvived(p: Part, cfg: Config, other: Id, e: Entry, v: Vector, id: Id)
    requires Accepts(cfg.dim, v) && id != other
    ensures Survives(p, Insert(p, cfg, other, e, v), id)
  {
    var q := Insert(p, cfg, other, e, v);
    if id in q.entries {
      forall xs | Row(id, xs) in p.rows ensures Row(id, xs) in q.rows {
        RemovedRows(p.rows, other, Row(id, xs));
        AddedRows(p, cfg, other, v, Row(id, xs));
      }
    }
  }

  // ----- a store makes its record true -----

  lemma UpsertAsStored(p: Part, cfg: Config, id: Id, query: string, response: string, now: real,
                       expires: Option<real>, v: Vector)
    requires Coherent(p, cfg) && ExistingId(p, cfg.hash(query)) == Some(id) && Accepts(cfg.dim, v)
    ensures AsStored(Upsert(p, cfg.dim, id, query, response, now, expires, v), cfg, id,
                     Record(query, response, expires, v.xs))
  {
    var rows := AddRow(p.rows, cfg.dim, id, v).value;
    assert rows[|rows| - 1] == Row(id, v.xs);
  }

  lemma InsertAsStored(p: Part, cfg: Config, id: Id, query: string, response: string, now: real,
                       expires: Option<real>, v: Vector)
    requires Coherent(p, cfg) && id !in p.entries && Accepts(cfg.dim, v)
    ensures AsStored(Insert(p, cfg, id, Entry(query, cfg.hash(query), response, now, expires, 0, 0), v), cfg, id,
                     Record(query, response, expires, v.xs))
  {
    var rows := AddRow(p.rows, cfg.dim, id, v).value;
    assert rows[|rows| - 1] == Row(id, v.xs);
    if p.order != [] {
      assert p.order[0] in Ids(p.order);
    }
    AddedRows(p, cfg, id, v, Row(id, v.xs));
  }

  lemma AdmittedAsStored(made: Cache, cfg: Config, key: Key, query: string, response: string, v: Vector, now: real,
                         expires: Option<real>, id: Id)
    requires Ok(made, cfg) && key in made.parts
    requires Admitted(made, cfg, key, query, response, v, now, expires).1 == Stored(id)
    ensures Accepts(cfg.dim, v)
    ensures AsStored(PartAt(Admitted(made, cfg, key, query, response, v, now, expires).0, key), cfg, id,
                     Record(query, response, expires, v.xs))
  {
    var p := made.parts[key];
    if ExistingId(p, cfg.hash(query)).Some? {
      AdmittedAgain(made, cfg, key, query, response, v, now, expires, ExistingId(p, cfg.hash(query)).value);
      UpsertAsStored(p, cfg, id, query, response, now, expires, v);
    } else {
      AdmittedFresh(made, cfg, key, query, response, v, now, expires);
      NextIdIsNew(made, cfg, key);
      InsertAsStored(p, cfg, id, query, response, now, expires, v);
    }
  }

  lemma AdmittedSurvived(made: Cache, cfg: Config, key: Key, query: string, response: string, v: Vector, now: real,
                         expires: Option<real>, id: Id)
    requires key in made.parts && Admitted(made, cfg, key, query, response, v, now, expires).1 != Stored(id)
    ensures Survives(made.parts[key], PartAt(Admitted(made, cfg, key, query, response, v, now, expires).0, key), id)
  {
    var p := made.parts[key];
    if ExistingId(p, cfg.hash(query)).Some? {
      var other := ExistingId(p, cfg.hash(query)).value;
      AdmittedAgain(made, cfg, key, query, response, v, now, expires, other);
      if Accepts(cfg.dim, v) {
        UpsertSurvived(p, cfg.dim, other, query, response, now, expires, v, id);
      }
    } else {
      AdmittedFresh(made, cfg, key, query, response, v, now, expires);
      if Accepts(cfg.dim, v) {
        var e := Entry(query, cfg.hash(query), response, now, expires, 0, 0);
        InsertSurvived(p, cfg, Id(key.tenant, made.nextId), e, v, id);
      }
    }
  }

  // ----- one step -----

  lemma RunsOutIsDeadline(ttl: Lru.Ttl, defaultTtl: Option<real>, now: real)
    requires Lru.EffectiveTtl(ttl, defaultTtl).Some?
    ensures Lru.Deadline(Lru.EffectiveTtl(ttl, defaultTtl).value, now) == LruHistory.RunsOut(ttl, defaultTtl, now)
  {
    LruHistory.RefusedIff(ttl, defaultTtl, now);
  }

  /** A store that passes policy and TTL is admitted into its partition, made if need be. */
  lemma StoreAdmits(c: Cache, cfg: Config, defaultTtl: Option<real>, step: Step, made: Cache)
    requires step.StoreStep? && step.allowed && Lru.EffectiveTtl(step.ttl, defaultTtl).Some?
    requires made == c.(parts := c.parts[step.key := PartAt(c, step.key)])
    ensures Store(c, cfg, step.allowed, step.key, step.query, step.response, step.v, step.now, step.ttl, defaultTtl)
         == Admitted(made, cfg, step.key, step.query, step.response, step.v, step.now,
                     LruHistory.RunsOut(step.ttl, defaultTtl, step.now))
  {
    RunsOutIsDeadline(step.ttl, defaultTtl, step.now);
  }

  lemma StoreStepAsStored(c: Cache, cfg: Config, defaultTtl: Option<real>, step: Step, id: Id)
    requires Ok(c, cfg) && Stores(c, cfg, defaultTtl, step, id)
    ensures AsStored(PartAt(Next(c, cfg, defaultTtl, step), step.key), cfg, id, Told(step, defaultTtl))
  {
    var made := c.(parts := c.parts[step.key := PartAt(c, step.key)]);
    MadeOk(c, cfg, step.key);
    StoreAdmits(c, cfg, defaultTtl, step, made);
    AdmittedAsStored(made, cfg, step.key, step.query, step.response, step.v, step.now,
                     LruHistory.RunsOut(step.ttl, defaultTtl, step.now), id);
  }

  lemma StoreStepSurvived(c: Cache, cfg: Config, defaultTtl: Option<real>, step: Step, key: Key, id: Id)
    requires step.StoreStep? && !Stores(c, cfg, defaultTtl, step, id)
    ensures Survives(PartAt(c, key), PartAt(Next(c, cfg, defaultTtl, step), key), id)
  {
    if step.allowed && Lru.EffectiveTtl(step.ttl, defaultTtl).Some? {
      var made := c.(parts := c.parts[step.key := PartAt(c, step.key)]);
      var expires := LruHistory.RunsOut(step.ttl, defaultTtl, step.now);
      StoreAdmits(c, cfg, defaultTtl, step, made);
      if step.key == key {
        AdmittedSurvived(made, cfg, key, step.query, step.response, step.v, step.now, expires, id);
      } else {
        AdmittedElsewhere(made, cfg, step.key, step.query, step.response, step.v, step.now, expires, key);
      }
    }
  }

  lemma RemovalAtSurvived(c: Cache, at: Key, gone: Id, key: Key, id: Id)
    ensures Survives(PartAt(c, key), PartAt(RemoveAt(c, at, gone), key), id)
  {
    RemovalSurvived(PartAt(c, key), gone, id);
  }

  /** A step that does not store under the id leaves the entry as it was, if it leaves it. */
  lemma StepSurvived(c: Cache, cfg: Config, defaultTtl: Option<real>, step: Step, key: Key, id: Id)
    requires !Stores(c, cfg, defaultTtl, step, id)
    ensures Survives(PartAt(c, key), PartAt(Next(c, cfg, defaultTtl, step), key), id)
  {
    match step
    case StoreStep(_, _, _, _, _, _, _) => StoreStepSurvived(c, cfg, defaultTtl, step, key, id);
    case LookupStep(allowed, at, query, now, v, cands) =>
      if allowed && at in c.parts && at == key {
        LookupSurvived(c.parts[at], cfg, query, now, v, cands, id);
      }
    case InvalidateStep(other) =>
      if other in c.owner {
        RemovalAtSurvived(c, c.owner[other], other, key, id);
      }
    case FeedbackStep(other, good) =>
      if other in c.owner {
        RemovalAtSurvived(c, c.owner[other], other, key, id);
      }
  }

  /** An entry is in one partition only. */
  lemma InOnePartition(c: Cache, cfg: Config, key: Key, other: Key, id: Id)
    requires Ok(c, cfg) && id in PartAt(c, key).entries && id in PartAt(c, other).entries
    ensures key == other
  {
    assert OwnedAll(c, key) && OwnedAll(c, other);
  }

  // ----- over runs -----

  /**
   Whatever an entry holds, after any run, is what the last store that answered with its id was told: query,
   response, expiry and embedding, under the hash of that query.
   */
  lemma {:induction false} EntriesAreAsStored(cfg: Config, defaultTtl: Option<real>, steps: seq<Step>, key: Key, id: Id)
    requires cfg.capacity >= 1 && id in PartAt(Run(cfg, defaultTtl, steps), key).entries
    ensures LastStore(cfg, defaultTtl, steps, id).Some?
    ensures AsStored(PartAt(Run(cfg, defaultTtl, steps), key), cfg, id, LastStore(cfg, defaultTtl, steps, id).value)
    decreases |steps|
  {
    if steps != [] {
      var before, step := steps[..|steps| - 1], steps[|steps| - 1];
      var c := Run(cfg, defaultTtl, before);
      RunStaysCoherent(cfg, defaultTtl, before);
      if Stores(c, cfg, defaultTtl, step, id) {
        StoreStepAsStored(c, cfg, defaultTtl, step, id);
        NextOk(c, cfg, defaultTtl, step);
        InOnePartition(Next(c, cfg, defaultTtl, step), cfg, key, step.key, id);
      } else {
        StepSurvived(c, cfg, defaultTtl, step, key, id);
        EntriesAreAsStored(cfg, defaultTtl, before, key, id);
        SurvivorAsStored(PartAt(c, key), PartAt(Next(c, cfg, defaultTtl, step), key), cfg, id,
                         LastStore(cfg, defaultTtl, before, id).value);
      }
    }
  }

  /** What the history says of the entries a partition holds. */
  function Shelf(cfg: Config, defaultTtl: Option<real>, steps: seq<Step>, key: Key): map<Id, Record> {
    map id | id in PartAt(Run(cfg, defaultTtl, steps), key).entries && LastStore(cfg, defaultTtl, steps, id).Some? ::
      LastStore(cfg, defaultTtl, steps, id).value
  }

  lemma ShelfIsShelved(cfg: Config, defaultTtl: Option<real>, steps: seq<Step>, key: Key)
    requires cfg.capacity >= 1
    ensures Shelved(PartAt(Run(cfg, defaultTtl, steps), key), cfg, Shelf(cfg, defaultTtl, steps, key))
  {
    var p := PartAt(Run(cfg, defaultTtl, steps), key);
    var recs := Shelf(cfg, defaultTtl, steps, key);
    forall id | id in p.entries ensures id in recs && AsStored(p, cfg, id, recs[id]) {
      EntriesAreAsStored(cfg, defaultTtl, steps, key, id);
    }
  }

  /**
   After any run, what a lookup answers follows from what was stored and is still there: the fresh record
   of the very query if there is one; else the best fresh record by similarity decides, by thresholds,
   guards and verifier, whether it is served, and the reason tells which; it is sure to be found if fewer
   records have expired than the search returns.
   */
  lemma LookupByHistory(cfg: Config, defaultTtl: Option<real>, steps: seq<Step>, key: Key, query: string, now: real,
                        v: Vector, cands: seq<Candidate>)
    requires cfg.capacity >= 1
    requires Searched(PartAt(Run(cfg, defaultTtl, steps), key), cfg, query, now, v, cands)
    ensures FoundIn(Shelf(cfg, defaultTtl, steps, key), cfg, query, now, v,
                    Lookup(Run(cfg, defaultTtl, steps), cfg, true, key, query, now, v, cands).1)
  {
    var c := Run(cfg, defaultTtl, steps);
    var p := PartAt(c, key);
    RunStaysCoherent(cfg, defaultTtl, steps);
    ShelfIsShelved(cfg, defaultTtl, steps, key);
    NoPartIsCoherent(cfg);
    LookupByRecords(p, cfg, Shelf(cfg, defaultTtl, steps, key), query, now, v, cands);
    assert Lookup(c, cfg, true, key, query, now, v, cands).1 == LookupIn(p, cfg, query, now, v, cands).1;
  }

  /**
   The semantic hit: no fresh record of the very query, a fresh record, and fewer expired ones than the
   search returns; then a strictly best record is served exactly if it meets the conditions.
   */
  lemma SemanticHitExactly(cfg: Config, defaultTtl: Option<real>, steps: seq<Step>, key: Key, query: string, now: real,
                           v: Vector, cands: seq<Candidate>, id: Id)
    requires cfg.capacity >= 1 && v.Finite? && |v.xs| == cfg.dim
    requires Searched(PartAt(Run(cfg, defaultTtl, steps), key), cfg, query, now, v, cands)
    requires var recs := Shelf(cfg, defaultTtl, steps, key);
      && Fresh(recs, now, id) && |ExpiredIds(recs, now)| < cfg.topK
      && (forall other | Matches(recs, cfg, query, other) :: !Fresh(recs, now, other))
      && (forall other | other in recs && Fresh(recs, now, other) && other != id ::
            Similarity(recs[other], v.xs) < Similarity(recs[id], v.xs))
    ensures var rec := Shelf(cfg, defaultTtl, steps, key)[id];
      var score := Similarity(rec, v.xs);
      var r := Lookup(Run(cfg, defaultTtl, steps), cfg, true, key, query, now, v, cands).1;
      && (r.Hit? <==> Meets(cfg, query, rec, score))
      && (r.Hit? ==> r == Hit(id, rec.response, score, rec.query,
                              if cfg.tauHit <= score then "semantic" else "semantic+verified"))
  {
    LookupByHistory(cfg, defaultTtl, steps, key, query, now, v, cands);
    var recs := Shelf(cfg, defaultTtl, steps, key);
    var r := Lookup(Run(cfg, defaultTtl, steps), cfg, true, key, query, now, v, cands).1;
    OthersAreFewer(recs, cfg, query, now, id);
    SoleBestDecides(recs, Others(recs, cfg, query), cfg, query, now, v.xs, r, id);
  }

  lemma OthersAreFewer(recs: map<Id, Record>, cfg: Config, query: string, now: real, id: Id)
    requires Fresh(recs, now, id) && !Matches(recs, cfg, query, id) && |ExpiredIds(recs, now)| < cfg.topK
    ensures var others := Others(recs, cfg, query);
      Fresh(others, now, id) && others[id] == recs[id] && |ExpiredIds(others, now)| < cfg.topK
  {
    SubsetCount(ExpiredIds(Others(recs, cfg, query), now), ExpiredIds(recs, now));
  }

  lemma SoleBestDecides(recs: map<Id, Record>, others: map<Id, Record>, cfg: Config, query: string, now: real,
                        xs: seq<real>, r: Outcome, id: Id)
    requires BestDecides(others, cfg, query, now, xs, r) && Fresh(others, now, id) && id in recs
    requires others[id] == recs[id] && forall other | other in others :: other in recs && recs[other] == others[other]
    requires forall other | other in recs && Fresh(recs, now, other) && other != id ::
      Similarity(recs[other], xs) < Similarity(recs[id], xs)
    ensures Decided(cfg, query, id, recs[id], Similarity(recs[id], xs), r)
  {
    var best :| Best(others, xs, now, best)
      && Decided(cfg, query, best, others[best], Similarity(others[best], xs), r);
    assert best == id;
  }

  // ----- what a store answers -----

  /** Ids are handed out in turn: none that was ever stored is the next one. */
  lemma {:induction false} StoredIdsAreOld(cfg: Config, defaultTtl: Option<real>, steps: seq<Step>, id: Id)
    requires cfg.capacity >= 1 && LastStore(cfg, defaultTtl, steps, id).Some?
    ensures id.n < Run(cfg, defaultTtl, steps).nextId
    decreases |steps|
  {
    var before, step := steps[..|steps| - 1], steps[|steps| - 1];
    var c := Run(cfg, defaultTtl, before);
    RunStaysCoherent(cfg, defaultTtl, before);
    NextIdGrows(c, cfg, defaultTtl, step);
    if Stores(c, cfg, defaultTtl, step, id) {
      StoreStepAsStored(c, cfg, defaultTtl, step, id);
      NextOk(c, cfg, defaultTtl, step);
      HeldIdIsOld(Next(c, cfg, defaultTtl, step), cfg, step.key, id);
    } else {
      StoredIdsAreOld(cfg, defaultTtl, before, id);
    }
  }

  lemma NextIdGrows(c: Cache, cfg: Config, defaultTtl: Option<real>, step: Step)
    ensures Next(c, cfg, defaultTtl, step).nextId >= c.nextId
  {
  }

  lemma HeldIdIsOld(c: Cache, cfg: Config, key: Key, id: Id)
    requires Ok(c, cfg) && id in PartAt(c, key).entries
    ensures id.n < c.nextId
  {
    assert OwnedAll(c, key);
    assert OwnerOk(c, id);
  }

  lemma AdmittedAnswer(made: Cache, cfg: Config, key: Key, query: string, response: string, v: Vector, now: real,
                       expires: Option<real>)
    requires key in made.parts && Coherent(made.parts[key], cfg)
    ensures var p, h := made.parts[key], cfg.hash(query);
      Admitted(made, cfg, key, query, response, v, now, expires).1
      == if !Accepts(cfg.dim, v) then Invalid
         else if h in p.exact then Stored(p.exact[h]) else Stored(Id(key.tenant, made.nextId))
  {
    var p, h := made.parts[key], cfg.hash(query);
    if ExistingId(p, h).Some? {
      AdmittedAgain(made, cfg, key, query, response, v, now, expires, ExistingId(p, h).value);
    } else {
      AdmittedFresh(made, cfg, key, query, response, v, now, expires);
    }
  }

  /**
   After any run, a store is refused by the policy, or invalid by its time to live or its embedding, and
   otherwise stores: under the id of the record of the very query if there is one, run out or not, and else
   under an id that was never stored before.
   */
  lemma StoreAnswers(cfg: Config, defaultTtl: Option<real>, steps: seq<Step>, step: Step)
    requires cfg.capacity >= 1 && step.StoreStep?
    ensures var r := Store(Run(cfg, defaultTtl, steps), cfg, step.allowed, step.key, step.query, step.response, step.v,
                           step.now, step.ttl, defaultTtl).1;
      var recs := Shelf(cfg, defaultTtl, steps, step.key);
      var valid := !LruHistory.Refused(step.ttl, defaultTtl) && step.v.Finite? && |step.v.xs| == cfg.dim;
      && (r == NotCacheable <==> !step.allowed) && (r == Invalid <==> step.allowed && !valid)
      && (r.Stored? && (exists id :: Matches(recs, cfg, step.query, id)) ==> Matches(recs, cfg, step.query, r.id))
      && (r.Stored? && (forall id :: !Matches(recs, cfg, step.query, id)) ==>
            r.id.tenant == step.key.tenant && LastStore(cfg, defaultTtl, steps, r.id).None?)
  {
    var c := Run(cfg, defaultTtl, steps);
    var recs := Shelf(cfg, defaultTtl, steps, step.key);
    LruHistory.RefusedIff(step.ttl, defaultTtl, step.now);
    if step.allowed && !LruHistory.Refused(step.ttl, defaultTtl) {
      var made := c.(parts := c.parts[step.key := PartAt(c, step.key)]);
      RunStaysCoherent(cfg, defaultTtl, steps);
      MadeOk(c, cfg, step.key);
      StoreAdmits(c, cfg, defaultTtl, step, made);
      AdmittedAnswer(made, cfg, step.key, step.query, step.response, step.v, step.now,
                     LruHistory.RunsOut(step.ttl, defaultTtl, step.now));
      MatchesIffExact(cfg, defaultTtl, steps, step.key, step.query);
      var new_ := Id(step.key.tenant, c.nextId);
      if LastStore(cfg, defaultTtl, steps, new_).Some? {
        StoredIdsAreOld(cfg, defaultTtl, steps, new_);
      }
    }
  }

  lemma MatchesIffExact(cfg: Config, defaultTtl: Option<real>, steps: seq<Step>, key: Key, query: string)
    requires cfg.capacity >= 1
    ensures var p := PartAt(Run(cfg, defaultTtl, steps), key);
      forall id :: Matches(Shelf(cfg, defaultTtl, steps, key), cfg, query, id)
                   <==> cfg.hash(query) in p.exact && p.exact[cfg.hash(query)] == id
  {
    var p, recs := PartAt(Run(cfg, defaultTtl, steps), key), Shelf(cfg, defaultTtl, steps, key);
    RunStaysCoherent(cfg, defaultTtl, steps);
    NoPartIsCoherent(cfg);
    ShelfIsShelved(cfg, defaultTtl, steps, key);
    forall id ensures Matches(recs, cfg, query, id) <==> cfg.hash(query) in p.exact && p.exact[cfg.hash(query)] == id {
      MatchIsExact(p, cfg, recs, query, id);
    }
  }

  lemma HeldByOwner(c: Cache, cfg: Config, key: Key, id: Id)
    requires Ok(c, cfg)
    ensures id in PartAt(c, key).entries <==> id in c.owner && c.owner[id] == key
  {
    if key in c.parts {
      assert OwnedAll(c, key);
    }
    if id in c.owner {
      assert OwnerOk(c, id);
    }
  }

  lemma RemovedFromAll(c: Cache, cfg: Config, id: Id, key: Key)
    requires Ok(c, cfg) && id in c.owner
    ensures id !in PartAt(RemoveAt(c, c.owner[id], id), key).entries
  {
    HeldByOwner(c, cfg, key, id);
  }

  lemma InvalidatedIsGone(c: Cache, cfg: Config, id: Id, key: Key)
    requires Ok(c, cfg)
    ensures id !in PartAt(Invalidate(c, id).0, key).entries && Invalidate(c, id).1 == (id in c.owner)
  {
    HeldByOwner(c, cfg, key, id);
    if id in c.owner {
      RemovedFromAll(c, cfg, id, key);
      assert OwnerOk(c, id);
    }
  }

  lemma CensuredIsGone(c: Cache, cfg: Config, id: Id, key: Key)
    requires Ok(c, cfg)
    ensures id !in PartAt(Feedback(c, id, false), key).entries
  {
    HeldByOwner(c, cfg, key, id);
    if id in c.owner {
      RemovedFromAll(c, cfg, id, key);
      assert OwnerOk(c, id);
    }
  }

  /** An entry that is invalidated, or heard to be bad, is gone from every partition, and invalidating it
      says whether it was in one. */
  lemma RemovedIsGone(cfg: Config, defaultTtl: Option<real>, steps: seq<Step>, id: Id, key: Key)
    requires cfg.capacity >= 1
    ensures var c := Run(cfg, defaultTtl, steps);
      && id !in PartAt(Invalidate(c, id).0, key).entries && id !in PartAt(Feedback(c, id, false), key).entries
      && (Invalidate(c, id).1 <==> exists at :: id in PartAt(c, at).entries)
  {
    var c := Run(cfg, defaultTtl, steps);
    RunStaysCoherent(cfg, defaultTtl, steps);
    InvalidatedIsGone(c, cfg, id, key);
    CensuredIsGone(c, cfg, id, key);
    forall at ensures id in PartAt(c, at).entries <==> id in c.owner && c.owner[id] == at {
      HeldByOwner(c, cfg, at, id);
    }
  }
}
