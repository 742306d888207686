/**
 The order of use in the semantic cache: entries stand in a partition in the order in which they were last
 stored or served, and the one that makes room for a new one is the one unused for longest.
 */
module CacheRecency {
  import opened Lists
  import opened Wrappers
  import Lru
  import LruHistory
  import opened VectorIndex
  import opened Partitions
  import opened PartitionLookup
  import opened CacheOperations
  import opened CacheGuarantees
  import opened CacheHistory

  /** The step is a lookup, and serves this entry. */
  predicate ServedBy(c: Cache, cfg: Config, step: Step, id: Id) {
    && step.LookupStep?
    && var r := Lookup(c, cfg, step.allowed, step.key, step.query, step.now, step.v, step.cands).1;
       r.Hit? && r.id == id
  }

  /** The number of the last step that stored or served the id, counted from one; zero if none did. */
  function LastUse(cfg: Config, defaultTtl: Option<real>, steps: seq<Step>, id: Id): (r: nat)
    ensures r <= |steps|
    decreases |steps|
  {
    if steps == [] then 0
    else
      var before, step := steps[..|steps| - 1], steps[|steps| - 1];
      var c := Run(cfg, defaultTtl, before);
      if Stores(c, cfg, defaultTtl, step, id) || ServedBy(c, cfg, step, id) then |steps|
      else LastUse(cfg, defaultTtl, before, id)
  }

  /** In the order of use, oldest first. */
  predicate InOrder(order: seq<Id>, use: Id -> int) {
    forall i, j | 0 <= i < j < |order| :: use(order[i]) < use(order[j])
  }

  lemma {:induction false} DroppedOccurs(order: seq<Id>, gone: Id, id: Id)
    requires id in DropId(order, gone)
    ensures id in order
  {
    if order != [] && order[0] != gone && id != order[0] {
      DroppedOccurs(order[1..], gone, id);
    }
  }

  /** Dropping an id leaves the others in order. */
  lemma {:induction false} DropInOrder(order: seq<Id>, use: Id -> int, gone: Id)
    requires InOrder(order, use)
    ensures InOrder(DropId(order, gone), use)
  {
    if order != [] && order[0] != gone {
      var head, tail := order[0], order[1..];
      DropInOrder(tail, use, gone);
      var rest := DropId(tail, gone);
      forall j | 0 <= j < |rest| ensures use(head) < use(rest[j]) {
        assert rest[j] in rest;
        DroppedOccurs(tail, gone, rest[j]);
        var i :| 0 <= i < |tail| && tail[i] == rest[j];
        assert order[i + 1] == rest[j];
      }
    }
  }

  /** An id used now goes to the end, and the order of use is kept. */
  lemma MovedInOrder(order: seq<Id>, use: Id -> int, later: Id -> int, id: Id)
    requires Distinct(order) && InOrder(order, use)
    requires forall other | other in order && other != id :: later(other) == use(other) && use(other) < later(id)
    ensures InOrder(MoveToEnd(order, id), later)
  {
    DropInOrder(order, use, id);
    DropIdIds(order, id);
    var rest := DropId(order, id);
    forall j | 0 <= j < |rest| ensures later(rest[j]) == use(rest[j]) && use(rest[j]) < later(id) {
      assert rest[j] in Ids(rest) && rest[j] in rest;
      DroppedOccurs(order, id, rest[j]);
    }
  }

  /** Used by nobody, the order stays. */
  lemma UnusedInOrder(order: seq<Id>, use: Id -> int, later: Id -> int)
    requires InOrder(order, use) && forall other | other in order :: later(other) == use(other)
    ensures InOrder(order, later)
  {
  }

  lemma AddedInOrder(order: seq<Id>, use: Id -> int, later: Id -> int, id: Id)
    requires InOrder(order, use)
    requires forall other | other in order :: later(other) == use(other) && use(other) < later(id)
    ensures InOrder(order + [id], later)
  {
  }

  // ----- lookups -----

  /** `q` is what some removals left of `p`. */
  ghost predicate Thinned(p: Part, q: Part, use: Id -> int) {
    InOrder(q.order, use) && Distinct(q.order) && forall id | id in q.order :: id in p.order
  }

  lemma RemovedThinned(p: Part, q: Part, use: Id -> int, gone: Id)
    requires Thinned(p, q, use)
    ensures Thinned(p, RemoveEntry(q, gone), use)
  {
    DropInOrder(q.order, use, gone);
    DropIdIds(q.order, gone);
    forall id | id in DropId(q.order, gone) ensures id in p.order {
      DroppedOccurs(q.order, gone, id);
    }
  }

  lemma {:induction false} ScanThinned(p: Part, q: Part, use: Id -> int, cands: seq<Candidate>, now: real)
    requires Thinned(p, q, use)
    ensures Thinned(p, Scan(q, cands, now).0, use)
    decreases |cands|
  {
    if cands != [] {
      var id := cands[0].id;
      if id !in q.entries {
        ScanThinned(p, q, use, cands[1..], now);
      } else if !Live(q.entries[id], now) {
        RemovedThinned(p, q, use, id);
        ScanThinned(p, RemoveEntry(q, id), use, cands[1..], now);
      }
    }
  }

  /** A lookup purges, and moves what it serves to the end. */
  lemma LookupThinned(p: Part, use: Id -> int, cfg: Config, query: string, now: real, v: Vector,
                      cands: seq<Candidate>) returns (q: Part)
    requires InOrder(p.order, use) && Distinct(p.order)
    ensures Thinned(p, q, use)
    ensures var r := LookupIn(p, cfg, query, now, v, cands);
      r.0.order == if r.1.Hit? then MoveToEnd(q.order, r.1.id) else q.order
  {
    var h, exact := cfg.hash(query), ExactStage(p, cfg, query, now);
    q := p;
    if exact.1.None? {
      if h in p.exact {
        RemovedThinned(p, p, use, p.exact[h]);
      }
      q := exact.0;
      if p.entries != map[] && q.entries != map[] && Accepts(cfg.dim, v) {
        ScanThinned(p, q, use, cands, now);
        ScanFinds(q, cands, now);
        q := Scan(q, cands, now).0;
      }
    }
  }

  /** Only what is used now is used later than before: at `n`, later than all else. */
  ghost predicate UsedNow(use: Id -> int, later: Id -> int, n: int, used: Option<Id>) {
    forall id :: use(id) < n && later(id) == if used == Some(id) then n else use(id)
  }

  function HitOf(r: Outcome): Option<Id> {
    if r.Hit? then Some(r.id) else None
  }

  lemma LookupInOrder(p: Part, use: Id -> int, later: Id -> int, n: int, cfg: Config, query: string, now: real,
                      v: Vector, cands: seq<Candidate>)
    requires InOrder(p.order, use) && Distinct(p.order)
    requires UsedNow(use, later, n, HitOf(LookupIn(p, cfg, query, now, v, cands).1))
    ensures InOrder(LookupIn(p, cfg, query, now, v, cands).0.order, later)
  {
    var q := LookupThinned(p, use, cfg, query, now, v, cands);
    var r := LookupIn(p, cfg, query, now, v, cands).1;
    if r.Hit? {
      MovedInOrder(q.order, use, later, r.id);
    } else {
      UnusedInOrder(q.order, use, later);
    }
  }

  lemma HitIsHeld(p: Part, cfg: Config, query: string, now: real, v: Vector, cands: seq<Candidate>)
    requires LookupIn(p, cfg, query, now, v, cands).1.Hit?
    ensures LookupIn(p, cfg, query, now, v, cands).1.id in p.entries
  {
    LookupStages(p, cfg, query, now, v, cands);
    ExactKeepsLive(p, cfg, query, now);
    var q := ExactStage(p, cfg, query, now).0;
    ScanFinds(q, cands, now);
    ScanKeepsLive(q, cands, now);
  }

  // ----- stores -----

  lemma InsertInOrder(p: Part, use: Id -> int, later: Id -> int, n: int, cfg: Config, id: Id, e: Entry, v: Vector)
    requires InOrder(p.order, use) && Distinct(p.order) && id !in p.order && Accepts(cfg.dim, v)
    requires UsedNow(use, later, n, Some(id))
    ensures InOrder(Insert(p, cfg, id, e, v).order, later)
  {
    var room := Room(p, cfg);
    if p.order != [] {
      RemovedThinned(p, p, use, p.order[0]);
    }
    assert Thinned(p, room, use);
    AddedInOrder(room.order, use, later, id);
  }

  lemma AdmittedInOrder(made: Cache, use: Id -> int, later: Id -> int, n: int, cfg: Config, key: Key, query: string,
                        response: string, v: Vector, now: real, expires: Option<real>, id: Id)
    requires Ok(made, cfg) && key in made.parts && InOrder(made.parts[key].order, use)
    requires UsedNow(use, later, n, Some(id))
    requires Admitted(made, cfg, key, query, response, v, now, expires).1 == Stored(id)
    ensures InOrder(PartAt(Admitted(made, cfg, key, query, response, v, now, expires).0, key).order, later)
  {
    var p := made.parts[key];
    if ExistingId(p, cfg.hash(query)).Some? {
      AdmittedAgain(made, cfg, key, query, response, v, now, expires, ExistingId(p, cfg.hash(query)).value);
      MovedInOrder(p.order, use, later, id);
    } else {
      AdmittedFresh(made, cfg, key, query, response, v, now, expires);
      NextIdIsNew(made, cfg, key);
      NotInOrder(p, cfg, id);
      InsertInOrder(p, use, later, n, cfg, id, Entry(query, cfg.hash(query), response, now, expires, 0, 0), v);
    }
  }

  lemma NotInOrder(p: Part, cfg: Config, id: Id)
    requires Coherent(p, cfg) && id !in p.entries
    ensures id !in p.order
  {
    forall i | 0 <= i < |p.order| ensures p.order[i] != id {
      assert p.order[i] in Ids(p.order);
    }
  }

  lemma Unadmitted(made: Cache, cfg: Config, key: Key, query: string, response: string, v: Vector, now: real,
                   expires: Option<real>)
    requires key in made.parts && !Admitted(made, cfg, key, query, response, v, now, expires).1.Stored?
    ensures Admitted(made, cfg, key, query, response, v, now, expires).0.parts == made.parts
  {
  }

  function StoredBy(c: Cache, cfg: Config, defaultTtl: Option<real>, step: Step): StoreResult
    requires step.StoreStep?
  {
    Store(c, cfg, step.allowed, step.key, step.query, step.response, step.v, step.now, step.ttl, defaultTtl).1
  }

  /** A store that stores nothing leaves every order alone. */
  lemma IdleStoreInOrder(c: Cache, cfg: Config, defaultTtl: Option<real>, step: Step, key: Key)
    requires step.StoreStep? && !StoredBy(c, cfg, defaultTtl, step).Stored?
    ensures PartAt(Next(c, cfg, defaultTtl, step), key).order == PartAt(c, key).order
  {
    if step.allowed && Lru.EffectiveTtl(step.ttl, defaultTtl).Some? {
      var made := c.(parts := c.parts[step.key := PartAt(c, step.key)]);
      StoreAdmits(c, cfg, defaultTtl, step, made);
      Unadmitted(made, cfg, step.key, step.query, step.response, step.v, step.now,
                 LruHistory.RunsOut(step.ttl, defaultTtl, step.now));
    }
  }

  lemma StoreInOrder(c: Cache, use: Id -> int, later: Id -> int, n: int, cfg: Config, defaultTtl: Option<real>,
                     step: Step, id: Id)
    requires Ok(c, cfg) && Stores(c, cfg, defaultTtl, step, id) && InOrder(PartAt(c, step.key).order, use)
    requires UsedNow(use, later, n, Some(id))
    ensures InOrder(PartAt(Next(c, cfg, defaultTtl, step), step.key).order, later)
  {
    var made := c.(parts := c.parts[step.key := PartAt(c, step.key)]);
    MadeOk(c, cfg, step.key);
    StoreAdmits(c, cfg, defaultTtl, step, made);
    AdmittedInOrder(made, use, later, n, cfg, step.key, step.query, step.response, step.v, step.now,
                    LruHistory.RunsOut(step.ttl, defaultTtl, step.now), id);
  }

  // ----- one step -----

  /** The id a step stores or serves. */
  function UsedBy(c: Cache, cfg: Config, defaultTtl: Option<real>, step: Step): Option<Id> {
    match step
    case StoreStep(_, _, _, _, _, _, _) =>
      (match StoredBy(c, cfg, defaultTtl, step) case Stored(id) => Some(id) case _ => None)
    case LookupStep(allowed, key, query, now, v, cands) =>
      HitOf(Lookup(c, cfg, allowed, key, query, now, v, cands).1)
    case _ => None
  }

  /** A partition that does not hold the id that is used. */
  lemma ElsewhereInOrder(c: Cache, use: Id -> int, later: Id -> int, n: int, cfg: Config, key: Key, used: Option<Id>)
    requires Ok(c, cfg) && InOrder(PartAt(c, key).order, use) && UsedNow(use, later, n, used)
    requires used.Some? ==> used.value !in PartAt(c, key).entries
    ensures InOrder(PartAt(c, key).order, later)
  {
    if used.Some? {
      NoPartIsCoherent(cfg);
      NotInOrder(PartAt(c, key), cfg, used.value);
    }
    UnusedInOrder(PartAt(c, key).order, use, later);
  }

  lemma StoreElsewhere(c: Cache, cfg: Config, defaultTtl: Option<real>, step: Step, key: Key, id: Id)
    requires Ok(c, cfg) && cfg.capacity >= 1 && Stores(c, cfg, defaultTtl, step, id) && key != step.key
    ensures PartAt(Next(c, cfg, defaultTtl, step), key) == PartAt(c, key) && id !in PartAt(c, key).entries
  {
    StoreStepAsStored(c, cfg, defaultTtl, step, id);
    NextOk(c, cfg, defaultTtl, step);
    var made := c.(parts := c.parts[step.key := PartAt(c, step.key)]);
    StoreAdmits(c, cfg, defaultTtl, step, made);
    AdmittedElsewhere(made, cfg, step.key, step.query, step.response, step.v, step.now,
                      LruHistory.RunsOut(step.ttl, defaultTtl, step.now), key);
    if id in PartAt(c, key).entries {
      InOnePartition(Next(c, cfg, defaultTtl, step), cfg, key, step.key, id);
    }
  }

  lemma StoreStepInOrder(c: Cache, use: Id -> int, later: Id -> int, n: int, cfg: Config, defaultTtl: Option<real>,
                         step: Step, key: Key)
    requires Ok(c, cfg) && cfg.capacity >= 1 && step.StoreStep? && InOrder(PartAt(c, key).order, use)
    requires UsedNow(use, later, n, UsedBy(c, cfg, defaultTtl, step))
    ensures InOrder(PartAt(Next(c, cfg, defaultTtl, step), key).order, later)
  {
    var used := UsedBy(c, cfg, defaultTtl, step);
    if used.None? {
      IdleStoreInOrder(c, cfg, defaultTtl, step, key);
      UnusedInOrder(PartAt(c, key).order, use, later);
    } else if key == step.key {
      StoreInOrder(c, use, later, n, cfg, defaultTtl, step, used.value);
    } else {
      StoreElsewhere(c, cfg, defaultTtl, step, key, used.value);
      ElsewhereInOrder(c, use, later, n, cfg, key, used);
    }
  }

  lemma LookupStepInOrder(c: Cache, use: Id -> int, later: Id -> int, n: int, cfg: Config, defaultTtl: Option<real>,
                          step: Step, key: Key)
    requires Ok(c, cfg) && step.LookupStep? && InOrder(PartAt(c, key).order, use)
    requires UsedNow(use, later, n, UsedBy(c, cfg, defaultTtl, step))
    ensures InOrder(PartAt(Next(c, cfg, defaultTtl, step), key).order, later)
  {
    var used := UsedBy(c, cfg, defaultTtl, step);
    if !step.allowed || step.key !in c.parts {
      UnusedInOrder(PartAt(c, key).order, use, later);
    } else if key == step.key {
      LookupInOrder(c.parts[key], use, later, n, cfg, step.query, step.now, step.v, step.cands);
    } else {
      if used.Some? {
        HitIsHeld(c.parts[step.key], cfg, step.query, step.now, step.v, step.cands);
        if used.value in PartAt(c, key).entries {
          InOnePartition(c, cfg, key, step.key, used.value);
        }
      }
      ElsewhereInOrder(c, use, later, n, cfg, key, used);
    }
  }

  lemma RemovalInOrder(c: Cache, use: Id -> int, at: Key, gone: Id, key: Key)
    requires InOrder(PartAt(c, key).order, use)
    ensures InOrder(PartAt(RemoveAt(c, at, gone), key).order, use)
  {
    DropInOrder(PartAt(c, key).order, use, gone);
  }

  lemma InvalidateInOrder(c: Cache, use: Id -> int, id: Id, key: Key)
    requires InOrder(PartAt(c, key).order, use)
    ensures InOrder(PartAt(Invalidate(c, id).0, key).order, use)
  {
    if id in c.owner {
      RemovalInOrder(c, use, c.owner[id], id, key);
    }
  }

  lemma FeedbackInOrder(c: Cache, use: Id -> int, id: Id, good: bool, key: Key)
    requires InOrder(PartAt(c, key).order, use)
    ensures InOrder(PartAt(Feedback(c, id, good), key).order, use)
  {
    if id in c.owner && !good {
      RemovalInOrder(c, use, c.owner[id], id, key);
    }
  }

  lemma StepInOrder(c: Cache, use: Id -> int, later: Id -> int, n: int, cfg: Config, defaultTtl: Option<real>,
                    step: Step, key: Key)
    requires Ok(c, cfg) && cfg.capacity >= 1 && InOrder(PartAt(c, key).order, use)
    requires UsedNow(use, later, n, UsedBy(c, cfg, defaultTtl, step))
    ensures InOrder(PartAt(Next(c, cfg, defaultTtl, step), key).order, later)
  {
    match step
    case StoreStep(_, _, _, _, _, _, _) => StoreStepInOrder(c, use, later, n, cfg, defaultTtl, step, key);
    case LookupStep(_, _, _, _, _, _) => LookupStepInOrder(c, use, later, n, cfg, defaultTtl, step, key);
    case InvalidateStep(other) =>
      UnusedInOrder(PartAt(c, key).order, use, later);
      InvalidateInOrder(c, later, other, key);
    case FeedbackStep(other, good) =>
      UnusedInOrder(PartAt(c, key).order, use, later);
      FeedbackInOrder(c, later, other, good, key);
  }

  // ----- over runs -----

  /** After any run, the entries of a partition stand in the order of their last uses, oldest first. */
  lemma {:induction false} OrderIsLastUse(cfg: Config, defaultTtl: Option<real>, steps: seq<Step>, key: Key)
    requires cfg.capacity >= 1
    ensures InOrder(PartAt(Run(cfg, defaultTtl, steps), key).order, id => LastUse(cfg, defaultTtl, steps, id))
    decreases |steps|
  {
    if steps != [] {
      var before, step := steps[..|steps| - 1], steps[|steps| - 1];
      OrderIsLastUse(cfg, defaultTtl, before, key);
      RunStaysCoherent(cfg, defaultTtl, before);
      StepInOrder(Run(cfg, defaultTtl, before), id => LastUse(cfg, defaultTtl, before, id),
                  id => LastUse(cfg, defaultTtl, steps, id), |steps|, cfg, defaultTtl, step, key);
    }
  }

  /**
   A store drops an entry only if the partition is full and every other entry in it was used since that
   one was.
   */
  lemma OldestMakesRoom(cfg: Config, defaultTtl: Option<real>, steps: seq<Step>, step: Step, id: Id, other: Id)
    requires cfg.capacity >= 1 && step.StoreStep?
    requires var p := PartAt(Run(cfg, defaultTtl, steps), step.key);
      && id in p.entries && other in p.entries && other != id
      && id !in PartAt(Next(Run(cfg, defaultTtl, steps), cfg, defaultTtl, step), step.key).entries
    ensures |PartAt(Run(cfg, defaultTtl, steps), step.key).entries| == cfg.capacity
    ensures LastUse(cfg, defaultTtl, steps, id) < LastUse(cfg, defaultTtl, steps, other)
  {
    var c := Run(cfg, defaultTtl, steps);
    var p := PartAt(c, step.key);
    RunStaysCoherent(cfg, defaultTtl, steps);
    OrderIsLastUse(cfg, defaultTtl, steps, step.key);
    DroppedIsFirst(c, cfg, defaultTtl, step, id);
    assert other in Ids(p.order);
  }

  lemma DroppedIsFirst(c: Cache, cfg: Config, defaultTtl: Option<real>, step: Step, id: Id)
    requires Ok(c, cfg) && step.StoreStep? && id in PartAt(c, step.key).entries
    requires id !in PartAt(Next(c, cfg, defaultTtl, step), step.key).entries
    ensures var p := PartAt(c, step.key);
      p.order != [] && p.order[0] == id && |p.entries| == cfg.capacity
  {
    if step.allowed && Lru.EffectiveTtl(step.ttl, defaultTtl).Some? {
      var made := c.(parts := c.parts[step.key := PartAt(c, step.key)]);
      StoreAdmits(c, cfg, defaultTtl, step, made);
      AdmittedDrops(made, cfg, step.key, step.query, step.response, step.v, step.now,
                    LruHistory.RunsOut(step.ttl, defaultTtl, step.now), id);
      assert Coherent(c.parts[step.key], cfg);
    } else {
      RefusedStoreKeeps(c, cfg, defaultTtl, step);
    }
  }

  lemma AdmittedDrops(made: Cache, cfg: Config, key: Key, query: string, response: string, v: Vector, now: real,
                      expires: Option<real>, id: Id)
    requires key in made.parts && id in made.parts[key].entries
    requires id !in PartAt(Admitted(made, cfg, key, query, response, v, now, expires).0, key).entries
    ensures var p := made.parts[key];
      p.order != [] && p.order[0] == id && |p.entries| >= cfg.capacity
  {
    var p := made.parts[key];
    if ExistingId(p, cfg.hash(query)).Some? {
      AdmittedAgain(made, cfg, key, query, response, v, now, expires, ExistingId(p, cfg.hash(query)).value);
    } else {
      AdmittedFresh(made, cfg, key, query, response, v, now, expires);
    }
  }
}
