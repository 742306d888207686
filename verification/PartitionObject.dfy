/**
 The partition object: its fields change in place and stay equal to the functions on values.
 */
module PartitionObject {
  import opened Wrappers
  import opened VectorIndex
  import opened Partitions
  import opened PartitionLookup

  class Partition {
    var entries: map<Id, Entry>
    var order: seq<Id>
    var exact: map<string, Id>
    const index: NumpyIndex

    ghost predicate Valid()
      reads this, index
    {
      index.Valid()
    }

    ghost function Abs(): Part
      requires Valid()
      reads this, index
    {
      Part(entries, order, exact, index.Rows())
    }

    constructor (dim: nat)
      ensures Valid() && fresh(index) && index.dim == dim && Abs() == NO_PART
    {
      entries := map[];
      order := [];
      exact := map[];
      index := new NumpyIndex(dim);
    }

    method Remove(id: Id) returns (present: bool)
      requires Valid()
      modifies this, index
      ensures Valid() && Abs() == RemoveEntry(old(Abs()), id) && present == (id in old(entries))
    {
      present := id in entries;
      if present && entries[id].hash in exact && exact[entries[id].hash] == id {
        exact := exact - {entries[id].hash};
      }
      entries := entries - {id};
      order := DropId(order, id);
      index.Remove(id);
    }

    /** Good feedback. */
    method CountPraise(id: Id)
      requires Valid() && id in entries
      modifies this
      ensures Valid() && Abs() == Praise(old(Abs()), id)
    {
      entries := entries[id := entries[id].(good := entries[id].good + 1)];
    }

    method TouchEntry(id: Id)
      requires Valid()
      modifies this
      ensures Valid() && Abs() == Touch(old(Abs()), id)
    {
      order := MoveToEnd(order, id);
    }

    method TryExact(cfg: Config, query: string, now: real) returns (r: Option<Outcome>)
      requires Valid()
      modifies this, index
      ensures Valid() && (Abs(), r) == ExactStage(old(Abs()), cfg, query, now)
    {
      var h := cfg.hash(query);
      if h !in exact || exact[h] !in entries {
        return None;
      }
      var id := exact[h];
      var e := entries[id];
      if Live(e, now) {
        TouchEntry(id);
        return Some(Hit(id, e.response, 1.0, e.query, "exact"));
      }
      var _ := Remove(id);
      return None;
    }

    /** The loop over candidates: purge the expired ones before the first live one. */
    method FirstLive(cands: seq<Candidate>, now: real) returns (r: Option<Candidate>)
      requires Valid()
      modifies this, index
      ensures Valid() && (Abs(), r) == Scan(old(Abs()), cands, now)
    {
      var i := 0;
      while i < |cands|
        invariant 0 <= i <= |cands| && Valid()
        invariant Scan(Abs(), cands[i..], now) == Scan(old(Abs()), cands, now)
      {
        var c := cands[i];
        assert cands[i..][0] == c && cands[i..][1..] == cands[i + 1..];
        if c.id in entries {
          if Live(entries[c.id], now) {
            return Some(c);
          }
          var _ := Remove(c.id);
        }
        i := i + 1;
      }
      return None;
    }

    method Decide(cfg: Config, query: string, c: Candidate) returns (r: Outcome)
      requires Valid() && c.id in entries
      modifies this
      ensures Valid() && (Abs(), r) == Judge(old(Abs()), cfg, query, c)
    {
      var e := entries[c.id];
      if c.score < cfg.tauVerify {
        return Miss("below_threshold", Some(c.score));
      }
      var failure := cfg.guard(query, e.query);
      if failure.Some? {
        return Miss("guard:" + failure.value, Some(c.score));
      }
      if c.score >= cfg.tauHit {
        TouchEntry(c.id);
        return Hit(c.id, e.response, c.score, e.query, "semantic");
      }
      if cfg.sameIntent(query, e.query) {
        TouchEntry(c.id);
        return Hit(c.id, e.response, c.score, e.query, "semantic+verified");
      }
      return Miss("verifier_rejected", Some(c.score));
    }

    method FromCandidates(cfg: Config, query: string, now: real, cands: seq<Candidate>) returns (r: Outcome)
      requires Valid()
      modifies this, index
      ensures Valid() && (Abs(), r) == SimilarStage(old(Abs()), cfg, query, now, cands)
    {
      ScanFinds(Abs(), cands, now);
      var best := FirstLive(cands, now);
      if best.None? {
        return Miss("no_live_candidates", None);
      }
      r := Decide(cfg, query, best.value);
    }

    /** Embedding given, search the index and judge; `cands` is what numpy returned. */
    method FromSearch(cfg: Config, query: string, now: real, v: Vector)
      returns (r: Outcome, ghost cands: seq<Candidate>)
      requires Valid() && Coherent(Abs(), cfg) && entries != map[] && index.dim == cfg.dim && cfg.topK >= 1
      modifies this, index
      ensures Valid()
      ensures Accepts(cfg.dim, v) ==>
        IsTopK(old(Abs()).rows, v.xs, cfg.topK, cands) && (Abs(), r) == SimilarStage(old(Abs()), cfg, query, now, cands)
      ensures !Accepts(cfg.dim, v) ==> Abs() == old(Abs()) && r == Raised
    {
      RowsNotEmpty(Abs(), cfg);
      var top := index.Search(v, cfg.topK);
      if top.None? {
        return Raised, [];
      }
      cands := top.value;
      r := FromCandidates(cfg, query, now, top.value);
    }

    /** `_lookup_internal` under the partition's lock. */
    method Lookup(cfg: Config, query: string, now: real, v: Vector) returns (r: Outcome, ghost cands: seq<Candidate>)
      requires Valid() && Coherent(Abs(), cfg) && index.dim == cfg.dim && cfg.topK >= 1
      modifies this, index
      ensures Valid() && (Abs(), r) == LookupIn(old(Abs()), cfg, query, now, v, cands)
      ensures Searched(old(Abs()), cfg, query, now, v, cands)
    {
      cands := [];
      if entries == map[] {
        return Miss("empty_partition", None), [];
      }
      ExactKeepsCoherent(Abs(), cfg, query, now);
      var hit := TryExact(cfg, query, now);
      if hit.Some? {
        r := hit.value;
      } else if entries == map[] {
        r := Miss("empty_partition", None);
      } else {
        r, cands := FromSearch(cfg, query, now, v);
      }
    }

    /** Refresh an entry in place; nothing changes if the index refuses the vector. */
    method Refresh(dim: nat, id: Id, query: string, response: string, now: real, expires: Option<real>, v: Vector)
      returns (ok: bool)
      requires Valid() && id in entries && index.dim == dim
      modifies this, index
      ensures Valid() && ok == Accepts(dim, v)
      ensures Abs() == if ok then Upsert(old(Abs()), dim, id, query, response, now, expires, v) else old(Abs())
    {
      ok := index.Add(id, v);
      if !ok {
        return;
      }
      entries := entries[id := entries[id].(query := query, response := response, created := now, expires := expires)];
      TouchEntry(id);
    }

    /** Index first, then evict, then install; nothing changes if the index refuses the vector. */
    method Install(cfg: Config, id: Id, e: Entry, v: Vector) returns (ok: bool)
      requires Valid() && index.dim == cfg.dim
      modifies this, index
      ensures Valid() && ok == Accepts(cfg.dim, v)
      ensures Abs() == if ok then Insert(old(Abs()), cfg, id, e, v) else old(Abs())
    {
      ghost var before := Abs();
      ok := index.Add(id, v);
      if !ok {
        return;
      }
      RoomIgnoresRows(before, index.Rows(), cfg);
      MakeRoom(cfg);
      entries := entries[id := e];
      exact := exact[e.hash := id];
      order := order + [id];
    }

    /** `_evict_lru`, when the partition is full. */
    method MakeRoom(cfg: Config)
      requires Valid()
      modifies this, index
      ensures Valid() && entries == Room(old(Abs()), cfg).entries && order == Room(old(Abs()), cfg).order
      ensures exact == Room(old(Abs()), cfg).exact && index.Rows() == RoomRows(old(Abs()), cfg, old(index.Rows()))
    {
      if |entries| >= cfg.capacity && order != [] {
        var _ := Remove(order[0]);
      }
    }
  }

  lemma RoomIgnoresRows(p: Part, rows: seq<Row>, cfg: Config)
    ensures var q := p.(rows := rows);
      && Room(q, cfg).entries == Room(p, cfg).entries && Room(q, cfg).order == Room(p, cfg).order
      && Room(q, cfg).exact == Room(p, cfg).exact && RoomRows(q, cfg, rows) == RoomRows(p, cfg, rows)
  {
  }

  lemma RowsNotEmpty(p: Part, cfg: Config)
    requires Coherent(p, cfg) && p.entries != map[]
    ensures p.rows != []
  {
    var id :| id in p.entries;
    assert id in RowIds(p.rows);
  }
}
