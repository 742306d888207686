/**
 Which lookups hit, told by what was stored: over whole runs, an entry is what the last store that answered
 with its id said, and the answer to a lookup follows from those records, the clock and the configuration
 alone.
 */
module SemanticHits {
  import opened Wrappers
  import opened VectorIndex
  import opened Partitions
  import opened PartitionLookup
  import opened CacheOperations
  import opened CacheGuarantees

  /** What a store was told: the query and its embedding, the response, and when it runs out. */
  datatype Record = Record(query: string, response: string, expires: Option<real>, xs: seq<real>)

  predicate Expired(rec: Record, now: real) {
    rec.expires.Some? && now >= rec.expires.value
  }

  /** The dot product of the stored embedding with another. */
  function Similarity(rec: Record, xs: seq<real>): real {
    if |rec.xs| == |xs| then Dot(rec.xs, xs) else 0.0
  }

  // ----- the answer, by the records -----

  /** The record is of the very query, by hash. */
  predicate Matches(recs: map<Id, Record>, cfg: Config, query: string, id: Id) {
    id in recs && cfg.hash(recs[id].query) == cfg.hash(query)
  }

  predicate Fresh(recs: map<Id, Record>, now: real, id: Id) {
    id in recs && !Expired(recs[id], now)
  }

  /** A fresh record, and none that is more similar. */
  predicate Best(recs: map<Id, Record>, xs: seq<real>, now: real, id: Id) {
    && Fresh(recs, now, id)
    && forall other | other in recs && Fresh(recs, now, other) ::
         Similarity(recs[other], xs) <= Similarity(recs[id], xs)
  }

  /** Similar enough, no guard objects, and in the grey zone the verifier agrees. */
  predicate Meets(cfg: Config, query: string, rec: Record, score: real) {
    && cfg.tauVerify <= score && cfg.guard(query, rec.query).None?
    && (cfg.tauHit <= score || cfg.sameIntent(query, rec.query))
  }

  /** The answer says whether the record meets the conditions, and what decided it. */
  predicate Decided(cfg: Config, query: string, id: Id, rec: Record, score: real, r: Outcome) {
    var objection := cfg.guard(query, rec.query);
    && (r.Hit? <==> Meets(cfg, query, rec, score))
    && (r.Hit? ==> r.id == id && r.response == rec.response && r.score == score && r.query == rec.query)
    && (r.Hit? ==> r.reason == if cfg.tauHit <= score then "semantic" else "semantic+verified")
    && (!r.Hit? ==> r.Miss? && r.best == Some(score))
    && (r.Miss? && score < cfg.tauVerify ==> r.reason == "below_threshold")
    && (r.Miss? && cfg.tauVerify <= score && objection.Some? ==> r.reason == "guard:" + objection.value)
    && (r.Miss? && cfg.tauVerify <= score && objection.None? ==> r.reason == "verifier_rejected")
  }

  /** The best fresh record decided the answer; among equally similar ones the index chooses. */
  ghost predicate BestDecides(recs: map<Id, Record>, cfg: Config, query: string, now: real, xs: seq<real>, r: Outcome) {
    exists id :: Best(recs, xs, now, id) && Decided(cfg, query, id, recs[id], Similarity(recs[id], xs), r)
  }

  /** What is left for the similarity search once expired records of the very query are gone. */
  function Others(recs: map<Id, Record>, cfg: Config, query: string): map<Id, Record> {
    map id | id in recs && !Matches(recs, cfg, query, id) :: recs[id]
  }

  function ExpiredIds(recs: map<Id, Record>, now: real): set<Id> {
    set id | id in recs && Expired(recs[id], now)
  }

  /** The answer of the similarity search over `recs`. */
  ghost predicate FoundSimilar(recs: map<Id, Record>, cfg: Config, query: string, now: real, xs: seq<real>,
                               r: Outcome)
  {
    && (r == Miss("no_live_candidates", None) || BestDecides(recs, cfg, query, now, xs, r))
    && ((forall id | id in recs :: !Fresh(recs, now, id)) ==> r == Miss("no_live_candidates", None))
    && ((exists id :: Fresh(recs, now, id)) && |ExpiredIds(recs, now)| < cfg.topK ==>
          BestDecides(recs, cfg, query, now, xs, r))
  }

  /** The answer of a partition that holds `recs`. */
  ghost predicate FoundIn(recs: map<Id, Record>, cfg: Config, query: string, now: real, v: Vector, r: Outcome) {
    var others := Others(recs, cfg, query);
    && (forall id | Matches(recs, cfg, query, id) && Fresh(recs, now, id) ::
          r == Hit(id, recs[id].response, 1.0, recs[id].query, "exact"))
    && ((forall id | Matches(recs, cfg, query, id) :: !Fresh(recs, now, id)) ==>
          && (others == map[] ==> r == Miss("empty_partition", None))
          && (others != map[] && !(v.Finite? && |v.xs| == cfg.dim) ==> r == Raised)
          && (others != map[] && v.Finite? && |v.xs| == cfg.dim ==> FoundSimilar(others, cfg, query, now, v.xs, r)))
  }

  // ----- a partition that holds what the records say -----

  /** The entry and its row are what the record says. */
  predicate AsStored(p: Part, cfg: Config, id: Id, rec: Record) {
    && id in p.entries && p.entries[id].query == rec.query && p.entries[id].response == rec.response
    && p.entries[id].expires == rec.expires && p.entries[id].hash == cfg.hash(rec.query)
    && Row(id, rec.xs) in p.rows
  }

  predicate Shelved(p: Part, cfg: Config, recs: map<Id, Record>) {
    recs.Keys == p.entries.Keys && forall id | id in recs :: AsStored(p, cfg, id, recs[id])
  }

  lemma LiveIffFresh(p: Part, cfg: Config, recs: map<Id, Record>, now: real, id: Id)
    requires Shelved(p, cfg, recs) && id in p.entries
    ensures Live(p.entries[id], now) <==> Fresh(recs, now, id)
  {
    assert AsStored(p, cfg, id, recs[id]);
  }

  lemma ScoreIsSimilarity(p: Part, cfg: Config, recs: map<Id, Record>, xs: seq<real>, id: Id)
    requires Agrees(p, cfg.dim) && Shelved(p, cfg, recs) && id in p.entries && |xs| == cfg.dim
    ensures ScoreOf(p, cfg.dim, id, xs) == Similarity(recs[id], xs)
  {
    assert AsStored(p, cfg, id, recs[id]);
    RowExists(p, cfg.dim, id);
    var i :| 0 <= i < |p.rows| && p.rows[i] == Row(id, recs[id].xs);
    assert FindRow(p.rows, id).value == i;
  }

  lemma JudgedAsRecorded(p: Part, cfg: Config, query: string, c: Candidate, rec: Record)
    requires AsStored(p, cfg, c.id, rec)
    ensures Decided(cfg, query, c.id, rec, c.score, Judge(p, cfg, query, c).1)
  {
  }

  /** The candidate that is judged has the best record. */
  lemma JudgedHasBest(p: Part, cfg: Config, recs: map<Id, Record>, now: real, xs: seq<real>, cands: seq<Candidate>,
                      c: Candidate)
    requires Coherent(p, cfg) && Shelved(p, cfg, recs) && |xs| == cfg.dim && IsTopK(p.rows, xs, cfg.topK, cands)
    requires Scan(p, cands, now).1 == Some(c)
    ensures Best(recs, xs, now, c.id) && c.score == Similarity(recs[c.id], xs)
  {
    ScanFinds(p, cands, now);
    ScanKeepsLive(p, cands, now);
    LiveIffFresh(p, cfg, recs, now, c.id);
    ScoreIsSimilarity(p, cfg, recs, xs, c.id);
    JudgedIsBest(p, cfg, xs, cands, now, c.id);
    forall id | id in recs && Fresh(recs, now, id) ensures Similarity(recs[id], xs) <= c.score {
      LiveIffFresh(p, cfg, recs, now, id);
      ScoreIsSimilarity(p, cfg, recs, xs, id);
      JudgedIsBest(p, cfg, xs, cands, now, id);
    }
  }

  lemma BestDecidesIt(p: Part, cfg: Config, recs: map<Id, Record>, query: string, now: real, xs: seq<real>,
                      cands: seq<Candidate>)
    requires Coherent(p, cfg) && Shelved(p, cfg, recs) && |xs| == cfg.dim && IsTopK(p.rows, xs, cfg.topK, cands)
    requires Scan(p, cands, now).1.Some?
    ensures BestDecides(recs, cfg, query, now, xs, SimilarStage(p, cfg, query, now, cands).1)
  {
    var scanned := Scan(p, cands, now);
    var c := scanned.1.value;
    ScanFinds(p, cands, now);
    ScanKeepsLive(p, cands, now);
    JudgedHasBest(p, cfg, recs, now, xs, cands, c);
    assert AsStored(p, cfg, c.id, recs[c.id]);
    JudgedAsRecorded(p, cfg, query, c, recs[c.id]);
    JudgeAsBefore(p, scanned.0, cfg, query, c);
  }

  /** The purge before it does not change the judgement. */
  lemma JudgeAsBefore(p: Part, q: Part, cfg: Config, query: string, c: Candidate)
    requires c.id in p.entries && c.id in q.entries && p.entries[c.id] == q.entries[c.id]
    ensures Judge(p, cfg, query, c).1 == Judge(q, cfg, query, c).1
  {
  }

  lemma SimilarByRecords(p: Part, cfg: Config, recs: map<Id, Record>, query: string, now: real, xs: seq<real>,
                         cands: seq<Candidate>)
    requires Coherent(p, cfg) && Shelved(p, cfg, recs) && |xs| == cfg.dim && IsTopK(p.rows, xs, cfg.topK, cands)
    ensures FoundSimilar(recs, cfg, query, now, xs, SimilarStage(p, cfg, query, now, cands).1)
  {
    var found := Scan(p, cands, now).1;
    if found.Some? {
      BestDecidesIt(p, cfg, recs, query, now, xs, cands);
      JudgedHasBest(p, cfg, recs, now, xs, cands, found.value);
    } else if id :| Fresh(recs, now, id) {
      LiveIffFresh(p, cfg, recs, now, id);
      DeadIfExpired(p, cfg, recs, now);
      if |ExpiredIds(recs, now)| < cfg.topK {
        FewDeadMeansJudged(p, cfg, xs, cands, now, id);
      }
    }
  }

  lemma DeadIfExpired(p: Part, cfg: Config, recs: map<Id, Record>, now: real)
    requires Shelved(p, cfg, recs)
    ensures Dead(p, now) == ExpiredIds(recs, now)
  {
    forall id | id in p.entries ensures id in Dead(p, now) <==> id in ExpiredIds(recs, now) {
      LiveIffFresh(p, cfg, recs, now, id);
    }
  }

  /** At most one entry has the hash of a query, and the exact-match map knows it. */
  lemma MatchIsExact(p: Part, cfg: Config, recs: map<Id, Record>, query: string, id: Id)
    requires Coherent(p, cfg) && Shelved(p, cfg, recs)
    ensures Matches(recs, cfg, query, id) <==> cfg.hash(query) in p.exact && p.exact[cfg.hash(query)] == id
  {
    if id in recs {
      assert AsStored(p, cfg, id, recs[id]);
    }
  }

  lemma RemovedAsStored(p: Part, cfg: Config, id: Id, rec: Record, gone: Id)
    requires AsStored(p, cfg, id, rec) && id != gone
    ensures AsStored(RemoveEntry(p, gone), cfg, id, rec)
  {
    RemovedRows(p.rows, gone, Row(id, rec.xs));
  }

  lemma RemovedShelf(p: Part, cfg: Config, recs: map<Id, Record>, gone: Id, q: Part)
    requires Shelved(p, cfg, recs) && q == RemoveEntry(p, gone) && q.entries.Keys == p.entries.Keys - {gone}
    ensures Shelved(q, cfg, recs - {gone})
  {
    forall id | id in recs && id != gone ensures AsStored(q, cfg, id, recs[id]) {
      RemovedAsStored(p, cfg, id, recs[id], gone);
    }
  }

  lemma RemovedRows(rows: seq<Row>, gone: Id, row: Row)
    requires row in rows && row.id != gone
    ensures row in RemoveRow(rows, gone)
  {
    var i :| 0 <= i < |rows| && rows[i] == row;
    match FindRow(rows, gone)
    case Some(p) => assert RemoveRow(rows, gone)[if i < p then i else i - 1] == row;
    case None =>
  }

  lemma FreshMatchAnswers(p: Part, cfg: Config, recs: map<Id, Record>, query: string, now: real, id: Id)
    requires Coherent(p, cfg) && Shelved(p, cfg, recs) && Matches(recs, cfg, query, id) && Fresh(recs, now, id)
    ensures ExactStage(p, cfg, query, now).1 == Some(Hit(id, recs[id].response, 1.0, recs[id].query, "exact"))
  {
    MatchIsExact(p, cfg, recs, query, id);
    LiveIffFresh(p, cfg, recs, now, id);
    assert AsStored(p, cfg, id, recs[id]);
  }

  lemma OnlyMatch(p: Part, cfg: Config, recs: map<Id, Record>, query: string, id: Id)
    requires Coherent(p, cfg) && Shelved(p, cfg, recs) && Matches(recs, cfg, query, id)
    ensures Others(recs, cfg, query) == recs - {id}
  {
    MatchIsExact(p, cfg, recs, query, id);
    forall other | other in recs ensures Matches(recs, cfg, query, other) <==> other == id {
      MatchIsExact(p, cfg, recs, query, other);
    }
    OthersWithout(recs, cfg, query, id);
  }

  lemma OthersWithout(recs: map<Id, Record>, cfg: Config, query: string, id: Id)
    requires forall other | other in recs :: Matches(recs, cfg, query, other) <==> other == id
    ensures Others(recs, cfg, query) == recs - {id}
  {
  }

  /** An expired match is purged, and is the only one. */
  lemma ExpiredMatchGoes(p: Part, cfg: Config, recs: map<Id, Record>, query: string, now: real, id: Id)
    requires Coherent(p, cfg) && Shelved(p, cfg, recs) && Matches(recs, cfg, query, id) && !Fresh(recs, now, id)
    ensures ExactStage(p, cfg, query, now) == (RemoveEntry(p, id), None)
    ensures Shelved(RemoveEntry(p, id), cfg, Others(recs, cfg, query))
  {
    MatchIsExact(p, cfg, recs, query, id);
    LiveIffFresh(p, cfg, recs, now, id);
    RemovedShelf(p, cfg, recs, id, RemoveEntry(p, id));
    OnlyMatch(p, cfg, recs, query, id);
  }

  lemma NoMatchPasses(p: Part, cfg: Config, recs: map<Id, Record>, query: string, now: real)
    requires Coherent(p, cfg) && Shelved(p, cfg, recs) && forall id | id in recs :: !Matches(recs, cfg, query, id)
    ensures ExactStage(p, cfg, query, now) == (p, None) && Others(recs, cfg, query) == recs
  {
    var h := cfg.hash(query);
    if h in p.exact {
      MatchIsExact(p, cfg, recs, query, p.exact[h]);
    }
  }

  lemma NoFreshMatch(p: Part, cfg: Config, recs: map<Id, Record>, query: string, now: real)
    requires Coherent(p, cfg) && Shelved(p, cfg, recs)
    requires forall id | Matches(recs, cfg, query, id) :: !Fresh(recs, now, id)
    ensures var s := ExactStage(p, cfg, query, now);
      s.1 == None && Shelved(s.0, cfg, Others(recs, cfg, query)) && Coherent(s.0, cfg)
  {
    ExactKeepsCoherent(p, cfg, query, now);
    if id :| Matches(recs, cfg, query, id) {
      ExpiredMatchGoes(p, cfg, recs, query, now, id);
    } else {
      NoMatchPasses(p, cfg, recs, query, now);
    }
  }

  lemma LookupWithoutMatch(p: Part, cfg: Config, query: string, now: real, v: Vector, cands: seq<Candidate>, q: Part)
    requires ExactStage(p, cfg, query, now) == (q, None)
    ensures LookupIn(p, cfg, query, now, v, cands).1
         == if q.entries == map[] then Miss("empty_partition", None)
            else if !Accepts(cfg.dim, v) then Raised
            else SimilarStage(q, cfg, query, now, cands).1
  {
  }

  /** What a partition answers follows from its records. */
  lemma LookupByRecords(p: Part, cfg: Config, recs: map<Id, Record>, query: string, now: real, v: Vector,
                        cands: seq<Candidate>)
    requires Coherent(p, cfg) && Shelved(p, cfg, recs) && Searched(p, cfg, query, now, v, cands)
    ensures FoundIn(recs, cfg, query, now, v, LookupIn(p, cfg, query, now, v, cands).1)
  {
    var s := ExactStage(p, cfg, query, now);
    var r := LookupIn(p, cfg, query, now, v, cands).1;
    if id :| Matches(recs, cfg, query, id) && Fresh(recs, now, id) {
      FreshMatchServed(p, cfg, recs, query, now, v, cands);
    } else {
      NoFreshMatch(p, cfg, recs, query, now);
      LookupWithoutMatch(p, cfg, query, now, v, cands, s.0);
      OthersByRecords(s.0, cfg, Others(recs, cfg, query), query, now, v, cands, p, r);
    }
  }

  lemma FreshMatchServed(p: Part, cfg: Config, recs: map<Id, Record>, query: string, now: real, v: Vector,
                         cands: seq<Candidate>)
    requires Coherent(p, cfg) && Shelved(p, cfg, recs)
    ensures forall id | Matches(recs, cfg, query, id) && Fresh(recs, now, id) ::
      LookupIn(p, cfg, query, now, v, cands).1 == Hit(id, recs[id].response, 1.0, recs[id].query, "exact")
  {
    forall id | Matches(recs, cfg, query, id) && Fresh(recs, now, id)
      ensures LookupIn(p, cfg, query, now, v, cands).1 == Hit(id, recs[id].response, 1.0, recs[id].query, "exact")
    {
      FreshMatchAnswers(p, cfg, recs, query, now, id);
      assert id in p.entries;
    }
  }

  lemma OthersByRecords(q: Part, cfg: Config, others: map<Id, Record>, query: string, now: real, v: Vector,
                        cands: seq<Candidate>, p: Part, r: Outcome)
    requires Coherent(q, cfg) && Shelved(q, cfg, others) && Searched(p, cfg, query, now, v, cands)
    requires ExactStage(p, cfg, query, now) == (q, None) && q.entries.Keys <= p.entries.Keys
    requires r == if q.entries == map[] then Miss("empty_partition", None)
                  else if !Accepts(cfg.dim, v) then Raised
                  else SimilarStage(q, cfg, query, now, cands).1
    ensures others == map[] ==> r == Miss("empty_partition", None)
    ensures others != map[] && !(v.Finite? && |v.xs| == cfg.dim) ==> r == Raised
    ensures others != map[] && v.Finite? && |v.xs| == cfg.dim ==> FoundSimilar(others, cfg, query, now, v.xs, r)
  {
    assert others.Keys == q.entries.Keys;
    if id :| id in others {
      assert id in q.entries && id in p.entries;
      if Accepts(cfg.dim, v) {
        SimilarByRecords(q, cfg, others, query, now, v.xs, cands);
      }
    }
  }
}
