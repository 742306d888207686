/**
 A lookup inside one partition: exact match, top-k search, purge of expired candidates, thresholds,
 guards and verifier; and what a hit guarantees.
 */
module PartitionLookup {
  import opened Lists
  import opened Wrappers
  import opened VectorIndex
  import opened Partitions

  /** The exact-match stage; an expired match is purged and the lookup goes on. */
  function ExactStage(p: Part, cfg: Config, query: string, now: real): (Part, Option<Outcome>) {
    var h := cfg.hash(query);
    if h !in p.exact || p.exact[h] !in p.entries then (p, None)
    else
      var id := p.exact[h];
      var e := p.entries[id];
      if Live(e, now) then (Touch(p, id), Some(Hit(id, e.response, 1.0, e.query, "exact")))
      else (RemoveEntry(p, id), None)
  }

  /** The first live candidate; expired ones before it are purged. */
  function Scan(p: Part, cands: seq<Candidate>, now: real): (Part, Option<Candidate>)
    decreases |cands|
  {
    if cands == [] then (p, None)
    else
      var c := cands[0];
      if c.id !in p.entries then Scan(p, cands[1..], now)
      else if !Live(p.entries[c.id], now) then Scan(RemoveEntry(p, c.id), cands[1..], now)
      else (p, Some(c))
  }

  /** Thresholds, guards and verifier decide about one candidate. */
  function Judge(p: Part, cfg: Config, query: string, c: Candidate): (Part, Outcome)
    requires c.id in p.entries
  {
    var e := p.entries[c.id];
    if c.score < cfg.tauVerify then (p, Miss("below_threshold", Some(c.score)))
    else match cfg.guard(query, e.query)
      case Some(reason) => (p, Miss("guard:" + reason, Some(c.score)))
      case None =>
        if c.score >= cfg.tauHit then (Touch(p, c.id), Hit(c.id, e.response, c.score, e.query, "semantic"))
        else if cfg.sameIntent(query, e.query) then
          (Touch(p, c.id), Hit(c.id, e.response, c.score, e.query, "semantic+verified"))
        else (p, Miss("verifier_rejected", Some(c.score)))
  }

  /** The similarity stage, given what the index returned. */
  function SimilarStage(p: Part, cfg: Config, query: string, now: real, cands: seq<Candidate>): (r: (Part, Outcome))
    ensures Scan(p, cands, now).1.None? ==> r.1 == Miss("no_live_candidates", None)
  {
    var scanned := Scan(p, cands, now);
    match scanned.1
    case None => (scanned.0, Miss("no_live_candidates", None))
    case Some(c) => ScanFinds(p, cands, now); Judge(scanned.0, cfg, query, c)
  }

  /** `_lookup_internal` inside a partition; `cands` matters only when the search is reached. */
  function LookupIn(p: Part, cfg: Config, query: string, now: real, v: Vector, cands: seq<Candidate>): (Part, Outcome) {
    if p.entries == map[] then (p, Miss("empty_partition", None))
    else
      var exact := ExactStage(p, cfg, query, now);
      if exact.1.Some? then (exact.0, exact.1.value)
      else if exact.0.entries == map[] then (exact.0, Miss("empty_partition", None))
      else if !Accepts(cfg.dim, v) then (exact.0, Raised)
      else SimilarStage(exact.0, cfg, query, now, cands)
  }

  /** If the search is reached, the candidates are what the index may return for the partition by then. */
  ghost predicate Searched(p: Part, cfg: Config, query: string, now: real, v: Vector, cands: seq<Candidate>) {
    var s := ExactStage(p, cfg, query, now);
    p.entries != map[] && s.1.None? && s.0.entries != map[] && Accepts(cfg.dim, v)
    ==> IsTopK(s.0.rows, v.xs, cfg.topK, cands)
  }

  // ----- coherence and live entries -----

  /** Live entries stay what they are, and nothing new appears. */
  predicate KeepsLive(p: Part, q: Part, now: real) {
    && (forall id | id in q.entries :: id in p.entries && q.entries[id] == p.entries[id])
    && (forall id | id in p.entries && Live(p.entries[id], now) :: id in q.entries)
  }

  lemma ExactKeepsLive(p: Part, cfg: Config, query: string, now: real)
    ensures KeepsLive(p, ExactStage(p, cfg, query, now).0, now)
  {
  }

  lemma ExactKeepsCoherent(p: Part, cfg: Config, query: string, now: real)
    requires Coherent(p, cfg)
    ensures Coherent(ExactStage(p, cfg, query, now).0, cfg)
  {
    var h := cfg.hash(query);
    if h in p.exact && p.exact[h] in p.entries {
      if Live(p.entries[p.exact[h]], now) {
        TouchKeepsCoherent(p, cfg, p.exact[h]);
      } else {
        RemoveKeepsCoherent(p, cfg, p.exact[h]);
      }
    }
  }

  lemma {:induction false} ScanFinds(p: Part, cands: seq<Candidate>, now: real)
    ensures var r := Scan(p, cands, now);
      r.1.Some? ==> r.1.value.id in r.0.entries && Live(r.0.entries[r.1.value.id], now) && r.1.value in cands
    decreases |cands|
  {
    if cands != [] {
      if cands[0].id !in p.entries {
        ScanFinds(p, cands[1..], now);
      } else if !Live(p.entries[cands[0].id], now) {
        ScanFinds(RemoveEntry(p, cands[0].id), cands[1..], now);
      }
    }
  }

  lemma {:induction false} ScanKeepsLive(p: Part, cands: seq<Candidate>, now: real)
    ensures KeepsLive(p, Scan(p, cands, now).0, now)
    decreases |cands|
  {
    if cands != [] {
      var id := cands[0].id;
      if id !in p.entries {
        ScanKeepsLive(p, cands[1..], now);
      } else if !Live(p.entries[id], now) {
        ScanKeepsLive(RemoveEntry(p, id), cands[1..], now);
      }
    }
  }

  lemma {:induction false} ScanKeepsCoherent(p: Part, cfg: Config, cands: seq<Candidate>, now: real)
    requires Coherent(p, cfg)
    ensures Coherent(Scan(p, cands, now).0, cfg)
    decreases |cands|
  {
    if cands != [] {
      var id := cands[0].id;
      if id !in p.entries {
        ScanKeepsCoherent(p, cfg, cands[1..], now);
      } else if !Live(p.entries[id], now) {
        RemoveKeepsCoherent(p, cfg, id);
        ScanKeepsCoherent(RemoveEntry(p, id), cfg, cands[1..], now);
      }
    }
  }

  lemma JudgeTouches(p: Part, cfg: Config, query: string, c: Candidate)
    requires c.id in p.entries
    ensures Judge(p, cfg, query, c).0 == p || Judge(p, cfg, query, c).0 == Touch(p, c.id)
  {
  }

  lemma JudgeKeepsCoherent(p: Part, cfg: Config, query: string, c: Candidate)
    requires Coherent(p, cfg) && c.id in p.entries
    ensures Coherent(Judge(p, cfg, query, c).0, cfg)
  {
    JudgeTouches(p, cfg, query, c);
    TouchKeepsCoherent(p, cfg, c.id);
  }

  lemma SimilarKeepsCoherent(p: Part, cfg: Config, query: string, now: real, cands: seq<Candidate>)
    requires Coherent(p, cfg)
    ensures Coherent(SimilarStage(p, cfg, query, now, cands).0, cfg)
  {
    ScanKeepsCoherent(p, cfg, cands, now);
    ScanFinds(p, cands, now);
    var scanned := Scan(p, cands, now);
    if scanned.1.Some? {
      JudgeKeepsCoherent(scanned.0, cfg, query, scanned.1.value);
    }
  }

  lemma LookupStages(p: Part, cfg: Config, query: string, now: real, v: Vector, cands: seq<Candidate>)
    ensures var q := ExactStage(p, cfg, query, now).0;
      var r := LookupIn(p, cfg, query, now, v, cands);
      && (r.0 == p || r.0 == q || r.0 == SimilarStage(q, cfg, query, now, cands).0)
      && (r.1.Hit? && r.1.reason != "exact" ==>
            && p.entries != map[] && ExactStage(p, cfg, query, now).1.None? && q.entries != map[]
            && Accepts(cfg.dim, v) && r.1 == SimilarStage(q, cfg, query, now, cands).1)
  {
  }

  /** A lookup keeps the four structures in agreement. */
  lemma LookupKeepsCoherent(p: Part, cfg: Config, query: string, now: real, v: Vector, cands: seq<Candidate>)
    requires Coherent(p, cfg)
    ensures Coherent(LookupIn(p, cfg, query, now, v, cands).0, cfg)
  {
    LookupStages(p, cfg, query, now, v, cands);
    ExactKeepsCoherent(p, cfg, query, now);
    SimilarKeepsCoherent(ExactStage(p, cfg, query, now).0, cfg, query, now, cands);
  }

  /** A lookup removes expired entries only. */
  lemma LookupKeepsLive(p: Part, cfg: Config, query: string, now: real, v: Vector, cands: seq<Candidate>)
    ensures KeepsLive(p, LookupIn(p, cfg, query, now, v, cands).0, now)
  {
    ExactKeepsLive(p, cfg, query, now);
    var q := ExactStage(p, cfg, query, now).0;
    ScanKeepsLive(q, cands, now);
    ScanFinds(q, cands, now);
    var scanned := Scan(q, cands, now);
    if scanned.1.Some? {
      JudgeTouches(scanned.0, cfg, query, scanned.1.value);
    }
  }

  // ----- the judged candidate is the best of all -----

  /** The score of an entry: the dot product of its row with the query. */
  function ScoreOf(p: Part, dim: nat, id: Id, xs: seq<real>): real
    requires Agrees(p, dim) && id in p.entries && |xs| == dim
  {
    RowExists(p, dim, id);
    Dot(p.rows[FindRow(p.rows, id).value].xs, xs)
  }

  lemma RowExists(p: Part, dim: nat, id: Id)
    requires Agrees(p, dim) && id in p.entries
    ensures FindRow(p.rows, id).Some?
  {
    assert id in RowIds(p.rows);
  }

  lemma ScoredIsScoreOf(p: Part, dim: nat, c: Candidate, xs: seq<real>)
    requires Agrees(p, dim) && |xs| == dim && Scored(p.rows, xs, c)
    ensures c.id in p.entries && ScoreOf(p, dim, c.id, xs) == c.score
  {
    var i :| 0 <= i < |p.rows| && p.rows[i].id == c.id && Dot(p.rows[i].xs, xs) == c.score;
    assert c.id in RowIds(p.rows);
    RowExists(p, dim, c.id);
    assert FindRow(p.rows, c.id).value == i;
  }

  /** Every candidate the scan passed over was dead. */
  lemma {:induction false} PassedOverAreDead(p: Part, cands: seq<Candidate>, now: real)
    requires forall i, j | 0 <= i < j < |cands| :: cands[i].id != cands[j].id
    requires forall j | 0 <= j < |cands| :: cands[j].id in p.entries
    ensures var r := Scan(p, cands, now).1;
      && (r.None? ==> forall j | 0 <= j < |cands| :: !Live(p.entries[cands[j].id], now))
      && (r.Some? ==> exists n :: 0 <= n < |cands| && cands[n] == r.value && Live(p.entries[r.value.id], now)
                               && forall j | 0 <= j < n :: !Live(p.entries[cands[j].id], now))
    decreases |cands|
  {
    if cands != [] && !Live(p.entries[cands[0].id], now) {
      var q, rest := RemoveEntry(p, cands[0].id), cands[1..];
      PassedOverAreDead(q, rest, now);
      var r := Scan(q, rest, now).1;
      if r.Some? {
        var n :| 0 <= n < |rest| && rest[n] == r.value && forall j | 0 <= j < n :: !Live(q.entries[rest[j].id], now);
        assert cands[n + 1] == r.value;
        forall j | 0 <= j < n + 1 ensures !Live(p.entries[cands[j].id], now) {
          assert j > 0 ==> cands[j] == rest[j - 1];
        }
      } else {
        forall j | 0 <= j < |cands| ensures !Live(p.entries[cands[j].id], now) {
          assert j > 0 ==> cands[j] == rest[j - 1];
        }
      }
    } else if cands != [] {
      assert cands[0] == cands[0];
    }
  }

  lemma CandidatesExist(p: Part, cfg: Config, xs: seq<real>, cands: seq<Candidate>)
    requires Coherent(p, cfg) && |xs| == cfg.dim && IsTopK(p.rows, xs, cfg.topK, cands)
    ensures forall j | 0 <= j < |cands| ::
      cands[j].id in p.entries && ScoreOf(p, cfg.dim, cands[j].id, xs) == cands[j].score
  {
    forall j | 0 <= j < |cands|
      ensures cands[j].id in p.entries && ScoreOf(p, cfg.dim, cands[j].id, xs) == cands[j].score
    {
      ScoredIsScoreOf(p, cfg.dim, cands[j], xs);
    }
  }

  /** The first live candidate beats the row of any live entry. */
  lemma FirstLiveBeats(p: Part, xs: seq<real>, cands: seq<Candidate>, now: real, row: Row, c: Candidate)
    requires forall i, j | 0 <= i < j < |cands| :: cands[i].id != cands[j].id && cands[i].score >= cands[j].score
    requires forall j | 0 <= j < |cands| :: cands[j].id in p.entries
    requires Beaten(row, xs, cands) && |row.xs| == |xs| && Scan(p, cands, now).1 == Some(c)
    requires row.id in p.entries && Live(p.entries[row.id], now)
    requires forall j | 0 <= j < |cands| && cands[j].id == row.id :: cands[j].score == Dot(row.xs, xs)
    ensures Dot(row.xs, xs) <= c.score && c in cands && Live(p.entries[c.id], now)
  {
    PassedOverAreDead(p, cands, now);
    var n :| 0 <= n < |cands| && cands[n] == c && forall j | 0 <= j < n :: !Live(p.entries[cands[j].id], now);
    if j :| 0 <= j < |cands| && cands[j].id == row.id {
      assert j >= n;
    } else {
      assert Dot(row.xs, xs) <= cands[n].score;
    }
  }

  /** The candidate that gets judged scores highest of all live entries, not just of the top k. */
  lemma JudgedIsBest(p: Part, cfg: Config, xs: seq<real>, cands: seq<Candidate>, now: real, id: Id)
    requires Coherent(p, cfg) && |xs| == cfg.dim && IsTopK(p.rows, xs, cfg.topK, cands)
    requires Scan(p, cands, now).1.Some? && id in p.entries && Live(p.entries[id], now)
    ensures var c := Scan(p, cands, now).1.value;
      && c.id in p.entries && Live(p.entries[c.id], now)
      && ScoreOf(p, cfg.dim, c.id, xs) == c.score
      && ScoreOf(p, cfg.dim, id, xs) <= c.score
  {
    CandidatesExist(p, cfg, xs, cands);
    RowExists(p, cfg.dim, id);
    FirstLiveBeats(p, xs, cands, now, p.rows[FindRow(p.rows, id).value], Scan(p, cands, now).1.value);
  }

  /** Nothing is judged exactly when every candidate is dead. */
  lemma NothingJudgedIffAllDead(p: Part, cfg: Config, xs: seq<real>, cands: seq<Candidate>, now: real)
    requires Coherent(p, cfg) && |xs| == cfg.dim && IsTopK(p.rows, xs, cfg.topK, cands)
    ensures Scan(p, cands, now).1.None?
       <==> forall j | 0 <= j < |cands| :: cands[j].id in p.entries && !Live(p.entries[cands[j].id], now)
  {
    CandidatesExist(p, cfg, xs, cands);
    PassedOverAreDead(p, cands, now);
  }

  function Dead(p: Part, now: real): set<Id> {
    set id | id in p.entries && !Live(p.entries[id], now)
  }

  function CandidateIds(cands: seq<Candidate>): set<Id> {
    set j | 0 <= j < |cands| :: cands[j].id
  }

  lemma {:induction false} CandidateIdCount(cands: seq<Candidate>)
    requires forall i, j | 0 <= i < j < |cands| :: cands[i].id != cands[j].id
    ensures |CandidateIds(cands)| == |cands|
  {
    if cands != [] {
      var n := |cands| - 1;
      CandidateIdCount(cands[..n]);
      assert CandidateIds(cands) == CandidateIds(cands[..n]) + {cands[n].id};
      assert cands[n].id !in CandidateIds(cands[..n]);
    }
  }

  /** With fewer dead entries than the top k, a partition that has a live entry judges one. */
  lemma FewDeadMeansJudged(p: Part, cfg: Config, xs: seq<real>, cands: seq<Candidate>, now: real, id: Id)
    requires Coherent(p, cfg) && |xs| == cfg.dim && IsTopK(p.rows, xs, cfg.topK, cands)
    requires |Dead(p, now)| < cfg.topK && id in p.entries && Live(p.entries[id], now)
    ensures Scan(p, cands, now).1.Some?
  {
    if Scan(p, cands, now).1.None? {
      NothingJudgedIffAllDead(p, cfg, xs, cands, now);
      CandidateIdCount(cands);
      SubsetCount(CandidateIds(cands), Dead(p, now));
      RowExists(p, cfg.dim, id);
      assert Beaten(p.rows[FindRow(p.rows, id).value], xs, cands);
      AllRowsListed(p, cfg, xs, cands, id);
    }
  }

  /** When every row is a candidate, so is the row of any entry. */
  lemma AllRowsListed(p: Part, cfg: Config, xs: seq<real>, cands: seq<Candidate>, id: Id)
    requires Coherent(p, cfg) && |xs| == cfg.dim && IsTopK(p.rows, xs, cfg.topK, cands) && id in p.entries
    ensures |cands| < cfg.topK ==> id in CandidateIds(cands)
  {
    if |cands| < cfg.topK {
      CandidatesExist(p, cfg, xs, cands);
      CandidateIdCount(cands);
      RowCount(p.rows);
      SubsetCount(CandidateIds(cands), p.entries.Keys);
    }
  }

  lemma {:induction false} RowCount(rows: seq<Row>)
    requires DistinctIds(rows)
    ensures |RowIds(rows)| == |rows|
  {
    if rows != [] {
      var n := |rows| - 1;
      RowCount(rows[..n]);
      assert RowIds(rows) == RowIds(rows[..n]) + {rows[n].id};
      assert rows[n].id !in RowIds(rows[..n]);
    }
  }

  // ----- what a hit guarantees -----

  /**
   A hit serves the stored response of a live entry of this partition: either the entry with the very hash
   of the query, or the live entry with the highest score, above the verify threshold and past the guards,
   and above the hit threshold or confirmed by the verifier.
   */
  lemma HitIsSound(p: Part, cfg: Config, query: string, now: real, v: Vector, cands: seq<Candidate>)
    requires Coherent(p, cfg) && Searched(p, cfg, query, now, v, cands)
    requires LookupIn(p, cfg, query, now, v, cands).1.Hit?
    ensures var hit := LookupIn(p, cfg, query, now, v, cands).1;
      && hit.id in p.entries && Live(p.entries[hit.id], now)
      && hit.response == p.entries[hit.id].response && hit.query == p.entries[hit.id].query
      && if hit.reason == "exact" then p.entries[hit.id].hash == cfg.hash(query)
         else && cfg.tauVerify <= hit.score && cfg.guard(query, hit.query).None?
              && (cfg.tauHit <= hit.score || cfg.sameIntent(query, hit.query))
              && Accepts(cfg.dim, v) && ScoreOf(p, cfg.dim, hit.id, v.xs) == hit.score
  {
    var exact := ExactStage(p, cfg, query, now);
    if exact.1.None? {
      ExactKeepsCoherent(p, cfg, query, now);
      ExactKeepsLive(p, cfg, query, now);
      SimilarHit(exact.0, cfg, query, now, v, cands);
      SameScore(p, exact.0, cfg, query, now, LookupIn(p, cfg, query, now, v, cands).1.id, v.xs);
    }
  }

  lemma JudgedHit(p: Part, cfg: Config, query: string, c: Candidate)
    requires c.id in p.entries && Judge(p, cfg, query, c).1.Hit?
    ensures var hit := Judge(p, cfg, query, c).1;
      && hit.id == c.id && hit.score == c.score && hit.reason != "exact"
      && hit.response == p.entries[c.id].response && hit.query == p.entries[c.id].query
      && cfg.tauVerify <= c.score && cfg.guard(query, hit.query).None?
      && (cfg.tauHit <= c.score || cfg.sameIntent(query, hit.query))
  {
  }

  lemma SimilarHit(p: Part, cfg: Config, query: string, now: real, v: Vector, cands: seq<Candidate>)
    requires Coherent(p, cfg) && Accepts(cfg.dim, v) && IsTopK(p.rows, v.xs, cfg.topK, cands)
    requires SimilarStage(p, cfg, query, now, cands).1.Hit?
    ensures var hit := SimilarStage(p, cfg, query, now, cands).1;
      && hit.id in p.entries && Live(p.entries[hit.id], now) && hit.reason != "exact"
      && hit.response == p.entries[hit.id].response && hit.query == p.entries[hit.id].query
      && cfg.tauVerify <= hit.score && cfg.guard(query, hit.query).None?
      && (cfg.tauHit <= hit.score || cfg.sameIntent(query, hit.query))
      && ScoreOf(p, cfg.dim, hit.id, v.xs) == hit.score
  {
    ScanFinds(p, cands, now);
    ScanKeepsLive(p, cands, now);
    var c := Scan(p, cands, now).1.value;
    JudgedHit(Scan(p, cands, now).0, cfg, query, c);
    CandidatesExist(p, cfg, v.xs, cands);
  }

  /** The exact stage does not change the row of an entry it keeps. */
  lemma SameScore(p: Part, q: Part, cfg: Config, query: string, now: real, id: Id, xs: seq<real>)
    requires Coherent(p, cfg) && q == ExactStage(p, cfg, query, now).0 && Coherent(q, cfg)
    requires id in p.entries && id in q.entries && |xs| == cfg.dim
    ensures ScoreOf(p, cfg.dim, id, xs) == ScoreOf(q, cfg.dim, id, xs)
  {
    RowExists(p, cfg.dim, id);
    RowExists(q, cfg.dim, id);
    var h := cfg.hash(query);
    if h in p.exact {
      RemoveRowIds(p.rows, p.exact[h]);
    }
    var j := FindRow(q.rows, id).value;
    assert q.rows[j] in p.rows;
    var i :| 0 <= i < |p.rows| && p.rows[i] == q.rows[j];
    assert FindRow(p.rows, id).value == i;
  }

  /** A semantic hit beats every live entry of the partition. */
  lemma SemanticHitIsBest(p: Part, cfg: Config, query: string, now: real, v: Vector, cands: seq<Candidate>, id: Id)
    requires Coherent(p, cfg) && Searched(p, cfg, query, now, v, cands)
    requires LookupIn(p, cfg, query, now, v, cands).1.Hit? && LookupIn(p, cfg, query, now, v, cands).1.reason != "exact"
    requires id in p.entries && Live(p.entries[id], now)
    ensures Accepts(cfg.dim, v)
    ensures ScoreOf(p, cfg.dim, id, v.xs) <= LookupIn(p, cfg, query, now, v, cands).1.score
  {
    ExactKeepsCoherent(p, cfg, query, now);
    ExactKeepsLive(p, cfg, query, now);
    LookupStages(p, cfg, query, now, v, cands);
    var q := ExactStage(p, cfg, query, now).0;
    SimilarHitIsBest(q, cfg, query, now, v.xs, cands, id);
    SameScore(p, q, cfg, query, now, id, v.xs);
  }

  lemma SimilarHitIsBest(p: Part, cfg: Config, query: string, now: real, xs: seq<real>, cands: seq<Candidate>, id: Id)
    requires Coherent(p, cfg) && |xs| == cfg.dim && IsTopK(p.rows, xs, cfg.topK, cands)
    requires SimilarStage(p, cfg, query, now, cands).1.Hit? && id in p.entries && Live(p.entries[id], now)
    ensures ScoreOf(p, cfg.dim, id, xs) <= SimilarStage(p, cfg, query, now, cands).1.score
  {
    JudgedScore(p, cfg, query, now, cands);
    JudgedIsBest(p, cfg, xs, cands, now, id);
  }

  lemma JudgedScore(p: Part, cfg: Config, query: string, now: real, cands: seq<Candidate>)
    requires SimilarStage(p, cfg, query, now, cands).1.Hit?
    ensures Scan(p, cands, now).1.Some?
      && SimilarStage(p, cfg, query, now, cands).1.score == Scan(p, cands, now).1.value.score
  {
    ScanFinds(p, cands, now);
    JudgedHit(Scan(p, cands, now).0, cfg, query, Scan(p, cands, now).1.value);
  }
}
