/**
 The brute-force vector index: parallel lists of ids and rows, and a top-k search by dot product.
 */
module VectorIndex {
  import opened Lists
  import opened Wrappers

  /** An entry id: the tenant and a number no other entry has. */
  datatype Id = Id(tenant: string, n: nat)

  /** What an embedder returns; `NotFinite` has an infinity or NaN among its components. */
  datatype Vector = Finite(xs: seq<real>) | NotFinite

  datatype Row = Row(id: Id, xs: seq<real>)

  datatype Candidate = Candidate(id: Id, score: real)

  predicate Accepts(dim: nat, v: Vector) {
    v.Finite? && |v.xs| == dim
  }

  function Dot(a: seq<real>, b: seq<real>): real
    requires |a| == |b|
  {
    if a == [] then 0.0 else a[0] * b[0] + Dot(a[1..], b[1..])
  }

  predicate DistinctIds(rows: seq<Row>) {
    forall i, j | 0 <= i < j < |rows| :: rows[i].id != rows[j].id
  }

  predicate Uniform(rows: seq<Row>, dim: nat) {
    forall i | 0 <= i < |rows| :: |rows[i].xs| == dim
  }

  function RowIds(rows: seq<Row>): set<Id> {
    set i | 0 <= i < |rows| :: rows[i].id
  }

  function FindRow(rows: seq<Row>, id: Id): (r: Option<nat>)
    ensures r.Some? ==> r.value < |rows| && rows[r.value].id == id
    ensures r.None? ==> forall i | 0 <= i < |rows| :: rows[i].id != id
  {
    if rows == [] then None
    else if rows[0].id == id then Some(0)
    else match FindRow(rows[1..], id) case Some(i) => Some(i + 1) case None => None
  }

  /** `remove`: nothing happens if the id is absent. */
  function RemoveRow(rows: seq<Row>, id: Id): seq<Row> {
    match FindRow(rows, id)
    case Some(i) => rows[..i] + rows[i + 1..]
    case None => rows
  }

  /** `add`: an id already there is replaced; None where the source raises. */
  function AddRow(rows: seq<Row>, dim: nat, id: Id, v: Vector): Option<seq<Row>> {
    if !Accepts(dim, v) then None else Some(RemoveRow(rows, id) + [Row(id, v.xs)])
  }

  lemma RemoveRowIds(rows: seq<Row>, id: Id)
    requires DistinctIds(rows)
    ensures DistinctIds(RemoveRow(rows, id)) && RowIds(RemoveRow(rows, id)) == RowIds(rows) - {id}
    ensures forall i | 0 <= i < |RemoveRow(rows, id)| :: RemoveRow(rows, id)[i] in rows
  {
    match FindRow(rows, id)
    case Some(p) =>
      CutRows(rows, p);
      CutRowIds(rows, p);
    case None =>
  }

  lemma CutRows(rows: seq<Row>, p: nat)
    requires DistinctIds(rows) && p < |rows|
    ensures var r := rows[..p] + rows[p + 1..];
      DistinctIds(r) && forall i | 0 <= i < |r| :: r[i] in rows && r[i].id != rows[p].id
  {
  }

  lemma CutRowIds(rows: seq<Row>, p: nat)
    requires DistinctIds(rows) && p < |rows|
    ensures RowIds(rows[..p] + rows[p + 1..]) == RowIds(rows) - {rows[p].id}
  {
    var r := rows[..p] + rows[p + 1..];
    forall x | x in RowIds(rows) - {rows[p].id} ensures x in RowIds(r) {
      var i :| 0 <= i < |rows| && rows[i].id == x;
      assert r[if i < p then i else i - 1].id == x;
    }
    forall x | x in RowIds(r) ensures x in RowIds(rows) - {rows[p].id} {
      var i :| 0 <= i < |r| && r[i].id == x;
      assert rows[if i < p then i else i + 1].id == x;
    }
  }

  lemma RemoveRowUniform(rows: seq<Row>, id: Id, dim: nat)
    requires Uniform(rows, dim)
    ensures Uniform(RemoveRow(rows, id), dim)
  {
  }

  lemma AddRowIds(rows: seq<Row>, dim: nat, id: Id, v: Vector)
    requires DistinctIds(rows) && Uniform(rows, dim) && Accepts(dim, v)
    ensures var r := AddRow(rows, dim, id, v).value;
      DistinctIds(r) && Uniform(r, dim) && RowIds(r) == RowIds(rows) + {id}
  {
    RemoveRowIds(rows, id);
    var kept := RemoveRow(rows, id);
    var r := kept + [Row(id, v.xs)];
    forall i | 0 <= i < |kept| ensures kept[i].id != id && |kept[i].xs| == dim {
      assert kept[i].id in RowIds(kept);
    }
    forall x | x in RowIds(kept) + {id} ensures x in RowIds(r) {
      if x == id {
        assert r[|kept|].id == id;
      } else {
        var i :| 0 <= i < |kept| && kept[i].id == x;
        assert r[i].id == x;
      }
    }
  }

  // ----- search -----

  /** The score of an id is the dot product of its row with the query. */
  predicate Scored(rows: seq<Row>, xs: seq<real>, c: Candidate) {
    exists i :: 0 <= i < |rows| && rows[i].id == c.id && |rows[i].xs| == |xs| && Dot(rows[i].xs, xs) == c.score
  }

  /** No row outside the candidates scores more than any candidate. */
  predicate Beaten(row: Row, xs: seq<real>, top: seq<Candidate>) {
    || (exists j :: 0 <= j < |top| && top[j].id == row.id)
    || (|row.xs| == |xs| && forall j | 0 <= j < |top| :: Dot(row.xs, xs) <= top[j].score)
  }

  /** The k best rows, best first; how ties fall is numpy's business. */
  ghost predicate IsTopK(rows: seq<Row>, xs: seq<real>, k: int, top: seq<Candidate>) {
    && |top| == (if k <= 0 then 0 else if k < |rows| then k else |rows|)
    && (forall j | 0 <= j < |top| :: Scored(rows, xs, top[j]))
    && (forall i, j | 0 <= i < j < |top| :: top[i].id != top[j].id && top[i].score >= top[j].score)
    && (forall i | 0 <= i < |rows| :: Beaten(rows[i], xs, top))
  }

  /** The rows picked so far, best first, and nothing better left. */
  ghost predicate Picked(scores: seq<real>, picks: seq<nat>) {
    && (forall i, j | 0 <= i < j < |picks| :: picks[i] != picks[j])
    && (forall j | 0 <= j < |picks| :: picks[j] < |scores|)
    && (forall i, j | 0 <= i < j < |picks| :: scores[picks[i]] >= scores[picks[j]])
    && (forall i, j | 0 <= i < |scores| && i !in picks && 0 <= j < |picks| :: scores[i] <= scores[picks[j]])
  }

  lemma PickBest(scores: seq<real>, picks: seq<nat>, best: nat)
    requires Picked(scores, picks) && best < |scores| && best !in picks
    requires forall i | 0 <= i < |scores| && i !in picks :: scores[i] <= scores[best]
    ensures Picked(scores, picks + [best])
  {
  }

  function Listed(rows: seq<Row>, scores: seq<real>, picks: seq<nat>): seq<Candidate>
    requires |scores| == |rows| && forall j | 0 <= j < |picks| :: picks[j] < |rows|
  {
    seq(|picks|, j requires 0 <= j < |picks| => Candidate(rows[picks[j]].id, scores[picks[j]]))
  }

  lemma ListedBeats(rows: seq<Row>, xs: seq<real>, scores: seq<real>, picks: seq<nat>, i: nat)
    requires Uniform(rows, |xs|) && |scores| == |rows| && Picked(scores, picks) && i < |rows|
    requires forall j | 0 <= j < |rows| :: scores[j] == Dot(rows[j].xs, xs)
    ensures Beaten(rows[i], xs, Listed(rows, scores, picks))
  {
    var top := Listed(rows, scores, picks);
    if i in picks {
      var j :| 0 <= j < |picks| && picks[j] == i;
      assert top[j].id == rows[i].id;
    } else {
      assert forall j | 0 <= j < |top| :: scores[i] <= top[j].score;
    }
  }

  lemma ListedOrder(rows: seq<Row>, scores: seq<real>, picks: seq<nat>, i: nat, j: nat)
    requires DistinctIds(rows) && |scores| == |rows| && Picked(scores, picks) && i < j < |picks|
    ensures var top := Listed(rows, scores, picks); top[i].id != top[j].id && top[i].score >= top[j].score
  {
    assert picks[i] != picks[j] && picks[i] < |rows| && picks[j] < |rows|;
    assert rows[picks[i]].id != rows[picks[j]].id;
  }

  lemma PickedIsTopK(rows: seq<Row>, xs: seq<real>, scores: seq<real>, picks: seq<nat>, k: int)
    requires DistinctIds(rows) && Uniform(rows, |xs|) && |scores| == |rows|
    requires forall i | 0 <= i < |rows| :: scores[i] == Dot(rows[i].xs, xs)
    requires Picked(scores, picks) && |picks| == (if k <= 0 then 0 else if k < |rows| then k else |rows|)
    ensures IsTopK(rows, xs, k, Listed(rows, scores, picks))
  {
    var top := Listed(rows, scores, picks);
    forall j | 0 <= j < |top| ensures Scored(rows, xs, top[j]) {
      assert rows[picks[j]].id == top[j].id;
    }
    forall i, j | 0 <= i < j < |top| ensures top[i].id != top[j].id && top[i].score >= top[j].score {
      ListedOrder(rows, scores, picks, i, j);
    }
    forall i | 0 <= i < |rows| ensures Beaten(rows[i], xs, top) {
      ListedBeats(rows, xs, scores, picks, i);
    }
  }

  class NumpyIndex {
    const dim: nat
    var ids: seq<Id>
    var matrix: seq<seq<real>>

    ghost predicate Valid()
      reads this
    {
      |ids| == |matrix| && DistinctIds(Rows()) && Uniform(Rows(), dim)
    }

    function Rows(): (r: seq<Row>)
      requires |ids| == |matrix|
      reads this
      ensures |r| == |ids| && forall i | 0 <= i < |r| :: r[i] == Row(ids[i], matrix[i])
    {
      seq(|ids|, i requires 0 <= i < |ids| && |ids| == |matrix| reads this => Row(ids[i], matrix[i]))
    }

    constructor (dim: nat)
      ensures Valid() && Rows() == [] && this.dim == dim
    {
      this.dim := dim;
      ids := [];
      matrix := [];
    }

    /** ok is false where the source raises; nothing has changed then. */
    method Add(id: Id, v: Vector) returns (ok: bool)
      requires Valid()
      modifies this
      ensures Valid() && ok == Accepts(dim, v)
      ensures Rows() == if ok then AddRow(old(Rows()), dim, id, v).value else old(Rows())
    {
      if !(v.Finite? && |v.xs| == dim) {
        return false;
      }
      AddRowIds(Rows(), dim, id, v);
      Displace(id);
      ghost var kept := Rows();
      ids := ids + [id];
      matrix := matrix + [v.xs];
      assert Rows() == kept + [Row(id, v.xs)];
      return true;
    }

    /** An id about to be added gives up the row it has. */
    method Displace(id: Id)
      requires Valid()
      modifies this
      ensures Valid() && Rows() == RemoveRow(old(Rows()), id)
    {
      if id in ids {
        Remove(id);
      } else {
        AbsentRow(id);
      }
    }

    lemma AbsentRow(id: Id)
      requires Valid() && id !in ids
      ensures FindRow(Rows(), id) == None
    {
      forall i | 0 <= i < |ids| ensures Rows()[i].id != id {
        assert ids[i] in ids;
      }
    }

    method Remove(id: Id)
      requires Valid()
      modifies this
      ensures Valid() && Rows() == RemoveRow(old(Rows()), id)
    {
      RemoveRowIds(Rows(), id);
      ghost var rows := Rows();
      var i := 0;
      while i < |ids| && ids[i] != id
        invariant 0 <= i <= |ids| && forall j | 0 <= j < i :: ids[j] != id
      {
        i := i + 1;
      }
      if i == |ids| {
        AbsentRow(id);
        return;
      }
      assert rows[i].id == id && FindRow(rows, id) == Some(i);
      ids := ids[..i] + ids[i + 1..];
      matrix := matrix[..i] + matrix[i + 1..];
      assert Rows() == rows[..i] + rows[i + 1..];
    }

    /** `matrix @ vector`. */
    method Scores(xs: seq<real>) returns (scores: seq<real>)
      requires Valid() && |xs| == dim
      ensures |scores| == |Rows()| && forall i | 0 <= i < |scores| :: scores[i] == Dot(Rows()[i].xs, xs)
    {
      scores := [];
      for i := 0 to |matrix|
        invariant |scores| == i && forall j | 0 <= j < i :: scores[j] == Dot(Rows()[j].xs, xs)
      {
        scores := scores + [Dot(Rows()[i].xs, xs)];
      }
    }

    /** The best row not yet picked. */
    method BestLeft(scores: seq<real>, picks: seq<nat>) returns (best: nat)
      requires exists i: nat :: i < |scores| && i !in picks
      ensures best < |scores| && best !in picks
      ensures forall i | 0 <= i < |scores| && i !in picks :: scores[i] <= scores[best]
    {
      best := 0;
      for i := 0 to |scores|
        invariant best < |scores|
        invariant (exists j | 0 <= j < i :: j !in picks) ==> best !in picks
        invariant forall j | 0 <= j < i && j !in picks :: best !in picks && scores[j] <= scores[best]
      {
        if i !in picks && (best in picks || scores[i] > scores[best]) {
          best := i;
        }
      }
    }

    /** Up to k candidates, best first; None where the source raises. */
    method Search(v: Vector, k: int) returns (top: Option<seq<Candidate>>)
      requires Valid()
      ensures top.None? <==> ids != [] && k > 0 && !Accepts(dim, v)
      ensures top.Some? && ids != [] && k > 0 ==> IsTopK(Rows(), v.xs, k, top.value)
      ensures top.Some? && (ids == [] || k <= 0) ==> top.value == []
    {
      if ids == [] || k <= 0 {
        return Some([]);
      }
      if !(v.Finite? && |v.xs| == dim) {
        return None;
      }
      var scores := Scores(v.xs);
      var n := if k < |ids| then k else |ids|;
      var picks: seq<nat> := [];
      for j := 0 to n
        invariant |picks| == j && Picked(scores, picks)
      {
        SomeLeft(|scores|, picks);
        var best := BestLeft(scores, picks);
        PickBest(scores, picks, best);
        picks := picks + [best];
      }
      PickedIsTopK(Rows(), v.xs, scores, picks, k);
      return Some(Listed(Rows(), scores, picks));
    }
  }

  function Below(n: nat): (r: set<nat>)
    ensures |r| == n && forall i: nat :: i in r <==> i < n
  {
    if n == 0 then {} else Below(n - 1) + {n - 1}
  }

  function Elements(picks: seq<nat>): (r: set<nat>)
    ensures |r| <= |picks| && forall p :: p in r <==> p in picks
  {
    if picks == [] then {} else {picks[0]} + Elements(picks[1..])
  }

  /** Fewer picks than rows leave a row. */
  lemma SomeLeft(n: nat, picks: seq<nat>)
    requires |picks| < n
    ensures exists i: nat :: i < n && i !in picks
  {
    if Below(n) <= Elements(picks) {
      SubsetCount(Below(n), Elements(picks));
      assert false;
    }
    var i :| i in Below(n) && i !in Elements(picks);
  }
}
