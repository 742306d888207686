/**
 One partition of the semantic cache: entries, recency order, exact-match map and vector rows, and the
 operations that must keep the four in agreement.
 */
module Partitions {
  import opened Lists
  import opened Wrappers
  import opened VectorIndex

  datatype Entry = Entry(query: string, hash: string, response: string, created: real, expires: Option<real>,
                         good: nat, bad: nat)

  datatype Part = Part(entries: map<Id, Entry>, order: seq<Id>, exact: map<string, Id>, rows: seq<Row>)

  const NO_PART := Part(map[], [], map[], [])

  /** Configuration, with the hash, guards and verifier the cache calls into. */
  datatype Config = Config(dim: nat, capacity: nat, topK: nat, tauVerify: real, tauHit: real,
                           hash: string -> string,
                           guard: (string, string) -> Option<string>,
                           sameIntent: (string, string) -> bool)

  datatype Outcome =
    | Hit(id: Id, response: string, score: real, query: string, reason: string)
    | Miss(reason: string, best: Option<real>)
    | Raised

  predicate Live(e: Entry, now: real) {
    !(e.expires.Some? && now >= e.expires.value)
  }

  /** Good feedback on an entry is counted. */
  function Praise(p: Part, id: Id): Part
    requires id in p.entries
  {
    p.(entries := p.entries[id := p.entries[id].(good := p.entries[id].good + 1)])
  }

  // ----- recency order -----

  function DropId(order: seq<Id>, id: Id): seq<Id> {
    if order == [] then []
    else if order[0] == id then order[1..]
    else [order[0]] + DropId(order[1..], id)
  }

  function MoveToEnd(order: seq<Id>, id: Id): seq<Id> {
    DropId(order, id) + [id]
  }

  function Ids(order: seq<Id>): set<Id> {
    set i | 0 <= i < |order| :: order[i]
  }

  lemma {:induction false} DropIdIds(order: seq<Id>, id: Id)
    requires Distinct(order)
    ensures Distinct(DropId(order, id)) && Ids(DropId(order, id)) == Ids(order) - {id}
  {
    if order != [] {
      var head, tail := order[0], order[1..];
      assert Ids(order) == {head} + Ids(tail) by {
        forall x | x in Ids(order) ensures x in {head} + Ids(tail) {
          var i :| 0 <= i < |order| && order[i] == x;
          assert i > 0 ==> tail[i - 1] == x;
        }
        forall x | x in Ids(tail) ensures x in Ids(order) {
          var i :| 0 <= i < |tail| && tail[i] == x;
          assert order[i + 1] == x;
        }
      }
      assert head !in Ids(tail);
      if head != id {
        DropIdIds(tail, id);
        IdsCons(head, DropId(tail, id));
      }
    }
  }

  lemma IdsCons(head: Id, tail: seq<Id>)
    requires Distinct(tail) && head !in Ids(tail)
    ensures Distinct([head] + tail) && Ids([head] + tail) == {head} + Ids(tail)
  {
    var all := [head] + tail;
    forall i | 0 <= i < |tail| ensures tail[i] in Ids(tail) && all[i + 1] == tail[i] {
    }
    assert all[0] == head;
    forall x | x in Ids(all) ensures x in {head} + Ids(tail) {
      var i :| 0 <= i < |all| && all[i] == x;
    }
    forall x | x in {head} + Ids(tail) ensures x in Ids(all) {
      if x != head {
        var i :| 0 <= i < |tail| && tail[i] == x;
        assert all[i + 1] == x;
      }
    }
  }

  lemma IdsSnoc(order: seq<Id>, id: Id)
    requires Distinct(order) && id !in Ids(order)
    ensures Distinct(order + [id]) && Ids(order + [id]) == Ids(order) + {id}
  {
    var all := order + [id];
    forall i | 0 <= i < |order| ensures order[i] in Ids(order) && all[i] == order[i] {
    }
    assert all[|order|] == id;
    forall x | x in Ids(order) + {id} ensures x in Ids(all) {
      if x != id {
        var i :| 0 <= i < |order| && order[i] == x;
        assert all[i] == x;
      }
    }
  }

  // ----- agreement -----

  predicate ExactAgrees(entries: map<Id, Entry>, exact: map<string, Id>) {
    && (forall h | h in exact :: exact[h] in entries && entries[exact[h]].hash == h)
    && (forall id | id in entries :: entries[id].hash in exact && exact[entries[id].hash] == id)
  }

  /** The four structures hold exactly the same entries, each once. */
  ghost predicate Agrees(p: Part, dim: nat) {
    && Distinct(p.order) && Ids(p.order) == p.entries.Keys
    && DistinctIds(p.rows) && RowIds(p.rows) == p.entries.Keys && Uniform(p.rows, dim)
    && ExactAgrees(p.entries, p.exact)
  }

  /** Agreement, within capacity. */
  ghost predicate Coherent(p: Part, cfg: Config) {
    Agrees(p, cfg.dim) && |p.entries| <= cfg.capacity
  }

  // ----- operations -----

  /** `_remove_entry`, on the partition. */
  function RemoveEntry(p: Part, id: Id): Part {
    Part(p.entries - {id},
         DropId(p.order, id),
         if id in p.entries && p.entries[id].hash in p.exact && p.exact[p.entries[id].hash] == id
         then p.exact - {p.entries[id].hash} else p.exact,
         RemoveRow(p.rows, id))
  }

  function Touch(p: Part, id: Id): Part {
    p.(order := MoveToEnd(p.order, id))
  }

  /** The same query again: the entry is refreshed in place and re-embedded. */
  function Upsert(p: Part, dim: nat, id: Id, query: string, response: string, now: real, expires: Option<real>,
                  v: Vector): Part
    requires id in p.entries && Accepts(dim, v)
  {
    var e := p.entries[id].(query := query, response := response, created := now, expires := expires);
    Touch(p.(rows := AddRow(p.rows, dim, id, v).value, entries := p.entries[id := e]), id)
  }

  /** `_evict_lru`, on the partition. */
  function EvictLru(p: Part): Part {
    if p.order == [] then p else RemoveEntry(p, p.order[0])
  }

  function Room(p: Part, cfg: Config): Part {
    if |p.entries| >= cfg.capacity then EvictLru(p) else p
  }

  /** The rows once the entry that had to go is gone from them. */
  function RoomRows(p: Part, cfg: Config, rows: seq<Row>): seq<Row> {
    if |p.entries| >= cfg.capacity && p.order != [] then RemoveRow(rows, p.order[0]) else rows
  }

  /** A new query: index it, make room, install it. */
  function Insert(p: Part, cfg: Config, id: Id, e: Entry, v: Vector): Part
    requires Accepts(cfg.dim, v)
  {
    var room := Room(p, cfg);
    Part(room.entries[id := e], room.order + [id], room.exact[e.hash := id],
         RoomRows(p, cfg, AddRow(p.rows, cfg.dim, id, v).value))
  }

  // ----- every operation keeps the agreement -----

  lemma RemoveKeepsAgreement(p: Part, dim: nat, id: Id)
    requires Agrees(p, dim)
    ensures Agrees(RemoveEntry(p, id), dim)
  {
    DropIdIds(p.order, id);
    RemoveRowIds(p.rows, id);
  }

  lemma RemoveCounts(entries: map<Id, Entry>, id: Id)
    ensures |entries - {id}| == |entries| - if id in entries then 1 else 0
  {
    var left := entries - {id};
    assert |entries| == |entries.Keys| && |left| == |left.Keys|;
    if id in entries {
      assert entries.Keys == left.Keys + {id};
    } else {
      assert entries.Keys == left.Keys;
    }
  }

  lemma RemoveKeepsCoherent(p: Part, cfg: Config, id: Id)
    requires Coherent(p, cfg)
    ensures Coherent(RemoveEntry(p, id), cfg)
  {
    RemoveKeepsAgreement(p, cfg.dim, id);
    RemoveCounts(p.entries, id);
  }

  lemma TouchKeepsCoherent(p: Part, cfg: Config, id: Id)
    requires Coherent(p, cfg) && id in p.entries
    ensures Coherent(Touch(p, id), cfg)
  {
    DropIdIds(p.order, id);
    IdsSnoc(DropId(p.order, id), id);
  }

  lemma UpsertKeepsCoherent(p: Part, cfg: Config, id: Id, query: string, response: string, now: real,
                            expires: Option<real>, v: Vector)
    requires Coherent(p, cfg) && id in p.entries && Accepts(cfg.dim, v)
    ensures Coherent(Upsert(p, cfg.dim, id, query, response, now, expires, v), cfg)
  {
    var e := p.entries[id].(query := query, response := response, created := now, expires := expires);
    var rows := AddRow(p.rows, cfg.dim, id, v).value;
    AddRowIds(p.rows, cfg.dim, id, v);
    RefreshKeepsCoherent(p, cfg, id, e, rows);
    TouchKeepsCoherent(p.(rows := rows, entries := p.entries[id := e]), cfg, id);
  }

  lemma RefreshKeepsCoherent(p: Part, cfg: Config, id: Id, e: Entry, rows: seq<Row>)
    requires Coherent(p, cfg) && id in p.entries && e.hash == p.entries[id].hash
    requires DistinctIds(rows) && RowIds(rows) == p.entries.Keys && Uniform(rows, cfg.dim)
    ensures Coherent(p.(rows := rows, entries := p.entries[id := e]), cfg)
  {
    var entries := p.entries[id := e];
    assert entries.Keys == p.entries.Keys;
    assert |entries| == |entries.Keys| == |p.entries|;
    RefreshKeepsExact(p.entries, p.exact, id, e);
  }

  lemma RefreshKeepsExact(entries: map<Id, Entry>, exact: map<string, Id>, id: Id, e: Entry)
    requires ExactAgrees(entries, exact) && id in entries && e.hash == entries[id].hash
    ensures ExactAgrees(entries[id := e], exact)
  {
  }

  /** A full partition has an oldest entry. */
  lemma OldestExists(p: Part, dim: nat)
    requires Agrees(p, dim) && |p.entries| > 0
    ensures p.order != [] && p.order[0] in p.entries
  {
    assert |p.entries.Keys| > 0;
    var x :| x in p.entries.Keys;
    assert x in Ids(p.order);
    assert p.order[0] in Ids(p.order);
  }

  /** Making room leaves fewer entries than the capacity, and agreement. */
  lemma RoomIsMade(p: Part, cfg: Config)
    requires Coherent(p, cfg) && cfg.capacity >= 1
    ensures Agrees(Room(p, cfg), cfg.dim) && |Room(p, cfg).entries| < cfg.capacity
    ensures Room(p, cfg).entries.Keys <= p.entries.Keys && Room(p, cfg).exact.Keys <= p.exact.Keys
  {
    if |p.entries| >= cfg.capacity {
      OldestExists(p, cfg.dim);
      RemoveKeepsAgreement(p, cfg.dim, p.order[0]);
      RemoveCounts(p.entries, p.order[0]);
    }
  }

  /** The entries a full partition keeps are those other than the oldest. */
  lemma RoomKeys(p: Part, cfg: Config)
    requires |p.entries| >= cfg.capacity ==> p.order != []
    ensures Room(p, cfg).entries.Keys == if |p.entries| >= cfg.capacity then p.entries.Keys - {p.order[0]}
      else p.entries.Keys
  {
  }

  /** Indexing the new row first and evicting second leaves the rows of what is kept, and the new one. */
  lemma RoomThenRow(p: Part, cfg: Config, id: Id, v: Vector)
    requires DistinctIds(p.rows) && RowIds(p.rows) == p.entries.Keys && Uniform(p.rows, cfg.dim)
    requires |p.entries| >= cfg.capacity ==> p.order != [] && p.order[0] in p.entries
    requires id !in p.entries && Accepts(cfg.dim, v)
    ensures var rows := RoomRows(p, cfg, AddRow(p.rows, cfg.dim, id, v).value);
      DistinctIds(rows) && Uniform(rows, cfg.dim) && RowIds(rows) == Room(p, cfg).entries.Keys + {id}
  {
    RoomKeys(p, cfg);
    var all := AddRow(p.rows, cfg.dim, id, v).value;
    AddRowIds(p.rows, cfg.dim, id, v);
    RowsAfterRoom(p, cfg, all, id);
  }

  lemma RowsAfterRoom(p: Part, cfg: Config, all: seq<Row>, id: Id)
    requires DistinctIds(all) && Uniform(all, cfg.dim) && RowIds(all) == p.entries.Keys + {id} && id !in p.entries
    requires |p.entries| >= cfg.capacity ==> p.order != [] && p.order[0] in p.entries
    ensures var rows := RoomRows(p, cfg, all);
      && DistinctIds(rows) && Uniform(rows, cfg.dim)
      && RowIds(rows) == (if |p.entries| >= cfg.capacity then p.entries.Keys - {p.order[0]} else p.entries.Keys) + {id}
  {
    if |p.entries| >= cfg.capacity {
      RowsWithout(all, p.entries.Keys, p.order[0], id, cfg.dim);
    }
  }

  lemma RowsWithout(rows: seq<Row>, keys: set<Id>, lru: Id, id: Id, dim: nat)
    requires DistinctIds(rows) && Uniform(rows, dim) && RowIds(rows) == keys + {id} && lru != id
    ensures var left := RemoveRow(rows, lru);
      DistinctIds(left) && Uniform(left, dim) && RowIds(left) == (keys - {lru}) + {id}
  {
    RemoveRowUniform(rows, lru, dim);
    RemoveRowIds(rows, lru);
  }

  lemma ExactAdds(entries: map<Id, Entry>, exact: map<string, Id>, id: Id, e: Entry)
    requires ExactAgrees(entries, exact) && id !in entries && e.hash !in exact
    ensures ExactAgrees(entries[id := e], exact[e.hash := id])
  {
  }

  lemma InsertKeepsCoherent(p: Part, cfg: Config, id: Id, e: Entry, v: Vector)
    requires Coherent(p, cfg) && cfg.capacity >= 1 && id !in p.entries && Accepts(cfg.dim, v)
    requires e.hash !in p.exact
    ensures Coherent(Insert(p, cfg, id, e, v), cfg)
  {
    RoomIsMade(p, cfg);
    if |p.entries| >= cfg.capacity {
      OldestExists(p, cfg.dim);
    }
    RoomThenRow(p, cfg, id, v);
    InstalledAgrees(Room(p, cfg), cfg, id, e, RoomRows(p, cfg, AddRow(p.rows, cfg.dim, id, v).value));
  }

  lemma InstalledAgrees(room: Part, cfg: Config, id: Id, e: Entry, rows: seq<Row>)
    requires Agrees(room, cfg.dim) && |room.entries| < cfg.capacity && id !in room.entries && e.hash !in room.exact
    requires DistinctIds(rows) && Uniform(rows, cfg.dim) && RowIds(rows) == room.entries.Keys + {id}
    ensures Coherent(Part(room.entries[id := e], room.order + [id], room.exact[e.hash := id], rows), cfg)
  {
    IdsSnoc(room.order, id);
    ExactAdds(room.entries, room.exact, id, e);
    AddCounts(room.entries, id, e);
  }

  lemma AddCounts(entries: map<Id, Entry>, id: Id, e: Entry)
    requires id !in entries
    ensures entries[id := e].Keys == entries.Keys + {id} && |entries[id := e]| == |entries| + 1
  {
    assert entries[id := e].Keys == entries.Keys + {id};
    assert |entries[id := e]| == |entries[id := e].Keys|;
  }
}
