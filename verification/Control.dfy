/**
 The lock sections of the control plane's service: approvals, quarantine, and the memo of diff results,
 which holds futures so that identical requests share one diff.
 */
module Control {
  import opened Lists
  import opened Wrappers

  type Hash = string

  datatype Subject = Subject(server: string, tool: string)

  datatype HashPair = HashPair(before: Hash, after: Hash)

  /** A change with the hashes control computed itself, those the proxy claimed, and its risk class. */
  datatype Request = Request(subject: Subject, key: HashPair, claimed: HashPair, risk: string)

  /** A memo slot: the future that holds, or will hold, the analysis of a hash pair. */
  datatype Slot = Slot(key: HashPair, future: nat)

  datatype Stats = Stats(changes: nat, hits: nat, misses: nat, mismatches: nat, approvedHits: nat)

  /** What the lock guards; the memo is in order of use, least recent first. */
  datatype Shared = Shared(
    cache: seq<Slot>,
    approved: map<Subject, Hash>,
    quarantine: set<Subject>,
    stats: Stats,
    nextFuture: nat)

  const EMPTY := Shared([], map[], {}, Stats(0, 0, 0, 0, 0), 0)

  predicate IsApproved(s: Shared, req: Request) {
    req.subject in s.approved && s.approved[req.subject] == req.key.after
  }

  /** Where the memo keeps a key. */
  function Lookup(cache: seq<Slot>, key: HashPair): (r: Option<nat>)
    ensures r.Some? ==> r.value < |cache| && cache[r.value].key == key
    ensures r.None? ==> forall i | 0 <= i < |cache| :: cache[i].key != key
  {
    if cache == [] then None
    else if cache[0].key == key then Some(0)
    else match Lookup(cache[1..], key) case Some(i) => Some(i + 1) case None => None
  }

  /** Keep the `size` most recently used slots. */
  function Trim(cache: seq<Slot>, size: nat): seq<Slot> {
    if |cache| > size then cache[|cache| - size..] else cache
  }

  // ----- the sections -----

  /** Count the change; an approved hash is answered at once. */
  function Admit(s: Shared, req: Request): (Shared, bool) {
    var counted := s.stats.(
      changes := s.stats.changes + 1,
      mismatches := s.stats.mismatches + if req.claimed != req.key then 1 else 0);
    if IsApproved(s, req) then (s.(stats := counted.(approvedHits := counted.approvedHits + 1)), true)
    else (s.(stats := counted), false)
  }

  /** Found: the slot becomes the most recently used. */
  function Share(s: Shared, i: nat): Shared
    requires i < |s.cache|
  {
    s.(cache := Without(s.cache, i) + [s.cache[i]], stats := s.stats.(hits := s.stats.hits + 1))
  }

  /** Not found: a new future takes a slot, and the least recently used beyond the bound go. */
  function Claim(s: Shared, size: nat, key: HashPair): Shared {
    s.(cache := Trim(s.cache + [Slot(key, s.nextFuture)], size),
       stats := s.stats.(misses := s.stats.misses + 1),
       nextFuture := s.nextFuture + 1)
  }

  /** The future of a key, and whether the caller must compute it. */
  function Reserve(s: Shared, size: nat, key: HashPair): (Shared, nat, bool) {
    match Lookup(s.cache, key)
    case Some(i) => (Share(s, i), s.cache[i].future, false)
    case None => (Claim(s, size, key), s.nextFuture, true)
  }

  /** A failed diff leaves no slot for its key, whoever owns it by now. */
  function Forget(s: Shared, key: HashPair): Shared {
    match Lookup(s.cache, key)
    case Some(i) => s.(cache := Without(s.cache, i))
    case None => s
  }

  /** The last section of a request: an approval made meanwhile wins over the verdict. */
  function Conclude(s: Shared, req: Request, verdict: string): (Shared, bool) {
    if IsApproved(s, req) then (s.(stats := s.stats.(approvedHits := s.stats.approvedHits + 1)), true)
    else (s.(quarantine := if verdict == "quarantine" then s.quarantine + {req.subject} else s.quarantine), false)
  }

  /** An operator approves a hash, which clears the quarantine. */
  function Approve(s: Shared, subject: Subject, hash: Hash): (Shared, bool) {
    (s.(approved := s.approved[subject := hash], quarantine := s.quarantine - {subject}), subject in s.quarantine)
  }

  // ----- the object -----

  class ControlService {
    const size: nat
    var cache: seq<Slot>
    var approved: map<Subject, Hash>
    var quarantine: set<Subject>
    var stats: Stats
    var nextFuture: nat

    function Abs(): Shared
      reads this
    {
      Shared(cache, approved, quarantine, stats, nextFuture)
    }

    constructor (size: nat)
      ensures Abs() == EMPTY && this.size == size
    {
      this.size := size;
      cache := [];
      approved := map[];
      quarantine := {};
      stats := Stats(0, 0, 0, 0, 0);
      nextFuture := 0;
    }

    method AdmitChange(req: Request) returns (approvedHit: bool)
      modifies this
      ensures (Abs(), approvedHit) == Admit(old(Abs()), req)
    {
      stats := stats.(changes := stats.changes + 1);
      if req.claimed != req.key {
        stats := stats.(mismatches := stats.mismatches + 1);
      }
      approvedHit := req.subject in approved && approved[req.subject] == req.key.after;
      if approvedHit {
        stats := stats.(approvedHits := stats.approvedHits + 1);
      }
    }

    /** The first section of `_cached_analysis`. */
    method ReserveFuture(key: HashPair) returns (future: nat, owner: bool)
      modifies this
      ensures (Abs(), future, owner) == Reserve(old(Abs()), size, key)
    {
      var found := Lookup(cache, key);
      if found.Some? {
        future := cache[found.value].future;
        cache := Without(cache, found.value) + [cache[found.value]];
        stats := stats.(hits := stats.hits + 1);
        return future, false;
      }
      future := ClaimFuture(key);
      return future, true;
    }

    /** Insert, then evict one by one down to the bound. */
    method ClaimFuture(key: HashPair) returns (future: nat)
      modifies this
      ensures Abs() == Claim(old(Abs()), size, key) && future == old(nextFuture)
    {
      future := nextFuture;
      nextFuture := nextFuture + 1;
      cache := cache + [Slot(key, future)];
      stats := stats.(misses := stats.misses + 1);
      ghost var all := cache;
      while |cache| > size
        invariant |cache| <= |all| && cache == all[|all| - |cache|..]
        invariant cache == all || |cache| >= size
        modifies `cache
        decreases |cache|
      {
        cache := cache[1..];
      }
    }

    method ForgetKey(key: HashPair)
      modifies this
      ensures Abs() == Forget(old(Abs()), key)
    {
      var found := Lookup(cache, key);
      if found.Some? {
        cache := Without(cache, found.value);
      }
    }

    method ConcludeChange(req: Request, verdict: string) returns (approvedHit: bool)
      modifies this
      ensures (Abs(), approvedHit) == Conclude(old(Abs()), req, verdict)
    {
      approvedHit := req.subject in approved && approved[req.subject] == req.key.after;
      if approvedHit {
        stats := stats.(approvedHits := stats.approvedHits + 1);
      } else if verdict == "quarantine" {
        quarantine := quarantine + {req.subject};
      }
    }

    method ApproveHash(subject: Subject, hash: Hash) returns (cleared: bool)
      modifies this
      ensures (Abs(), cleared) == Approve(old(Abs()), subject, hash)
    {
      approved := approved[subject := hash];
      cleared := subject in quarantine;
      quarantine := quarantine - {subject};
    }
  }
}
