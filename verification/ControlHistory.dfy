/**
 The memo and the counters of the control plane told by their history: slots stand in the order in which
 their hash pairs were last asked for, the one asked for longest ago makes room, and the counters count
 what became of the requests.
 */
module ControlHistory {
  import opened Lists
  import opened Wrappers
  import opened Control
  import opened ControlProtocol
  import opened ControlGuarantees

  /** The step asks the memo for the pair. */
  predicate AsksFor(s: State, step: Step, key: HashPair) {
    step.ReserveStep? && Enabled(s, step) && s.threads[step.id].req.key == key
  }

  /** The number of the last step that asked for the pair, counted from one; zero if none did. */
  function LastAsked(env: Env, steps: seq<Step>, key: HashPair): (r: nat)
    ensures r <= |steps|
    decreases |steps|
  {
    if steps == [] then 0
    else
      var before, step := steps[..|steps| - 1], steps[|steps| - 1];
      if AsksFor(Run(env, before), step, key) then |steps| else LastAsked(env, before, key)
  }

  predicate InOrder(cache: seq<Slot>, asked: HashPair -> int) {
    forall i, j | 0 <= i < j < |cache| :: asked(cache[i].key) < asked(cache[j].key)
  }

  /** Only the pair that is asked for now, if any, is asked for later than before: at `n`, after all else. */
  ghost predicate AskedNow(asked: HashPair -> int, later: HashPair -> int, n: int, now: Option<HashPair>) {
    forall key :: asked(key) < n && later(key) == if now == Some(key) then n else asked(key)
  }

  lemma WithoutInOrder(cache: seq<Slot>, asked: HashPair -> int, i: nat)
    requires InOrder(cache, asked) && i < |cache|
    ensures InOrder(Without(cache, i), asked)
  {
  }

  lemma SharedInOrder(cache: seq<Slot>, asked: HashPair -> int, later: HashPair -> int, n: int, i: nat)
    requires InOrder(cache, asked) && DistinctSlots(cache) && i < |cache|
    requires AskedNow(asked, later, n, Some(cache[i].key))
    ensures InOrder(Without(cache, i) + [cache[i]], later)
  {
    var rest := Without(cache, i);
    WithoutInOrder(cache, asked, i);
    forall j | 0 <= j < |rest| ensures rest[j].key != cache[i].key {
      assert rest[j] == cache[if j < i then j else j + 1];
    }
  }

  lemma ClaimedInOrder(cache: seq<Slot>, asked: HashPair -> int, later: HashPair -> int, n: int, slot: Slot, size: nat)
    requires InOrder(cache, asked) && AskedNow(asked, later, n, Some(slot.key))
    requires forall i | 0 <= i < |cache| :: cache[i].key != slot.key
    ensures InOrder(Trim(cache + [slot], size), later)
  {
    var all := cache + [slot];
    assert InOrder(all, later);
  }

  function AskedBy(s: State, step: Step): Option<HashPair> {
    if step.ReserveStep? && Enabled(s, step) then Some(s.threads[step.id].req.key) else None
  }

  lemma ReserveInOrder(env: Env, s: State, asked: HashPair -> int, later: HashPair -> int, n: int, step: Step)
    requires step.ReserveStep? && Enabled(s, step) && DistinctSlots(s.shared.cache) && InOrder(s.shared.cache, asked)
    requires AskedNow(asked, later, n, AskedBy(s, step))
    ensures InOrder(Next(env, s, step).shared.cache, later)
  {
    var key := s.threads[step.id].req.key;
    match Lookup(s.shared.cache, key)
    case Some(i) => SharedInOrder(s.shared.cache, asked, later, n, i);
    case None => ClaimedInOrder(s.shared.cache, asked, later, n, Slot(key, s.shared.nextFuture), env.size);
  }

  lemma StepInOrder(env: Env, s: State, asked: HashPair -> int, later: HashPair -> int, n: int, step: Step)
    requires Enabled(s, step) && DistinctSlots(s.shared.cache) && InOrder(s.shared.cache, asked)
    requires AskedNow(asked, later, n, AskedBy(s, step))
    ensures InOrder(Next(env, s, step).shared.cache, later)
  {
    if step.ReserveStep? {
      ReserveInOrder(env, s, asked, later, n, step);
    } else {
      assert InOrder(s.shared.cache, later);
      if step.PopStep? {
        match Lookup(s.shared.cache, s.threads[step.id].req.key)
        case Some(i) => WithoutInOrder(s.shared.cache, later, i);
        case None =>
      }
    }
  }

  /** At any moment of any run the memo stands in the order in which its pairs were last asked for. */
  lemma {:induction false} MemoIsInOrderOfUse(env: Env, steps: seq<Step>)
    ensures InOrder(Run(env, steps).shared.cache, key => LastAsked(env, steps, key))
    decreases |steps|
  {
    if steps != [] {
      var before, step := steps[..|steps| - 1], steps[|steps| - 1];
      var s := Run(env, before);
      MemoIsInOrderOfUse(env, before);
      if Enabled(s, step) {
        MemoStaysBounded(env, before);
        StepInOrder(env, s, key => LastAsked(env, before, key), key => LastAsked(env, steps, key), |steps|, step);
      }
    }
  }

  predicate HasSlot(s: State, key: HashPair) {
    exists i :: 0 <= i < |s.shared.cache| && s.shared.cache[i].key == key
  }

  /** A request drops no slot but the first, and that only from a full memo. */
  lemma OtherSlotsStay(env: Env, s: State, step: Step, i: nat)
    requires step.ReserveStep? && Enabled(s, step) && |s.shared.cache| <= env.size && i < |s.shared.cache|
    requires i > 0 || |s.shared.cache| < env.size
    ensures HasSlot(Next(env, s, step), s.shared.cache[i].key)
  {
    var cache, key := s.shared.cache, s.threads[step.id].req.key;
    var now := Next(env, s, step).shared.cache;
    match Lookup(cache, key)
    case Some(j) => assert now[if i < j then i else if i == j then |cache| - 1 else i - 1] == cache[i];
    case None => assert now[if |cache| < env.size then i else i - 1] == cache[i];
  }

  /** A request drops a slot only from a full memo, and only of the pair asked for longest ago. */
  lemma OldestSlotMakesRoom(env: Env, steps: seq<Step>, step: Step, key: HashPair, other: HashPair)
    requires var s := Run(env, steps);
      && step.ReserveStep? && Enabled(s, step) && HasSlot(s, key) && HasSlot(s, other) && key != other
      && !HasSlot(Next(env, s, step), key)
    ensures |Run(env, steps).shared.cache| == env.size
    ensures LastAsked(env, steps, key) < LastAsked(env, steps, other)
  {
    var s := Run(env, steps);
    MemoStaysBounded(env, steps);
    MemoIsInOrderOfUse(env, steps);
    var i :| 0 <= i < |s.shared.cache| && s.shared.cache[i].key == key;
    if i > 0 || |s.shared.cache| < env.size {
      OtherSlotsStay(env, s, step, i);
    }
  }

  // ----- the counters -----

  function One(b: bool): nat {
    if b then 1 else 0
  }

  /**
   What a step adds to the counters, by what becomes of its request: it arrives, with hashes other than
   those the proxy claims, it waits for a future that is there, it computes a new one, it is let through.
   */
  function Added(env: Env, s: State, step: Step): Stats
    requires Enabled(s, step)
  {
    if step.ApproveStep? then Stats(0, 0, 0, 0, 0)
    else
      var t := Next(env, s, step).threads;
      var now := if step.id in t then Some(t[step.id]) else None;
      Stats(One(step.ArriveStep?),
            One(step.ReserveStep? && now.Some? && now.value.Waiting?),
            One(step.ReserveStep? && now.Some? && now.value.Running?),
            One(step.ArriveStep? && step.req.claimed != step.req.key),
            One((step.ArriveStep? || step.FinishStep?) && now.Some? && now.value.Answered?
                && now.value.answer.Approved?))
  }

  function Sum(a: Stats, b: Stats): Stats {
    Stats(a.changes + b.changes, a.hits + b.hits, a.misses + b.misses, a.mismatches + b.mismatches,
          a.approvedHits + b.approvedHits)
  }

  /** The counters as the run of steps says they should stand. */
  function Tally(env: Env, steps: seq<Step>): Stats
    decreases |steps|
  {
    if steps == [] then Stats(0, 0, 0, 0, 0)
    else
      var before, step := steps[..|steps| - 1], steps[|steps| - 1];
      var s := Run(env, before);
      if Enabled(s, step) then Sum(Tally(env, before), Added(env, s, step)) else Tally(env, before)
  }

  lemma StepCounts(env: Env, s: State, step: Step)
    requires Enabled(s, step)
    ensures Next(env, s, step).shared.stats == Sum(s.shared.stats, Added(env, s, step))
  {
  }

  /** The counters count, over any run, what became of the requests. */
  lemma {:induction false} CountersTellTheRun(env: Env, steps: seq<Step>)
    ensures Run(env, steps).shared.stats == Tally(env, steps)
    decreases |steps|
  {
    if steps != [] {
      var before, step := steps[..|steps| - 1], steps[|steps| - 1];
      CountersTellTheRun(env, before);
      if Enabled(Run(env, before), step) {
        StepCounts(env, Run(env, before), step);
      }
    }
  }
}
