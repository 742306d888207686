/**
 What every interleaving of requests and approvals keeps.
 */
module ControlGuarantees {
  import opened Lists
  import opened Control
  import opened ControlProtocol

  /** The thread is the one computing future `f`. */
  predicate Computes(t: Thread, f: nat) {
    (t.Running? || t.Failing? || t.Popped?) && t.future == f
  }

  /** A pending future has its owner at work, a value is a fresh diff, and a failure has no slot. */
  predicate FutureOk(env: Env, s: State, f: nat)
    requires f in s.futures
  {
    && f < s.shared.nextFuture && f in s.keyOf && f in s.owner
    && (f in s.dropped || f in FuturesIn(s.shared.cache))
    && match s.futures[f]
       case Pending => s.owner[f] in s.threads && Computes(s.threads[s.owner[f]], f)
       case Value(a) => a == env.analyse(s.keyOf[f])
       case Failed => f in s.dropped
  }

  predicate ThreadOk(env: Env, s: State, id: nat)
    requires id in s.threads
  {
    match s.threads[id]
    case Asked(_) => true
    case Running(req, f) => HoldsFuture(s, id, req, f)
    case Failing(req, f) => HoldsFuture(s, id, req, f)
    case Popped(req, f) => HoldsFuture(s, id, req, f) && f in s.dropped
    case Waiting(req, f) => f in s.futures && f in s.keyOf && s.keyOf[f] == req.key
    case Ready(req, a, _) => a == env.analyse(req.key)
    case Answered(req, answer) => AnswerOk(env, req, answer)
    case Raised(_) => true
  }

  predicate HoldsFuture(s: State, id: nat, req: Request, f: nat) {
    && f in s.futures && s.futures[f].Pending?
    && f in s.owner && s.owner[f] == id
    && f in s.keyOf && s.keyOf[f] == req.key
  }

  /** A verdict is the policy applied to a fresh diff. */
  predicate AnswerOk(env: Env, req: Request, answer: Answer) {
    match answer
    case Approved => true
    case Verdict(v, a, _) => a == env.analyse(req.key) && v == env.decide(a.severity, req.risk)
  }

  predicate SlotOk(s: State, slot: Slot) {
    slot.future in s.futures && slot.future in s.keyOf && s.keyOf[slot.future] == slot.key && slot.future !in s.dropped
  }

  predicate DistinctSlots(cache: seq<Slot>) {
    forall i, j | 0 <= i < j < |cache| :: cache[i].key != cache[j].key
  }

  ghost predicate MemoOk(env: Env, s: State) {
    && |s.shared.cache| <= env.size
    && DistinctSlots(s.shared.cache)
    && forall i | 0 <= i < |s.shared.cache| :: SlotOk(s, s.shared.cache[i])
  }

  ghost predicate Inv(env: Env, s: State) {
    && (forall f | f in s.futures :: FutureOk(env, s, f))
    && (forall id | id in s.threads :: ThreadOk(env, s, id))
    && MemoOk(env, s)
  }

  // ----- the memo under its three changes -----

  lemma FuturesOf(cache: seq<Slot>)
    ensures forall i | 0 <= i < |cache| :: cache[i].future in FuturesIn(cache)
  {
  }

  lemma SharedSlots(cache: seq<Slot>, i: nat)
    requires i < |cache| && DistinctSlots(cache)
    ensures var c := Without(cache, i) + [cache[i]];
      && DistinctSlots(c) && |c| == |cache| && FuturesIn(c) == FuturesIn(cache)
      && forall j | 0 <= j < |c| :: c[j] in cache
  {
    var c := Without(cache, i) + [cache[i]];
    forall f | f in FuturesIn(cache) ensures f in FuturesIn(c) {
      var j :| 0 <= j < |cache| && cache[j].future == f;
      assert c[if j < i then j else if j == i then |c| - 1 else j - 1].future == f;
    }
    forall f | f in FuturesIn(c) ensures f in FuturesIn(cache) {
      var j :| 0 <= j < |c| && c[j].future == f;
      assert cache[if j == |c| - 1 then i else if j < i then j else j + 1].future == f;
    }
  }

  lemma ClaimedSlots(cache: seq<Slot>, slot: Slot, size: nat)
    requires DistinctSlots(cache) && forall i | 0 <= i < |cache| :: cache[i].key != slot.key
    ensures var c := Trim(cache + [slot], size);
      && DistinctSlots(c) && |c| <= size
      && FuturesIn(c) <= FuturesIn(cache) + {slot.future}
      && forall j | 0 <= j < |c| :: c[j] == slot || c[j] in cache
  {
    var all := cache + [slot];
    var c := Trim(all, size);
    forall j | 0 <= j < |c| ensures c[j] == slot || c[j] in cache {
      assert c[j] == all[|all| - |c| + j];
    }
  }

  lemma ForgottenSlots(cache: seq<Slot>, i: nat)
    requires i < |cache| && DistinctSlots(cache)
    ensures var c := Without(cache, i);
      && DistinctSlots(c) && |c| < |cache| && FuturesIn(c) <= FuturesIn(cache)
      && (forall j | 0 <= j < |c| :: c[j] in cache && c[j].key != cache[i].key)
      && FuturesIn(cache) <= FuturesIn(c) + {cache[i].future}
  {
    var c := Without(cache, i);
    forall f | f in FuturesIn(cache) && f != cache[i].future ensures f in FuturesIn(c) {
      var j :| 0 <= j < |cache| && cache[j].future == f;
      assert c[if j < i then j else j - 1].future == f;
    }
    forall j | 0 <= j < |c| ensures c[j] in cache && c[j].future in FuturesIn(cache) {
      assert c[j] == cache[if j < i then j else j + 1];
    }
  }

  // ----- one step at a time -----

  /** A step that changes one thread, not into or out of computing, and no future or slot. */
  lemma ThreadMoves(env: Env, s: State, t: State, id: nat)
    requires Inv(env, s)
    requires t == s.(shared := t.shared, threads := t.threads) && t.shared == s.shared.(stats := t.shared.stats)
    requires id in t.threads && t.threads == s.threads[id := t.threads[id]]
    requires id in s.threads ==> !Computes(s.threads[id], FutureOf(s.threads[id])) && !s.threads[id].Answered?
    requires ThreadOk(env, t, id)
    ensures Inv(env, t)
  {
    forall f | f in t.futures ensures FutureOk(env, t, f) {
      assert FutureOk(env, s, f);
    }
    forall k | k in t.threads ensures ThreadOk(env, t, k) {
      if k != id {
        assert ThreadOk(env, s, k);
      }
    }
    forall i | 0 <= i < |t.shared.cache| ensures SlotOk(t, t.shared.cache[i]) {
      assert SlotOk(s, s.shared.cache[i]);
    }
  }

  function FutureOf(t: Thread): nat {
    if t.Running? || t.Failing? || t.Popped? || t.Waiting? then t.future else 0
  }

  lemma ArriveKeepsInv(env: Env, s: State, id: nat, req: Request)
    requires Inv(env, s) && id !in s.threads
    ensures Inv(env, Next(env, s, ArriveStep(id, req)))
  {
    ThreadMoves(env, s, Next(env, s, ArriveStep(id, req)), id);
  }

  lemma ResultKeepsInv(env: Env, s: State, id: nat)
    requires Inv(env, s) && Enabled(s, ResultStep(id))
    ensures Inv(env, Next(env, s, ResultStep(id)))
  {
    assert ThreadOk(env, s, id);
    assert FutureOk(env, s, s.threads[id].future);
    ThreadMoves(env, s, Next(env, s, ResultStep(id)), id);
  }

  /** Only thread `id` changed, and it was the owner of every future that changed. */
  ghost predicate OwnerActs(s: State, t: State, id: nat, f: nat) {
    && id in s.threads && id in t.threads && t.threads == s.threads[id := t.threads[id]] && Computes(s.threads[id], f)
    && f in s.futures && f in t.futures && t.futures == s.futures[f := t.futures[f]]
    && t.owner == s.owner && t.keyOf == s.keyOf
    && s.dropped <= t.dropped
    && t.shared.nextFuture == s.shared.nextFuture
    && t.shared.approved == s.shared.approved && t.shared.quarantine == s.shared.quarantine
  }

  lemma OthersUndisturbed(env: Env, s: State, t: State, id: nat, f: nat)
    requires Inv(env, s) && OwnerActs(s, t, id, f) && HoldsFuture(s, id, s.threads[id].req, f)
    requires !s.threads[id].Answered?
    ensures forall k | k in t.threads && k != id :: ThreadOk(env, t, k)
  {
    forall k | k in t.threads && k != id ensures ThreadOk(env, t, k) {
      assert ThreadOk(env, s, k);
    }
  }

  lemma FuturesUndisturbed(env: Env, s: State, t: State, id: nat, f: nat)
    requires Inv(env, s) && OwnerActs(s, t, id, f) && HoldsFuture(s, id, s.threads[id].req, f)
    requires forall g | g in FuturesIn(s.shared.cache) :: g in t.dropped || g in FuturesIn(t.shared.cache)
    requires FutureOk(env, t, f)
    ensures forall g | g in t.futures :: FutureOk(env, t, g)
  {
    forall g | g in t.futures ensures FutureOk(env, t, g) {
      if g != f {
        assert FutureOk(env, s, g);
      }
    }
  }

  lemma DiffKeepsInv(env: Env, s: State, id: nat, ok: bool)
    requires Inv(env, s) && Enabled(s, DiffStep(id, ok))
    ensures Inv(env, Next(env, s, DiffStep(id, ok)))
  {
    var t := Next(env, s, DiffStep(id, ok));
    var f := s.threads[id].future;
    assert ThreadOk(env, s, id) && FutureOk(env, s, f);
    OthersUndisturbed(env, s, t, id, f);
    FuturesUndisturbed(env, s, t, id, f);
    forall i | 0 <= i < |t.shared.cache| ensures SlotOk(t, t.shared.cache[i]) {
      assert SlotOk(s, s.shared.cache[i]);
    }
  }

  lemma RaiseKeepsInv(env: Env, s: State, id: nat)
    requires Inv(env, s) && Enabled(s, RaiseStep(id))
    ensures Inv(env, Next(env, s, RaiseStep(id)))
  {
    var t := Next(env, s, RaiseStep(id));
    var f := s.threads[id].future;
    assert ThreadOk(env, s, id) && FutureOk(env, s, f);
    OthersUndisturbed(env, s, t, id, f);
    FuturesUndisturbed(env, s, t, id, f);
    forall i | 0 <= i < |t.shared.cache| ensures SlotOk(t, t.shared.cache[i]) {
      assert SlotOk(s, s.shared.cache[i]);
    }
  }

  /** After `Forget`, the key has no slot and the other slots stay. */
  lemma ForgetLeaves(env: Env, s: State, key: HashPair)
    requires MemoOk(env, s)
    ensures var c := Forget(s.shared, key).cache;
      && |c| <= env.size && DistinctSlots(c) && FuturesIn(c) <= FuturesIn(s.shared.cache)
      && forall j | 0 <= j < |c| :: c[j] in s.shared.cache && c[j].key != key
  {
    match Lookup(s.shared.cache, key)
    case Some(i) => ForgottenSlots(s.shared.cache, i);
    case None =>
  }

  lemma PopKeepsInv(env: Env, s: State, id: nat)
    requires Inv(env, s) && Enabled(s, PopStep(id))
    ensures Inv(env, Next(env, s, PopStep(id)))
  {
    var t := Next(env, s, PopStep(id));
    var f := s.threads[id].future;
    var key := s.threads[id].req.key;
    assert ThreadOk(env, s, id) && FutureOk(env, s, f);
    ForgetLeaves(env, s, key);
    var c := t.shared.cache;
    forall j | 0 <= j < |c| ensures c[j].future != f {
      var i :| 0 <= i < |s.shared.cache| && s.shared.cache[i] == c[j];
      assert SlotOk(s, s.shared.cache[i]);
    }
    assert f !in FuturesIn(c);
    OthersUndisturbed(env, s, t, id, f);
    FuturesUndisturbed(env, s, t, id, f);
    forall j | 0 <= j < |c| ensures SlotOk(t, c[j]) {
      var i :| 0 <= i < |s.shared.cache| && s.shared.cache[i] == c[j];
      assert SlotOk(s, s.shared.cache[i]);
      FuturesOf(c);
    }
  }

  lemma ShareKeepsInv(env: Env, s: State, id: nat)
    requires Inv(env, s) && Enabled(s, ReserveStep(id)) && Lookup(s.shared.cache, s.threads[id].req.key).Some?
    ensures Inv(env, Next(env, s, ReserveStep(id)))
  {
    var t := Next(env, s, ReserveStep(id));
    var i := Lookup(s.shared.cache, s.threads[id].req.key).value;
    SharedSlots(s.shared.cache, i);
    assert SlotOk(s, s.shared.cache[i]);
    forall f | f in t.futures ensures FutureOk(env, t, f) {
      assert FutureOk(env, s, f);
    }
    forall k | k in t.threads ensures ThreadOk(env, t, k) {
      if k != id {
        assert ThreadOk(env, s, k);
      }
    }
    var c := t.shared.cache;
    forall j | 0 <= j < |c| ensures SlotOk(t, c[j]) {
      var p :| 0 <= p < |s.shared.cache| && s.shared.cache[p] == c[j];
      assert SlotOk(s, s.shared.cache[p]);
    }
  }

  lemma ClaimMemo(env: Env, s: State, t: State, key: HashPair)
    requires Inv(env, s) && Lookup(s.shared.cache, key).None?
    requires t.shared == Claim(s.shared, env.size, key)
    requires var f := s.shared.nextFuture;
      && t.futures == s.futures[f := Pending] && t.keyOf == s.keyOf[f := key]
      && t.dropped == s.dropped + ((FuturesIn(s.shared.cache) + {f}) - FuturesIn(t.shared.cache))
    requires s.shared.nextFuture !in s.dropped
    ensures MemoOk(env, t)
  {
    var f := s.shared.nextFuture;
    var c := t.shared.cache;
    ClaimedSlots(s.shared.cache, Slot(key, f), env.size);
    FuturesOf(c);
    forall j | 0 <= j < |c| ensures SlotOk(t, c[j]) {
      if c[j] != Slot(key, f) {
        var p :| 0 <= p < |s.shared.cache| && s.shared.cache[p] == c[j];
        assert SlotOk(s, s.shared.cache[p]);
        assert FutureOk(env, s, c[j].future);
      }
    }
  }

  lemma ClaimKeepsInv(env: Env, s: State, id: nat)
    requires Inv(env, s) && Enabled(s, ReserveStep(id)) && Lookup(s.shared.cache, s.threads[id].req.key).None?
    requires s.shared.nextFuture !in s.dropped
    ensures Inv(env, Next(env, s, ReserveStep(id)))
  {
    var t := Next(env, s, ReserveStep(id));
    ClaimMemo(env, s, t, s.threads[id].req.key);
    forall f | f in t.futures ensures FutureOk(env, t, f) {
      if f in s.futures {
        assert FutureOk(env, s, f);
      }
    }
    forall k | k in t.threads ensures ThreadOk(env, t, k) {
      if k != id {
        assert ThreadOk(env, s, k);
        NewFutureIsNew(env, s, k);
      }
    }
  }

  /** No thread already speaks of the next future. */
  lemma NewFutureIsNew(env: Env, s: State, id: nat)
    requires Inv(env, s) && id in s.threads
    ensures FutureOf(s.threads[id]) in s.futures ==> FutureOf(s.threads[id]) < s.shared.nextFuture
  {
    if FutureOf(s.threads[id]) in s.futures {
      assert FutureOk(env, s, FutureOf(s.threads[id]));
    }
  }

  lemma FinishKeepsInv(env: Env, s: State, id: nat)
    requires Inv(env, s) && Enabled(s, FinishStep(id))
    ensures Inv(env, Next(env, s, FinishStep(id)))
  {
    var t := Next(env, s, FinishStep(id));
    var th := s.threads[id];
    assert ThreadOk(env, s, id);
    forall f | f in t.futures ensures FutureOk(env, t, f) {
      assert FutureOk(env, s, f);
    }
    forall k | k in t.threads ensures ThreadOk(env, t, k) {
      if k != id {
        assert ThreadOk(env, s, k);
      }
    }
    forall i | 0 <= i < |t.shared.cache| ensures SlotOk(t, t.shared.cache[i]) {
      assert SlotOk(s, s.shared.cache[i]);
    }
  }

  lemma ApproveKeepsInv(env: Env, s: State, subject: Subject, hash: Hash)
    requires Inv(env, s)
    ensures Inv(env, Next(env, s, ApproveStep(subject, hash)))
  {
    var t := Next(env, s, ApproveStep(subject, hash));
    forall f | f in t.futures ensures FutureOk(env, t, f) {
      assert FutureOk(env, s, f);
    }
    forall k | k in t.threads ensures ThreadOk(env, t, k) {
      assert ThreadOk(env, s, k);
    }
    forall i | 0 <= i < |t.shared.cache| ensures SlotOk(t, t.shared.cache[i]) {
      assert SlotOk(s, s.shared.cache[i]);
    }
  }

  // ----- runs -----

  /** Only futures that were made have been dropped. */
  predicate DroppedOk(s: State) {
    forall f | f in s.dropped :: f < s.shared.nextFuture
  }

  lemma MemoFuturesExist(env: Env, s: State)
    requires Inv(env, s)
    ensures forall f | f in FuturesIn(s.shared.cache) :: f < s.shared.nextFuture
  {
    var c := s.shared.cache;
    forall f | f in FuturesIn(c) ensures f < s.shared.nextFuture {
      var i :| 0 <= i < |c| && c[i].future == f;
      assert SlotOk(s, c[i]) && FutureOk(env, s, f);
    }
  }

  lemma StepKeepsDropped(env: Env, s: State, step: Step)
    requires Inv(env, s) && DroppedOk(s) && Enabled(s, step)
    ensures DroppedOk(Next(env, s, step))
  {
    MemoFuturesExist(env, s);
    var t := Next(env, s, step);
    assert t.dropped <= s.dropped + FuturesIn(s.shared.cache) + {s.shared.nextFuture};
    assert s.shared.nextFuture in t.dropped ==> t.shared.nextFuture > s.shared.nextFuture;
  }

  lemma StepKeepsInv(env: Env, s: State, step: Step)
    requires Inv(env, s) && DroppedOk(s) && Enabled(s, step)
    ensures Inv(env, Next(env, s, step))
  {
    match step
    case ArriveStep(id, req) => ArriveKeepsInv(env, s, id, req);
    case ReserveStep(id) =>
      if Lookup(s.shared.cache, s.threads[id].req.key).Some? {
        ShareKeepsInv(env, s, id);
      } else {
        ClaimKeepsInv(env, s, id);
      }
    case DiffStep(id, ok) => DiffKeepsInv(env, s, id, ok);
    case PopStep(id) => PopKeepsInv(env, s, id);
    case RaiseStep(id) => RaiseKeepsInv(env, s, id);
    case ResultStep(id) => ResultKeepsInv(env, s, id);
    case FinishStep(id) => FinishKeepsInv(env, s, id);
    case ApproveStep(subject, hash) => ApproveKeepsInv(env, s, subject, hash);
  }

  lemma {:induction false} RunKeepsInv(env: Env, steps: seq<Step>)
    ensures Inv(env, Run(env, steps)) && DroppedOk(Run(env, steps))
  {
    if steps != [] {
      var before := steps[..|steps| - 1];
      RunKeepsInv(env, before);
      if Enabled(Run(env, before), steps[|steps| - 1]) {
        StepKeepsInv(env, Run(env, before), steps[|steps| - 1]);
        StepKeepsDropped(env, Run(env, before), steps[|steps| - 1]);
      }
    }
  }

  // ----- what the steps say about approvals -----

  /** The step puts the subject in quarantine because of hash `h`: it finishes a request for `h` with
      that verdict, and `h` is not the hash approved by then. */
  predicate Quarantines(env: Env, s: State, step: Step, subject: Subject, h: Hash) {
    && step.FinishStep? && Enabled(s, step)
    && var t := s.threads[step.id];
       && t.req.subject == subject && t.req.key.after == h
       && env.decide(t.analysis.severity, t.req.risk) == "quarantine"
       && !(subject in s.shared.approved && s.shared.approved[subject] == h)
  }

  predicate Approves(step: Step, subject: Subject) {
    step.ApproveStep? && step.subject == subject
  }

  /** Step `i` quarantined the subject for `h`, and no operator has approved anything for it since. */
  predicate StandingQuarantine(env: Env, steps: seq<Step>, i: nat, subject: Subject, h: Hash) {
    && i < |steps| && Quarantines(env, Run(env, steps[..i]), steps[i], subject, h)
    && forall j | i < j < |steps| :: !Approves(steps[j], subject)
  }

  lemma StandingAfterStep(env: Env, before: seq<Step>, step: Step, i: nat, subject: Subject, h: Hash)
    ensures StandingQuarantine(env, before + [step], i, subject, h)
       <==> if i < |before| then StandingQuarantine(env, before, i, subject, h) && !Approves(step, subject)
            else i == |before| && Quarantines(env, Run(env, before), step, subject, h)
  {
    var steps := before + [step];
    if i <= |before| {
      assert steps[..i] == before[..i];
      assert before[..|before|] == before;
      assert steps[|before|] == step;
      assert forall j | 0 <= j < |before| :: steps[j] == before[j];
    }
  }

  /** How one step changes what is approved and quarantined for a subject. */
  lemma StepOnSubject(env: Env, s: State, step: Step, subject: Subject)
    requires Enabled(s, step)
    ensures var t := Next(env, s, step);
      && (subject in t.shared.quarantine
          <==> !Approves(step, subject)
               && (subject in s.shared.quarantine || exists h :: Quarantines(env, s, step, subject, h)))
      && (!Approves(step, subject) ==>
            && (subject in t.shared.approved <==> subject in s.shared.approved)
            && (subject in s.shared.approved ==> t.shared.approved[subject] == s.shared.approved[subject]))
  {
    if step.FinishStep? {
      var req := s.threads[step.id].req;
      assert Quarantines(env, s, step, subject, req.key.after) || forall h :: !Quarantines(env, s, step, subject, h);
    }
  }

  /**
   At any moment of any run, a subject is in quarantine exactly when some step since the last approval
   given for it quarantined it, and no such step did so because of the hash now approved.
   */
  lemma {:induction false} QuarantineRespectsApproval(env: Env, steps: seq<Step>, subject: Subject)
    ensures subject in Run(env, steps).shared.quarantine
       <==> exists i: nat, h :: StandingQuarantine(env, steps, i, subject, h)
    ensures forall i: nat, h | StandingQuarantine(env, steps, i, subject, h) ::
      !(subject in Run(env, steps).shared.approved && Run(env, steps).shared.approved[subject] == h)
  {
    if steps != [] {
      var n := |steps| - 1;
      var before, step := steps[..n], steps[n];
      assert steps == before + [step];
      var s := Run(env, before);
      QuarantineRespectsApproval(env, before, subject);
      forall i: nat, h
        ensures StandingQuarantine(env, steps, i, subject, h)
           <==> if i < n then StandingQuarantine(env, before, i, subject, h) && !Approves(step, subject)
                else i == n && Quarantines(env, s, step, subject, h)
      {
        StandingAfterStep(env, before, step, i, subject, h);
      }
      if Enabled(s, step) {
        StepOnSubject(env, s, step, subject);
      }
      QuarantineStep(env, before, s, step, subject);
    }
  }

  lemma QuarantineStep(env: Env, before: seq<Step>, s: State, step: Step, subject: Subject)
    requires s == Run(env, before)
    ensures (exists i: nat, h :: StandingQuarantine(env, before + [step], i, subject, h))
       <==> || (!Approves(step, subject) && exists i: nat, h :: StandingQuarantine(env, before, i, subject, h))
            || exists h :: Quarantines(env, s, step, subject, h)
  {
    var steps := before + [step];
    forall i: nat, h
      ensures StandingQuarantine(env, steps, i, subject, h)
         <==> if i < |before| then StandingQuarantine(env, before, i, subject, h) && !Approves(step, subject)
              else i == |before| && Quarantines(env, s, step, subject, h)
    {
      StandingAfterStep(env, before, step, i, subject, h);
    }
    forall h | Quarantines(env, s, step, subject, h)
      ensures StandingQuarantine(env, steps, |before|, subject, h)
    {
    }
  }

  /** The memo never exceeds its bound and keeps one slot per key. */
  lemma MemoStaysBounded(env: Env, steps: seq<Step>)
    ensures |Run(env, steps).shared.cache| <= env.size && DistinctSlots(Run(env, steps).shared.cache)
  {
    RunKeepsInv(env, steps);
  }

  /** The step answers thread `id`. */
  predicate Answers(env: Env, s: State, step: Step, id: nat) {
    && (step.ArriveStep? || step.FinishStep?) && step.id == id && Enabled(s, step)
    && Next(env, s, step).threads[id].Answered?
  }

  predicate AnsweredAt(env: Env, steps: seq<Step>, i: nat, id: nat) {
    i < |steps| && Answers(env, Run(env, steps[..i]), steps[i], id)
  }

  /** Only `Answers` steps make answers, and an answer is final. */
  lemma StepOnAnswer(env: Env, s: State, step: Step, id: nat)
    requires Enabled(s, step) && id in Next(env, s, step).threads && Next(env, s, step).threads[id].Answered?
    ensures id in s.threads && s.threads[id].Answered? ==> Next(env, s, step).threads[id] == s.threads[id]
    ensures !(id in s.threads && s.threads[id].Answered?) ==> Answers(env, s, step, id)
  {
  }

  /** The request was answered by one step, "approved" exactly when its hash was the approved one then. */
  lemma {:induction false} AnswerWasGiven(env: Env, steps: seq<Step>, id: nat)
    requires id in Run(env, steps).threads && Run(env, steps).threads[id].Answered?
    ensures var t := Run(env, steps).threads[id];
      exists i: nat :: AnsweredAt(env, steps, i, id)
                       && (t.answer.Approved? <==> IsApproved(Run(env, steps[..i]).shared, t.req))
  {
    var n := |steps| - 1;
    var before, step := steps[..n], steps[n];
    var s := Run(env, before);
    if !Enabled(s, step) || (id in s.threads && s.threads[id].Answered?) {
      AnswerWasGiven(env, before, id);
      if Enabled(s, step) {
        StepOnAnswer(env, s, step, id);
      }
      var i: nat :| AnsweredAt(env, before, i, id)
        && (s.threads[id].answer.Approved? <==> IsApproved(Run(env, before[..i]).shared, s.threads[id].req));
      assert steps[..i] == before[..i];
      assert AnsweredAt(env, steps, i, id);
    } else {
      StepOnAnswer(env, s, step, id);
      assert AnsweredAt(env, steps, n, id);
    }
  }

  /**
   Every request was answered by one step: "approved" exactly when its hash was the approved one at that
   step, and otherwise with the policy applied to what a fresh diff of the request's own hash pair says,
   whoever ran the diff and whatever became of the memo.
   */
  lemma AnswersAreSound(env: Env, steps: seq<Step>, id: nat)
    requires id in Run(env, steps).threads && Run(env, steps).threads[id].Answered?
    ensures var t := Run(env, steps).threads[id];
      && (exists i: nat :: AnsweredAt(env, steps, i, id)
                           && (t.answer.Approved? <==> IsApproved(Run(env, steps[..i]).shared, t.req)))
      && match t.answer
         case Approved => true
         case Verdict(v, a, _) =>
           a == env.analyse(t.req.key) && v == env.decide(env.analyse(t.req.key).severity, t.req.risk)
  {
    AnswerWasGiven(env, steps, id);
    RunKeepsInv(env, steps);
    assert ThreadOk(env, Run(env, steps), id);
  }

  /** Two diffs of one hash pair run at once only if one of them has lost its memo slot. */
  lemma OneDiffPerKey(env: Env, steps: seq<Step>, i: nat, j: nat)
    requires var s := Run(env, steps);
      && i != j && i in s.threads && j in s.threads && s.threads[i].Running? && s.threads[j].Running?
      && s.threads[i].req.key == s.threads[j].req.key
    ensures var s := Run(env, steps); s.threads[i].future in s.dropped || s.threads[j].future in s.dropped
  {
    RunKeepsInv(env, steps);
    var s := Run(env, steps);
    assert ThreadOk(env, s, i) && ThreadOk(env, s, j);
    var f, g := s.threads[i].future, s.threads[j].future;
    assert FutureOk(env, s, f) && FutureOk(env, s, g);
    if f !in s.dropped && g !in s.dropped {
      SameSlot(env, s, f, g);
    }
  }

  lemma SameSlot(env: Env, s: State, f: nat, g: nat)
    requires MemoOk(env, s) && f in FuturesIn(s.shared.cache) && g in FuturesIn(s.shared.cache)
    requires f in s.keyOf && g in s.keyOf && s.keyOf[f] == s.keyOf[g]
    ensures f == g
  {
    var c := s.shared.cache;
    var p :| 0 <= p < |c| && c[p].future == f;
    var q :| 0 <= q < |c| && c[q].future == g;
    assert SlotOk(s, c[p]) && SlotOk(s, c[q]);
  }

  /** A thread that waits on a pending future waits on a thread at work, and a failed diff has no slot. */
  lemma NobodyWaitsForNothing(env: Env, steps: seq<Step>, id: nat)
    requires id in Run(env, steps).threads && Run(env, steps).threads[id].Waiting?
    ensures var s := Run(env, steps);
      var f := s.threads[id].future;
      && f in s.futures
      && (s.futures[f].Pending? ==> f in s.owner && s.owner[f] in s.threads && Computes(s.threads[s.owner[f]], f))
      && (s.futures[f].Failed? ==> f !in FuturesIn(s.shared.cache))
  {
    RunKeepsInv(env, steps);
    var s := Run(env, steps);
    assert ThreadOk(env, s, id);
    var f := s.threads[id].future;
    assert FutureOk(env, s, f);
    forall i | 0 <= i < |s.shared.cache| ensures s.futures[f].Failed? ==> s.shared.cache[i].future != f {
      assert SlotOk(s, s.shared.cache[i]);
    }
  }
}
