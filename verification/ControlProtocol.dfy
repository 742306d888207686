/**
 Requests and operators interleaving on the control service, one lock section or future at a time.
 Diffs take arbitrarily long, may fail, and may lose their memo slot while they run.
 */
module ControlProtocol {
  import opened Control

  datatype Analysis = Analysis(severity: string, findings: seq<string>)

  /** The differ, which sees no more than the hash pair fixes, and the policy table. */
  datatype Env = Env(analyse: HashPair -> Analysis, decide: (string, string) -> string, size: nat)

  datatype Future = Pending | Value(analysis: Analysis) | Failed

  datatype Answer = Approved | Verdict(verdict: string, analysis: Analysis, cacheHit: bool)

  /** Where one call of `evaluate_change` stands. */
  datatype Thread =
    | Asked(req: Request)
    | Running(req: Request, future: nat)
    | Failing(req: Request, future: nat)
    | Popped(req: Request, future: nat)
    | Waiting(req: Request, future: nat)
    | Ready(req: Request, analysis: Analysis, cacheHit: bool)
    | Answered(req: Request, answer: Answer)
    | Raised(req: Request)

  /** Ghost parts: the owner and key of each future, and the futures that lost their slot. */
  datatype State = State(
    shared: Shared,
    futures: map<nat, Future>,
    threads: map<nat, Thread>,
    owner: map<nat, nat>,
    keyOf: map<nat, HashPair>,
    dropped: set<nat>)

  const INIT := State(EMPTY, map[], map[], map[], map[], {})

  datatype Step =
    | ArriveStep(id: nat, req: Request)
    | ReserveStep(id: nat)
    | DiffStep(id: nat, ok: bool)
    | PopStep(id: nat)
    | RaiseStep(id: nat)
    | ResultStep(id: nat)
    | FinishStep(id: nat)
    | ApproveStep(subject: Subject, hash: Hash)

  predicate Enabled(s: State, step: Step) {
    match step
    case ArriveStep(id, _) => id !in s.threads
    case ReserveStep(id) => id in s.threads && s.threads[id].Asked?
    case DiffStep(id, _) => id in s.threads && s.threads[id].Running?
    case PopStep(id) => id in s.threads && s.threads[id].Failing?
    case RaiseStep(id) => id in s.threads && s.threads[id].Popped?
    case ResultStep(id) =>
      && id in s.threads && s.threads[id].Waiting?
      && s.threads[id].future in s.futures && !s.futures[s.threads[id].future].Pending?
    case FinishStep(id) => id in s.threads && s.threads[id].Ready?
    case ApproveStep(_, _) => true
  }

  function FuturesIn(cache: seq<Slot>): set<nat> {
    set i | 0 <= i < |cache| :: cache[i].future
  }

  /** The state after a section that may have taken slots out of the memo. */
  function WithShared(s: State, shared: Shared): State {
    s.(shared := shared, dropped := s.dropped + (FuturesIn(s.shared.cache) - FuturesIn(shared.cache)))
  }

  function ReserveNext(env: Env, s: State, id: nat, req: Request): State {
    var r := Reserve(s.shared, env.size, req.key);
    if r.2 then
      var t := s.(
        threads := s.threads[id := Running(req, r.1)],
        futures := s.futures[r.1 := Pending],
        owner := s.owner[r.1 := id],
        keyOf := s.keyOf[r.1 := req.key]);
      t.(shared := r.0, dropped := s.dropped + ((FuturesIn(s.shared.cache) + {r.1}) - FuturesIn(r.0.cache)))
    else s.(shared := r.0, threads := s.threads[id := Waiting(req, r.1)])
  }

  function FinishNext(env: Env, s: State, id: nat, t: Thread): State
    requires t.Ready?
  {
    var verdict := env.decide(t.analysis.severity, t.req.risk);
    var r := Conclude(s.shared, t.req, verdict);
    var answer := if r.1 then Approved else Verdict(verdict, t.analysis, t.cacheHit);
    s.(shared := r.0, threads := s.threads[id := Answered(t.req, answer)])
  }

  function Next(env: Env, s: State, step: Step): State
    requires Enabled(s, step)
  {
    match step
    case ArriveStep(id, req) =>
      var r := Admit(s.shared, req);
      s.(shared := r.0, threads := s.threads[id := if r.1 then Answered(req, Approved) else Asked(req)])
    case ReserveStep(id) => ReserveNext(env, s, id, s.threads[id].req)
    case DiffStep(id, ok) =>
      var t := s.threads[id];
      if ok then
        s.(futures := s.futures[t.future := Value(env.analyse(t.req.key))],
           threads := s.threads[id := Ready(t.req, env.analyse(t.req.key), false)])
      else s.(threads := s.threads[id := Failing(t.req, t.future)])
    case PopStep(id) =>
      var t := s.threads[id];
      WithShared(s, Forget(s.shared, t.req.key)).(threads := s.threads[id := Popped(t.req, t.future)])
    case RaiseStep(id) =>
      var t := s.threads[id];
      s.(futures := s.futures[t.future := Failed], threads := s.threads[id := Raised(t.req)])
    case ResultStep(id) =>
      var t := s.threads[id];
      s.(threads := s.threads[id :=
        match s.futures[t.future] case Value(a) => Ready(t.req, a, true) case _ => Raised(t.req)])
    case FinishStep(id) => FinishNext(env, s, id, s.threads[id])
    case ApproveStep(subject, hash) => s.(shared := Approve(s.shared, subject, hash).0)
  }

  /** Any sequence of steps; one that is not enabled when its turn comes does nothing. */
  function Run(env: Env, steps: seq<Step>): State {
    if steps == [] then INIT
    else
      var s := Run(env, steps[..|steps| - 1]);
      if Enabled(s, steps[|steps| - 1]) then Next(env, s, steps[|steps| - 1]) else s
  }
}
