/**
 Why events are missing from the audit log, told by the history alone: how long the queue is, which events
 are refused, and that nothing else is lost.
 */
module AuditLosses {
  import opened Wrappers
  import opened Events
  import opened EventLog
  import opened Audit

  predicate HasClosed(steps: seq<Step>) {
    exists i :: 0 <= i < |steps| && steps[i].CloseStep?
  }

  /** The step is an event that can be hashed. */
  predicate Emits(h: Hasher, capacity: nat, before: seq<Step>, step: Step) {
    && step.EmitStep?
    && Build(h, ChainEnd(EmittedBy(Run(h, capacity, before), step.sessionId)), step.sessionId, step.ts, step.body).Some?
  }

  /** The log was closed, the session has no proper name, or as many events wait as may. */
  predicate Turned(h: Hasher, capacity: nat, before: seq<Step>, id: string)
    decreases |before|, 1
  {
    HasClosed(before) || !ValidSessionID(id) || Waiting(h, capacity, before) >= capacity
  }

  /** The events that came in and were not taken out again. */
  function Waiting(h: Hasher, capacity: nat, steps: seq<Step>): nat
    decreases |steps|, 0
  {
    if steps == [] then 0
    else
      var before, step := steps[..|steps| - 1], steps[|steps| - 1];
      var n := Waiting(h, capacity, before);
      if Emits(h, capacity, before, step) && !Turned(h, capacity, before, step.sessionId) then n + 1
      else if step.DrainStep? && n > 0 then n - 1
      else n
  }

  /** The step loses an event: it is turned away, or taken out and not written. */
  predicate Loses(h: Hasher, capacity: nat, before: seq<Step>, step: Step) {
    || (Emits(h, capacity, before, step) && Turned(h, capacity, before, step.sessionId))
    || (step.DrainStep? && !step.ok && Waiting(h, capacity, before) > 0)
  }

  function Losses(h: Hasher, capacity: nat, steps: seq<Step>): nat {
    if steps == [] then 0
    else
      var before := steps[..|steps| - 1];
      Losses(h, capacity, before) + if Loses(h, capacity, before, steps[|steps| - 1]) then 1 else 0
  }

  lemma {:induction false} ClosedIffClosed(h: Hasher, capacity: nat, steps: seq<Step>)
    ensures Run(h, capacity, steps).log.closed <==> HasClosed(steps)
  {
    if steps != [] {
      var n := |steps| - 1;
      ClosedIffClosed(h, capacity, steps[..n]);
      assert HasClosed(steps) <==> HasClosed(steps[..n]) || steps[n].CloseStep?;
    }
  }

  /** Over every run, as many events wait in the queue and as many are counted as drops as the history says;
      an event is accepted exactly unless it must be turned away. */
  lemma {:induction false} DropsAreExplained(h: Hasher, capacity: nat, steps: seq<Step>, id: string)
    ensures var log := Run(h, capacity, steps).log;
      && |log.queue| == Waiting(h, capacity, steps) && log.drops == Losses(h, capacity, steps)
      && log.capacity == capacity && (EventLog.Accepts(log, id) <==> !Turned(h, capacity, steps, id))
  {
    ClosedIffClosed(h, capacity, steps);
    if steps != [] {
      var before, step := steps[..|steps| - 1], steps[|steps| - 1];
      DropsAreExplained(h, capacity, before, if step.EmitStep? then step.sessionId else id);
    }
  }

  /** If no event had to be turned away and none failed to be written, nothing is missing: what a session
      emitted is in its file or waits for it. */
  lemma NothingElseIsLost(h: Hasher, capacity: nat, steps: seq<Step>, id: string)
    requires Losses(h, capacity, steps) == 0
    ensures Kept(Run(h, capacity, steps), id) == EmittedBy(Run(h, capacity, steps), id)
  {
    DropsAreExplained(h, capacity, steps, id);
    RunKeepsInv(h, capacity, steps);
    assert SessionOk(h, Run(h, capacity, steps), id);
  }
}
