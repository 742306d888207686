/**
 From session to file: several sessions emit hash-chained events into one lossy queue.  Whatever is
 refused or lost, a session's file stays an ordered part of what it emitted, and a file without a
 gap in its sequence numbers is exactly the beginning of it.
 */
module Audit {
  import opened Wrappers
  import opened Events
  import opened EventLog
  import opened Recording

  /** `a` is obtained from `b` by leaving elements out. */
  predicate Subsequence(a: seq<Event>, b: seq<Event>) {
    a == []
    || (b != [] && ((a[|a| - 1] == b[|b| - 1] && Subsequence(a[..|a| - 1], b[..|b| - 1]))
                    || Subsequence(a, b[..|b| - 1])))
  }

  lemma {:induction false} SubsequenceGrows(a: seq<Event>, b: seq<Event>, e: Event)
    requires Subsequence(a, b)
    ensures Subsequence(a, b + [e]) && Subsequence(a + [e], b + [e])
  {
    assert (b + [e])[..|b|] == b && (a + [e])[..|a|] == a;
  }

  /** Leaving out one more element. */
  lemma {:induction false} SubsequenceWithout(a: seq<Event>, x: Event, c: seq<Event>, b: seq<Event>)
    requires Subsequence(a + [x] + c, b)
    ensures Subsequence(a + c, b)
    decreases |b|
  {
    var all := a + [x] + c;
    var front := b[..|b| - 1];
    if all[|all| - 1] == b[|b| - 1] && Subsequence(all[..|all| - 1], front) {
      if c == [] {
        assert all[..|all| - 1] == a && a + c == a;
        SubsequenceSkips(a, front, b);
      } else {
        var d := c[..|c| - 1];
        assert all[..|all| - 1] == a + [x] + d;
        SubsequenceWithout(a, x, d, front);
        assert (a + c)[..|a + c| - 1] == a + d && (a + c)[|a + c| - 1] == b[|b| - 1];
      }
    } else {
      SubsequenceWithout(a, x, c, front);
    }
  }

  lemma SubsequenceSkips(a: seq<Event>, front: seq<Event>, b: seq<Event>)
    requires b != [] && front == b[..|b| - 1] && Subsequence(a, front)
    ensures Subsequence(a, b)
  {
  }

  /** A beginning of a subsequence is one too. */
  lemma {:induction false} SubsequencePrefix(a: seq<Event>, c: seq<Event>, b: seq<Event>)
    requires Subsequence(a + c, b)
    ensures Subsequence(a, b)
    decreases |c|
  {
    if c == [] {
      assert a + c == a;
    } else {
      var d := c[..|c| - 1];
      assert a + c == (a + d) + [c[|c| - 1]] + [];
      SubsequenceWithout(a + d, c[|c| - 1], [], b);
      assert (a + d) + [] == a + d;
      SubsequencePrefix(a, d, b);
    }
  }

  ghost predicate Numbered(events: seq<Event>) {
    forall i | 0 <= i < |events| :: events[i].core.seq_ == Some(i)
  }

  /** A part of a numbered log that is itself numbered 0,1,2,... is a beginning of it. */
  lemma {:induction false} GaplessIsPrefix(a: seq<Event>, b: seq<Event>)
    requires Subsequence(a, b) && Numbered(a) && Numbered(b)
    ensures |a| <= |b| && a == b[..|a|]
    decreases |b|
  {
    if a != [] {
      var m, n := |a| - 1, |b| - 1;
      if a[m] == b[n] && Subsequence(a[..m], b[..n]) {
        GaplessIsPrefix(a[..m], b[..n]);
        assert a[m].core.seq_ == Some(m) && b[n].core.seq_ == Some(n);
        assert a == a[..m] + [a[m]] && b == b[..n] + [b[n]];
      } else {
        GaplessIsPrefix(a, b[..n]);
      }
    }
  }

  // ----- several sessions, one queue -----

  /** `offered` and `written` count events handed to the queue and lines in files, `lost` the records of
      each session lost while draining; `flagged` holds the sessions marked audit-incomplete. */
  datatype System = System(log: Log, emitted: map<string, seq<Event>>, flagged: set<string>, offered: nat, written: nat,
                           lost: map<string, nat>)

  datatype Step =
    | EmitStep(sessionId: string, ts: string, body: Body)
    | DrainStep(ok: bool)
    | CloseStep

  function EmittedBy(s: System, id: string): seq<Event> {
    if id in s.emitted then s.emitted[id] else []
  }

  /** `buildEventLocked` and `emit`: number and hash first, then try to enqueue. */
  function EmitNext(h: Hasher, s: System, id: string, ts: string, body: Body): System {
    var past := EmittedBy(s, id);
    var e := Build(h, ChainEnd(past), id, ts, body);
    if e.None? then s.(flagged := s.flagged + {id})
    else
      System(EnqueueNext(s.log, Record(id, e.value)),
             s.emitted[id := past + [e.value]],
             if EventLog.Accepts(s.log, id) then s.flagged else s.flagged + {id},
             s.offered + 1, s.written, s.lost)
  }

  function LostOf(s: System, id: string): nat {
    if id in s.lost then s.lost[id] else 0
  }

  /** A drain finds nothing to do while the queue is empty. */
  function Next(h: Hasher, s: System, step: Step): System {
    match step
    case EmitStep(id, ts, body) => EmitNext(h, s, id, ts, body)
    case DrainStep(ok) =>
      if s.log.queue == [] then s
      else
        var id := s.log.queue[0].sessionId;
        s.(log := DrainNext(s.log, ok),
           written := if ok then s.written + 1 else s.written,
           lost := if ok then s.lost else s.lost[id := LostOf(s, id) + 1])
    case CloseStep => s.(log := s.log.(closed := true))
  }

  function QueuedFor(queue: seq<Record>, id: string): seq<Event> {
    if queue == [] then []
    else (if queue[0].sessionId == id then [queue[0].event] else []) + QueuedFor(queue[1..], id)
  }

  lemma {:induction false} QueuedSnoc(queue: seq<Record>, r: Record, id: string)
    ensures QueuedFor(queue + [r], id) == QueuedFor(queue, id) + if r.sessionId == id then [r.event] else []
  {
    if queue == [] {
      assert queue + [r] == [r];
    } else {
      assert (queue + [r])[1..] == queue[1..] + [r];
      QueuedSnoc(queue[1..], r, id);
    }
  }

  /** The lines of a session that are written or still queued, in order. */
  function Kept(s: System, id: string): seq<Event> {
    FileOf(s.log, id) + QueuedFor(s.log.queue, id)
  }

  ghost predicate SessionOk(h: Hasher, s: System, id: string) {
    && IsChain(h, EmittedBy(s, id))
    && Subsequence(Kept(s, id), EmittedBy(s, id))
    && (s.log.drops == 0 ==> Kept(s, id) == EmittedBy(s, id))
    && (id !in s.flagged ==> |EmittedBy(s, id)| == |Kept(s, id)| + LostOf(s, id))
  }

  ghost predicate Inv(h: Hasher, s: System) {
    && (forall id :: SessionOk(h, s, id))
    && s.offered == s.log.drops + s.written + |s.log.queue|
  }

  lemma EmitKeepsOthers(h: Hasher, s: System, sid: string, ts: string, body: Body, id: string)
    requires SessionOk(h, s, id) && id != sid
    ensures SessionOk(h, EmitNext(h, s, sid, ts, body), id)
  {
    var built := Build(h, ChainEnd(EmittedBy(s, sid)), sid, ts, body);
    if built.Some? {
      QueuedSnoc(s.log.queue, Record(sid, built.value), id);
      assert QueuedFor(s.log.queue, id) + [] == QueuedFor(s.log.queue, id);
      assert Kept(EmitNext(h, s, sid, ts, body), id) == Kept(s, id);
    }
  }

  /** The log keeps an event it accepts, after those it has, and otherwise counts a drop. */
  lemma EnqueueKeeps(l: Log, sid: string, e: Event)
    ensures var m := EnqueueNext(l, Record(sid, e));
      var kept := FileOf(l, sid) + QueuedFor(l.queue, sid);
      FileOf(m, sid) + QueuedFor(m.queue, sid) == if EventLog.Accepts(l, sid) then kept + [e] else kept
    ensures EnqueueNext(l, Record(sid, e)).drops == l.drops + if EventLog.Accepts(l, sid) then 0 else 1
  {
    QueuedSnoc(l.queue, Record(sid, e), sid);
    assert FileOf(l, sid) + (QueuedFor(l.queue, sid) + [e]) == FileOf(l, sid) + QueuedFor(l.queue, sid) + [e];
  }

  lemma EmitKeepsOwn(h: Hasher, s: System, sid: string, ts: string, body: Body)
    requires SessionOk(h, s, sid)
    ensures SessionOk(h, EmitNext(h, s, sid, ts, body), sid)
  {
    var past := EmittedBy(s, sid);
    var built := Build(h, ChainEnd(past), sid, ts, body);
    if built.Some? {
      var e := built.value;
      EnqueueKeeps(s.log, sid, e);
      BuildExtendsChain(h, past, sid, ts, body);
      SubsequenceGrows(Kept(s, sid), past, e);
      EmittedOwn(h, s, sid, ts, body);
    }
  }

  lemma EmittedOwn(h: Hasher, s: System, sid: string, ts: string, body: Body)
    requires Build(h, ChainEnd(EmittedBy(s, sid)), sid, ts, body).Some?
    ensures var e := Build(h, ChainEnd(EmittedBy(s, sid)), sid, ts, body).value;
      var t := EmitNext(h, s, sid, ts, body);
      EmittedBy(t, sid) == EmittedBy(s, sid) + [e] && t.log == EnqueueNext(s.log, Record(sid, e))
  {
  }

  lemma EmitKeepsInv(h: Hasher, s: System, sid: string, ts: string, body: Body)
    requires Inv(h, s)
    ensures Inv(h, EmitNext(h, s, sid, ts, body))
  {
    forall id ensures SessionOk(h, EmitNext(h, s, sid, ts, body), id) {
      assert SessionOk(h, s, id);
      if id == sid {
        EmitKeepsOwn(h, s, sid, ts, body);
      } else {
        EmitKeepsOthers(h, s, sid, ts, body, id);
      }
    }
  }

  lemma DrainKeepsInv(h: Hasher, s: System, ok: bool)
    requires Inv(h, s) && s.log.queue != []
    ensures Inv(h, Next(h, s, DrainStep(ok)))
  {
    var t := Next(h, s, DrainStep(ok));
    var r := s.log.queue[0];
    forall id ensures SessionOk(h, t, id) {
      assert SessionOk(h, s, id);
      var file, rest := FileOf(s.log, id), QueuedFor(s.log.queue[1..], id);
      if id == r.sessionId {
        assert Kept(s, id) == file + [r.event] + rest;
        if !ok {
          SubsequenceWithout(file, r.event, rest, EmittedBy(s, id));
        }
      } else {
        assert [] + rest == rest;
        assert Kept(t, id) == Kept(s, id);
      }
    }
  }

  lemma CloseKeepsInv(h: Hasher, s: System)
    requires Inv(h, s)
    ensures Inv(h, Next(h, s, CloseStep))
  {
    var t := Next(h, s, CloseStep);
    forall id ensures SessionOk(h, t, id) {
      assert SessionOk(h, s, id);
    }
  }

  // ----- runs -----

  function Initial(capacity: nat): System {
    System(Log(capacity, false, [], 0, map[]), map[], {}, 0, 0, map[])
  }

  function Run(h: Hasher, capacity: nat, steps: seq<Step>): System {
    if steps == [] then Initial(capacity)
    else Next(h, Run(h, capacity, steps[..|steps| - 1]), steps[|steps| - 1])
  }

  lemma InitialInv(h: Hasher, capacity: nat)
    ensures Inv(h, Initial(capacity))
  {
    forall id ensures SessionOk(h, Initial(capacity), id) {
      assert EmittedBy(Initial(capacity), id) == [] && Kept(Initial(capacity), id) == [];
    }
  }

  lemma {:induction false} RunKeepsInv(h: Hasher, capacity: nat, steps: seq<Step>)
    ensures Inv(h, Run(h, capacity, steps))
  {
    if steps == [] {
      InitialInv(h, capacity);
    } else {
      var front, last := steps[..|steps| - 1], steps[|steps| - 1];
      RunKeepsInv(h, capacity, front);
      var m := Run(h, capacity, front);
      match last
      case EmitStep(id, ts, body) => EmitKeepsInv(h, m, id, ts, body);
      case DrainStep(ok) => if m.log.queue != [] { DrainKeepsInv(h, m, ok); }
      case CloseStep => CloseKeepsInv(h, m);
    }
  }

  lemma ChainIsNumbered(h: Hasher, events: seq<Event>)
    requires IsChain(h, events)
    ensures Numbered(events)
  {
    forall i | 0 <= i < |events| ensures events[i].core.seq_ == Some(i) {
      assert LinkedAt(h, events, i);
    }
  }

  /** Drops cannot hide in the middle: the file is an ordered part of what the session emitted, and its
      sequence numbers run 0,1,2,... exactly when it is a beginning of it. */
  lemma DropsAreVisible(h: Hasher, capacity: nat, steps: seq<Step>, id: string)
    ensures var s := Run(h, capacity, steps);
            var file, all := FileOf(s.log, id), EmittedBy(s, id);
            && Subsequence(file, all)
            && (Numbered(file) <==> |file| <= |all| && file == all[..|file|])
  {
    RunKeepsInv(h, capacity, steps);
    var s := Run(h, capacity, steps);
    assert SessionOk(h, s, id);
    var file, all := FileOf(s.log, id), EmittedBy(s, id);
    SubsequencePrefix(file, QueuedFor(s.log.queue, id), all);
    ChainIsNumbered(h, all);
    if Numbered(file) {
      GaplessIsPrefix(file, all);
    }
  }

  /** A session file that passes `verify` is exactly a beginning of what the session emitted. */
  lemma VerifiedFileIsPrefix(k: Checks, capacity: nat, steps: seq<Step>, id: string)
    requires Problems(k, FileOf(Run(k.hash, capacity, steps).log, id)) == []
    ensures var s := Run(k.hash, capacity, steps);
            var file, all := FileOf(s.log, id), EmittedBy(s, id);
            |file| <= |all| && file == all[..|file|]
  {
    var file := FileOf(Run(k.hash, capacity, steps).log, id);
    VerifyIffSound(k, file);
    ChainIsNumbered(k.hash, file);
    DropsAreVisible(k.hash, capacity, steps, id);
  }

  /** Every event offered is dropped, written or still queued; with no drop nothing is missing. */
  lemma EventsAreConserved(h: Hasher, capacity: nat, steps: seq<Step>, id: string)
    ensures var s := Run(h, capacity, steps);
            && s.offered == s.log.drops + s.written + |s.log.queue|
            && (s.log.drops == 0 && s.log.queue == [] ==> FileOf(s.log, id) == EmittedBy(s, id))
  {
    RunKeepsInv(h, capacity, steps);
    var s := Run(h, capacity, steps);
    assert SessionOk(h, s, id);
  }

  // ----- what the audit-incomplete mark says -----

  /** Leaving nothing out. */
  lemma {:induction false} SubsequenceOfSameLength(a: seq<Event>, b: seq<Event>)
    requires Subsequence(a, b)
    ensures |a| <= |b| && (|a| == |b| ==> a == b)
    decreases |b|
  {
    if a != [] {
      var m, n := |a| - 1, |b| - 1;
      if a[m] == b[n] && Subsequence(a[..m], b[..n]) {
        SubsequenceOfSameLength(a[..m], b[..n]);
        assert a == a[..m] + [a[m]] && b == b[..n] + [b[n]];
      } else {
        SubsequenceOfSameLength(a, b[..n]);
      }
    }
  }

  /** The step is an event of the session that could not be hashed or was refused by the queue. */
  predicate Refuses(h: Hasher, s: System, step: Step, id: string) {
    && step.EmitStep? && step.sessionId == id
    && (Build(h, ChainEnd(EmittedBy(s, id)), id, step.ts, step.body).None? || !EventLog.Accepts(s.log, id))
  }

  predicate RefusedAt(h: Hasher, capacity: nat, steps: seq<Step>, i: nat, id: string) {
    i < |steps| && Refuses(h, Run(h, capacity, steps[..i]), steps[i], id)
  }

  /** A session is marked exactly when one of its events could not be hashed or was refused. */
  lemma {:induction false} FlaggedIffRefused(h: Hasher, capacity: nat, steps: seq<Step>, id: string)
    ensures id in Run(h, capacity, steps).flagged <==> exists i: nat :: RefusedAt(h, capacity, steps, i, id)
  {
    if steps != [] {
      var n: nat := |steps| - 1;
      var front := steps[..n];
      FlaggedIffRefused(h, capacity, front, id);
      forall i: nat | i < n ensures RefusedAt(h, capacity, steps, i, id) <==> RefusedAt(h, capacity, front, i, id) {
        assert steps[..i] == front[..i];
      }
      LastFlag(h, Run(h, capacity, front), steps[n], id);
      if Refuses(h, Run(h, capacity, front), steps[n], id) {
        assert RefusedAt(h, capacity, steps, n, id);
      }
      if i: nat :| RefusedAt(h, capacity, front, i, id) {
        assert RefusedAt(h, capacity, steps, i, id);
      }
    }
  }

  lemma LastFlag(h: Hasher, s: System, step: Step, id: string)
    ensures id in Next(h, s, step).flagged <==> id in s.flagged || Refuses(h, s, step, id)
  {
  }

  /** A session without the mark misses only what was lost while draining: its lines are as many fewer than
      its events as records were lost, and if none was, nothing is missing. */
  lemma UnflaggedLosesOnlyInDrain(h: Hasher, capacity: nat, steps: seq<Step>, id: string)
    requires id !in Run(h, capacity, steps).flagged
    ensures var s := Run(h, capacity, steps);
      && |EmittedBy(s, id)| == |Kept(s, id)| + LostOf(s, id)
      && (LostOf(s, id) == 0 ==> Kept(s, id) == EmittedBy(s, id))
  {
    RunKeepsInv(h, capacity, steps);
    var s := Run(h, capacity, steps);
    assert SessionOk(h, s, id);
    SubsequenceOfSameLength(Kept(s, id), EmittedBy(s, id));
  }
}
