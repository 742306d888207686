/** The session object of the proxy: its methods carry out the rules of module Pins under one mutex and
    append to the session's hash chain. */
module Session {
  import opened Wrappers
  import opened Json
  import opened Events
  import opened Pins
  import opened EventLog

  /** The event hash and the wall-clock text read when event number n is built. */
  datatype Env = Env(hash: Hasher, clock: nat -> string)

  /** A chain, the log it writes to, and what happened on the way. */
  datatype Emission = Emission(chain: Chain, log: Log, events: seq<Event>, incomplete: bool)

  /** Building one event: numbered and hashed, or nothing when hashing fails. */
  function EmitOne(env: Env, id: string, c: Chain, l: Log, body: Body): Emission {
    var e := Build(env.hash, c, id, env.clock(c.next), body);
    if e.None? then Emission(c, l, [], true)
    else Emission(Advance(c, e.value), EnqueueNext(l, Record(id, e.value)), [e.value], !Accepts(l, id))
  }

  function EmitAll(env: Env, id: string, c: Chain, l: Log, bodies: seq<Body>): Emission
    decreases |bodies|
  {
    if bodies == [] then Emission(c, l, [], false)
    else
      var first := EmitOne(env, id, c, l, bodies[0]);
      var rest := EmitAll(env, id, first.chain, first.log, bodies[1..]);
      Emission(rest.chain, rest.log, first.events + rest.events, first.incomplete || rest.incomplete)
  }

  /** After the first body, the rest continues from where it left the chain and the log. */
  lemma EmitAllStep(env: Env, id: string, c: Chain, l: Log, bodies: seq<Body>, done: seq<Event>, bad: bool)
    requires bodies != []
    ensures var first := EmitOne(env, id, c, l, bodies[0]);
            var rest := EmitAll(env, id, first.chain, first.log, bodies[1..]);
            var all := EmitAll(env, id, c, l, bodies);
            && all.chain == rest.chain && all.log == rest.log
            && done + all.events == (done + first.events) + rest.events
            && (bad || all.incomplete) == ((bad || first.incomplete) || rest.incomplete)
  {
    var first := EmitOne(env, id, c, l, bodies[0]);
    Regroup(done, first.events, EmitAll(env, id, first.chain, first.log, bodies[1..]).events);
  }

  lemma Regroup(a: seq<Event>, b: seq<Event>, c: seq<Event>)
    ensures a + (b + c) == (a + b) + c
  {
  }

  class Session {
    const id: string
    const env: Env
    var started: bool
    var agent: string
    var pinned: Pinned
    var nextSeq: nat
    var nextChange: nat
    var prevHash: Option<Hash>
    var auditIncomplete: bool
    ghost var emitted: seq<Event>

    ghost predicate Valid()
      reads this
    {
      IsChain(env.hash, emitted) && ChainEnd(emitted) == Chain(nextSeq, prevHash)
    }

    /** `newSession`. */
    constructor (id: string, env: Env)
      ensures Valid() && this.id == id && this.env == env
      ensures pinned == map[] && nextChange == 0 && !started && !auditIncomplete && emitted == []
    {
      this.id, this.env := id, env;
      started, agent, pinned := false, "", map[];
      nextSeq, nextChange, prevHash, auditIncomplete, emitted := 0, 0, None, false, [];
    }

    /** What this session and its writer look like after emitting `bodies` from the given state. */
    twostate predicate Emitted(w: Writer, bodies: seq<Body>)
      reads this, w
    {
      var r := EmitAll(env, id, Chain(old(nextSeq), old(prevHash)), old(w.Now()), bodies);
      && Chain(nextSeq, prevHash) == r.chain
      && w.Now() == r.log
      && emitted == old(emitted) + r.events
      && auditIncomplete == (old(auditIncomplete) || r.incomplete)
    }

    /** `buildEventLocked` followed by `emit`. */
    method EmitBody(w: Writer, body: Body)
      requires Valid()
      modifies this`nextSeq, this`prevHash, this`auditIncomplete, this`emitted, w
      ensures Valid()
      ensures var r := EmitOne(env, id, Chain(old(nextSeq), old(prevHash)), old(w.Now()), body);
              && Chain(nextSeq, prevHash) == r.chain && w.Now() == r.log
              && emitted == old(emitted) + r.events
              && auditIncomplete == (old(auditIncomplete) || r.incomplete)
    {
      var e := Build(env.hash, Chain(nextSeq, prevHash), id, env.clock(nextSeq), body);
      if e.None? {
        auditIncomplete := true;
        return;
      }
      BuildExtendsChain(env.hash, emitted, id, env.clock(nextSeq), body);
      prevHash := e.value.eventHash;
      nextSeq := nextSeq + 1;
      emitted := emitted + [e.value];
      var ok := w.Enqueue(id, e.value);
      if !ok {
        auditIncomplete := true;
      }
    }

    method EmitBodies(w: Writer, bodies: seq<Body>)
      requires Valid()
      modifies this`nextSeq, this`prevHash, this`auditIncomplete, this`emitted, w
      ensures Valid() && Emitted(w, bodies)
    {
      ghost var goal := EmitAll(env, id, Chain(nextSeq, prevHash), w.Now(), bodies);
      ghost var done: seq<Event> := [];
      ghost var bad := false;
      assert [] + goal.events == goal.events;
      for i := 0 to |bodies|
        invariant Valid()
        invariant emitted == old(emitted) + done && auditIncomplete == (old(auditIncomplete) || bad)
        invariant var r := EmitAll(env, id, Chain(nextSeq, prevHash), w.Now(), bodies[i..]);
                  && goal.chain == r.chain && goal.log == r.log
                  && goal.events == done + r.events && goal.incomplete == (bad || r.incomplete)
      {
        ghost var rest := bodies[i..];
        assert rest != [] && rest[0] == bodies[i] && rest[1..] == bodies[i + 1..];
        EmitAllStep(env, id, Chain(nextSeq, prevHash), w.Now(), rest, done, bad);
        ghost var first := EmitOne(env, id, Chain(nextSeq, prevHash), w.Now(), bodies[i]);
        EmitBody(w, bodies[i]);
        assert old(emitted) + done + first.events == old(emitted) + (done + first.events);
        done := done + first.events;
        bad := bad || first.incomplete;
      }
      assert done + [] == done;
    }

    /** `EnsureStarted`. */
    method EnsureStarted(w: Writer, agentName: string)
      requires Valid()
      modifies this, w
      ensures Valid() && started
      ensures pinned == old(pinned) && nextChange == old(nextChange)
      ensures agent == if old(started) then old(agent) else agentName
      ensures Emitted(w, if old(started) then [] else [SessionStart(agentName)])
    {
      if started {
        assert emitted + [] == emitted;
        return;
      }
      started := true;
      agent := agentName;
      EmitBodies(w, [SessionStart(agentName)]);
    }

    /** `EmitEvent`. */
    method EmitEvent(w: Writer, body: Body)
      requires Valid()
      modifies this`nextSeq, this`prevHash, this`auditIncomplete, this`emitted, w
      ensures Valid() && Emitted(w, [body])
    {
      EmitBodies(w, [body]);
    }

    /** First case of `ObserveDefinition`: pin on first sight. */
    method PinFirst(server: string, name: string, tool: Json, defHash: Hash, schema: Option<Json>, schemaError: string)
      returns (outcome: Outcome, events: seq<Body>)
      modifies this`pinned
      ensures Observed(pinned, nextChange, outcome, events)
           == FirstSight(old(pinned), nextChange, server, name, tool, defHash, schema, schemaError)
    {
      pinned := pinned[Key(server, name) :=
                       PinnedTool(defHash, tool, schema, schemaError, "", RiskClass(tool), schemaError != "", None)];
      events := [ToolDefinition(server, tool, defHash)];
      outcome := Outcome(ActPinned, 0, "", defHash);
      if schemaError != "" {
        outcome := Outcome(ActInvalid, 0, "", defHash);
        events := events + [Block(server, name, "TOOL_SCHEMA_INVALID: " + schemaError)];
      }
    }

    /** Second case: the pinned hash again.  `pt` is the pinned record with its invalid mark cleared. */
    method KeepPin(server: string, name: string, pt: PinnedTool, hadInvalidDefinition: bool, schemaError: string)
      returns (outcome: Outcome, events: seq<Body>)
      modifies this`pinned
      ensures Observed(pinned, nextChange, outcome, events)
           == SameHash(old(pinned), nextChange, server, name, pt, hadInvalidDefinition, schemaError)
    {
      var p := pt;
      events := [];
      if schemaError == "" && (hadInvalidDefinition || p.pending.Some?) {
        p := p.(suspended := false, pending := None);
        events := [PolicyDecision(server, name, "resume",
                                  "previously pinned definition restored after blocked change")];
      }
      var action := ActUnchanged;
      if p.suspended {
        action := ActPending;
      }
      if p.schemaError != "" {
        action := ActInvalid;
      }
      pinned := pinned[Key(server, name) := p];
      outcome := Outcome(action, 0, p.defHash, p.defHash);
    }

    /** Fourth case: the pending change again. */
    method RepeatChange(server: string, name: string, pt: PinnedTool) returns (outcome: Outcome, events: seq<Body>)
      requires pt.pending.Some?
      modifies this`pinned
      ensures Observed(pinned, nextChange, outcome, events) == ChangeAgain(old(pinned), nextChange, server, name, pt)
    {
      var p, c := pt, pt.pending.value;
      var action := ActPending;
      if c.schemaError != "" {
        action := ActInvalid;
      } else if c.unreachable && !c.verdictApplied {
        p := p.(pending := Some(c.(unreachable := false)));
        action := ActRetry;
      }
      pinned := pinned[Key(server, name) := p];
      outcome := Outcome(action, c.revision, p.defHash, c.newHash);
      events := [];
    }

    /** Last case: a new change suspends the tool under a new revision. */
    method SuspendOnChange(server: string, name: string, pt: PinnedTool, tool: Json, defHash: Hash,
                           schema: Option<Json>, schemaError: string)
      returns (outcome: Outcome, events: seq<Body>)
      modifies this`pinned, this`nextChange
      ensures Observed(pinned, nextChange, outcome, events)
           == NewChange(old(pinned), old(nextChange), server, name, pt, tool, defHash, schema, schemaError)
    {
      nextChange := NextRevision(nextChange);
      var c := PendingChange(nextChange, defHash, tool, schema, schemaError, RiskClass(tool), false, false);
      pinned := pinned[Key(server, name) := pt.(suspended := true, pending := Some(c))];
      var action := ActMismatch;
      var reason := ChangedReason(pt.defHash, defHash);
      if schemaError != "" {
        action := ActInvalid;
        reason := "TOOL_SCHEMA_INVALID: " + schemaError;
      }
      outcome := Outcome(action, nextChange, pt.defHash, defHash);
      events := [ToolDefinition(server, tool, defHash), Block(server, name, reason)];
    }

    /** The switch of `ObserveDefinition`: updates the pin and collects the events to emit. */
    method UpdatePin(server: string, name: string, tool: Json, defHash: Hash, schema: Option<Json>, schemaError: string)
      returns (outcome: Outcome, events: seq<Body>)
      modifies this`pinned, this`nextChange
      ensures Observed(pinned, nextChange, outcome, events)
           == Observe(old(pinned), old(nextChange), server, name, tool, defHash, schema, schemaError)
    {
      var key := Key(server, name);
      if key !in pinned {
        outcome, events := PinFirst(server, name, tool, defHash, schema, schemaError);
        return;
      }
      var hadInvalidDefinition := pinned[key].invalidDefinition != "";
      var pt := pinned[key].(invalidDefinition := "");
      if pt.defHash == defHash {
        outcome, events := KeepPin(server, name, pt, hadInvalidDefinition, schemaError);
      } else if pt.schemaError != "" && schemaError == "" {
        pinned := pinned[key := PinnedTool(defHash, tool, schema, "", "", RiskClass(tool), false, None)];
        events := [ToolDefinition(server, tool, defHash)];
        outcome := Outcome(ActPinned, 0, pt.defHash, defHash);
      } else if pt.pending.Some? && pt.pending.value.newHash == defHash {
        outcome, events := RepeatChange(server, name, pt);
      } else {
        outcome, events := SuspendOnChange(server, name, pt, tool, defHash, schema, schemaError);
      }
    }

    /** `ObserveDefinition`. */
    method ObserveDefinition(w: Writer, server: string, name: string, tool: Json, defHash: Hash,
                             schema: Option<Json>, schemaError: string)
      returns (outcome: Outcome)
      requires Valid()
      modifies this, w
      ensures Valid() && started == old(started) && agent == old(agent)
      ensures var o := Observe(old(pinned), old(nextChange), server, name, tool, defHash, schema, schemaError);
              && pinned == o.pinned && nextChange == o.nextChange && outcome == o.outcome
              && Emitted(w, o.bodies)
    {
      var events;
      outcome, events := UpdatePin(server, name, tool, defHash, schema, schemaError);
      EmitBodies(w, events);
    }

    /** `RejectDefinition`. */
    method RejectDefinition(w: Writer, server: string, name: string, reason: string)
      requires Valid()
      modifies this, w
      ensures Valid() && started == old(started) && agent == old(agent)
      ensures pinned == Reject(old(pinned), server, name, reason) && nextChange == old(nextChange)
      ensures Emitted(w, [RejectBody(server, name, reason)])
    {
      var key := Key(server, name);
      if key !in pinned {
        pinned := pinned[key := PinnedTool("", Null, None, reason, "", "", false, None)];
      }
      pinned := pinned[key := pinned[key].(invalidDefinition := reason, suspended := true, pending := None)];
      assert pinned == Reject(old(pinned), server, name, reason);
      EmitBodies(w, [RejectBody(server, name, reason)]);
    }

    /** `ApplyVerdict`. */
    method ApplyVerdict(w: Writer, server: string, name: string, revision: nat, unreachable: bool, verdict: string,
                        reason: string)
      requires Valid()
      modifies this, w
      ensures Valid() && started == old(started) && agent == old(agent) && nextChange == old(nextChange)
      ensures var a := Apply(old(pinned), server, name, revision, unreachable, verdict, reason);
              pinned == a.pinned && Emitted(w, a.bodies)
    {
      var key := Key(server, name);
      if key !in pinned || pinned[key].pending.None? || pinned[key].pending.value.revision != revision
         || pinned[key].pending.value.verdictApplied {
        assert emitted + [] == emitted;
        return;
      }
      var c := pinned[key].pending.value;
      if unreachable {
        pinned := pinned[key := pinned[key].(pending := Some(c.(unreachable := true)))];
        assert emitted + [] == emitted;
        return;
      }
      pinned := pinned[key := pinned[key].(pending := Some(c.(verdictApplied := true)))];
      var events: seq<Body> := [];
      if c.schemaError != "" {
        events := [Block(server, name, "TOOL_SCHEMA_INVALID: an invalid schema cannot be resumed")];
      } else if verdict == "resume" || verdict == "warn" {
        pinned := pinned[key := PinnedTool(c.newHash, c.newTool, c.newSchema, "", "", c.risk, false, None)];
        events := [PolicyDecision(server, name, ActionFor(verdict), reason)];
      } else if verdict == "quarantine" {
        events := [PolicyDecision(server, name, "quarantine", reason)];
      } else {
        events := [Block(server, name, reason)];
      }
      assert pinned == Apply(old(pinned), server, name, revision, unreachable, verdict, reason).pinned;
      EmitBodies(w, events);
    }

    /** `PrepareCall`. */
    method PrepareCall(server: string, name: string) returns (d: Decision)
      ensures d == Prepare(pinned, server, name)
    {
      var key := Key(server, name);
      if key !in pinned {
        return Denied("TOOL_NOT_PINNED");
      }
      var pt := pinned[key];
      if pt.invalidDefinition != "" {
        return Denied("TOOL_SCHEMA_INVALID");
      }
      if pt.schemaError != "" {
        return Denied("TOOL_SCHEMA_INVALID");
      }
      if pt.pending.Some? && pt.pending.value.schemaError != "" {
        return Denied("TOOL_SCHEMA_INVALID");
      }
      if !pt.suspended {
        return Allowed("", pt.defHash, pt.schema);
      }
      if pt.pending.Some? && !pt.pending.value.verdictApplied && pt.pending.value.unreachable
         && pt.risk == READ_ONLY && pt.pending.value.risk == READ_ONLY {
        return Allowed(UNREACHABLE_CODE, pt.pending.value.newHash, pt.pending.value.newSchema);
      }
      return Denied("TOOL_CONTRACT_CHANGED");
    }
  }
}
