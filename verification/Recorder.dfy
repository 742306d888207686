/** The recorder: a writer of hash-chained events, and the proof that what it writes verifies. */
module Recorder {
  import opened Wrappers
  import opened Json
  import opened Events
  import opened Recording

  /** Everything a recorder is configured with: the two hashes, the session, the clock (read once per
      event), the id generator and the redactor. */
  datatype Env = Env(
    hash: Hasher, toolHash: Json -> Option<Hash>, sessionId: string, agent: string,
    clock: nat -> string, ids: nat -> string, redact: Json -> Json)

  type Defs = map<(string, string), Hash>

  /** The recorder's state: definitions in force, lines written, ids drawn. */
  datatype State = State(defs: Defs, file: seq<Event>, drawn: nat)

  /** A state and whether the Python call raised on the way there. */
  datatype Result = Result(st: State, raised: bool)

  // ----- one call, as a function of the state -----

  function Emit(env: Env, st: State, body: Body): Result {
    var e := Build(env.hash, ChainEnd(st.file), env.sessionId, env.clock(|st.file|), body);
    if e.None? then Result(st, true) else Result(st.(file := st.file + [e.value]), false)
  }

  predicate HasName(tool: Json) {
    tool.Obj? && Get(tool, "name").Str?
  }

  /** The body of the `record_definitions` loop: a new or changed hash is remembered, then recorded. */
  function DefineOne(env: Env, st: State, server: string, tool: Json): Result {
    if !HasName(tool) || env.toolHash(tool).None? then Result(st, true)
    else
      var key, h := (server, ToolName(tool)), env.toolHash(tool).value;
      if key in st.defs && st.defs[key] == h then Result(st, false)
      else Emit(env, st.(defs := st.defs[key := h]), ToolDefinition(server, tool, h))
  }

  function Define(env: Env, st: State, server: string, tools: seq<Json>): Result
    decreases |tools|
  {
    if tools == [] then Result(st, false)
    else
      var r := DefineOne(env, st, server, tools[0]);
      if r.raised then r else Define(env, r.st, server, tools[1..])
  }

  /** `_def_hash`: make sure a definition is on record; the hash is the one then in force. */
  function EnsureDefined(env: Env, st: State, server: string, name: string, toolDef: Option<Json>): Result {
    if (server, name) in st.defs then Result(st, false)
    else if toolDef.None? then Result(st, true)
    else
      var r := Define(env, st, server, [toolDef.value]);
      Result(r.st, r.raised || (server, name) !in r.st.defs)
  }

  /** What the wrapped function did, and the seconds it took. */
  datatype CallResult = Returned(value: Json, elapsed: real) | Threw(error: Json, elapsed: real)

  function ResponseBody(env: Env, id: string, result: CallResult): Body {
    match result
    case Returned(v, t) => ToolResponse(id, true, env.redact(v), t * 1000.0)
    case Threw(e, t) => ToolResponse(id, false, e, t * 1000.0)
  }

  /** The call event and its response, once the definition is on record. */
  function CallDefined(env: Env, st: State, server: string, name: string, args: Json, result: CallResult): Result
    requires (server, name) in st.defs
  {
    var id := env.ids(st.drawn);
    var c := Emit(env, st.(drawn := st.drawn + 1),
                  ToolCall(id, server, name, st.defs[(server, name)], env.redact(args)));
    if c.raised then c else Emit(env, c.st, ResponseBody(env, id, result))
  }

  /** `call`: ensure a definition, emit the call, run the function, emit the response. */
  function Call(env: Env, st: State, server: string, name: string, args: Json, toolDef: Option<Json>,
                result: CallResult): Result
  {
    var d := EnsureDefined(env, st, server, name, toolDef);
    if d.raised then d else CallDefined(env, d.st, server, name, args, result)
  }

  // ----- whole sessions -----

  datatype Op =
    | DefineOp(server: string, tools: seq<Json>)
    | WrapOp(wrapServer: string, wrapTool: Json)
    | CallOp(callServer: string, name: string, args: Json, toolDef: Option<Json>, result: CallResult)
    | PolicyOp(policyServer: string, policyTool: string, action: string, reason: string)

  /** One operation by the session's user, who may go on after an exception. */
  function Perform(env: Env, st: State, op: Op): State {
    match op
    case DefineOp(server, tools) => Define(env, st, server, tools).st
    case WrapOp(server, tool) => EnsureDefined(env, st, server, ToolName(tool), Some(tool)).st
    case CallOp(server, name, args, toolDef, result) => Call(env, st, server, name, args, toolDef, result).st
    case PolicyOp(server, tool, action, reason) => Emit(env, st, PolicyDecision(server, tool, action, reason)).st
  }

  function PerformAll(env: Env, st: State, ops: seq<Op>): State {
    if ops == [] then st else Perform(env, PerformAll(env, st, ops[..|ops| - 1]), ops[|ops| - 1])
  }

  const FRESH := State(map[], [], 0)

  function Enter(env: Env): Result {
    Emit(env, FRESH, SessionStart(env.agent))
  }

  function Exit(env: Env, st: State, endReason: string): Result {
    Emit(env, st, SessionEnd(endReason))
  }

  // ----- the class -----

  class Recorder {
    const env: Env
    var nextSeq: nat
    var prevHash: Option<Hash>
    var defs: Defs
    var drawn: nat
    var file: seq<Event>  // the lines written so far

    ghost predicate Valid()
      reads this
    {
      Chain(nextSeq, prevHash) == ChainEnd(file)
    }

    ghost function Now(): State
      reads this
    {
      State(defs, file, drawn)
    }

    constructor (env: Env)
      ensures Valid() && Now() == FRESH && this.env == env
    {
      this.env := env;
      nextSeq, prevHash, defs, drawn, file := 0, None, map[], 0, [];
    }

    /** `_emit`. */
    method EmitEvent(body: Body) returns (raised: bool)
      requires Valid()
      modifies this`nextSeq, this`prevHash, this`file
      ensures Valid() && Result(Now(), raised) == Emit(env, old(Now()), body)
    {
      var e := Build(env.hash, Chain(nextSeq, prevHash), env.sessionId, env.clock(nextSeq), body);
      if e.None? {
        return true;
      }
      file := file + [e.value];
      nextSeq := nextSeq + 1;
      prevHash := e.value.eventHash;
      return false;
    }

    /** `__enter__`. */
    method EnterSession() returns (raised: bool)
      requires Valid() && Now() == FRESH
      modifies this
      ensures Valid() && Result(Now(), raised) == Enter(env)
    {
      raised := EmitEvent(SessionStart(env.agent));
    }

    /** `__exit__`. */
    method ExitSession(failed: bool) returns (raised: bool)
      requires Valid()
      modifies this
      ensures Valid() && Result(Now(), raised) == Exit(env, old(Now()), if failed then "error" else "completed")
    {
      raised := EmitEvent(SessionEnd(if failed then "error" else "completed"));
    }

    /** `record_definitions`. */
    method RecordDefinitions(server: string, tools: seq<Json>) returns (raised: bool)
      requires Valid()
      modifies this
      ensures Valid() && Result(Now(), raised) == Define(env, old(Now()), server, tools)
    {
      for i := 0 to |tools|
        invariant Valid()
        invariant Define(env, old(Now()), server, tools) == Define(env, Now(), server, tools[i..])
      {
        var tool := tools[i];
        assert tools[i..][1..] == tools[i + 1..];
        if !HasName(tool) {
          return true;
        }
        var h := env.toolHash(tool);
        if h.None? {
          return true;
        }
        var key := (server, ToolName(tool));
        if key in defs && defs[key] == h.value {
          continue;
        }
        defs := defs[key := h.value];
        raised := EmitEvent(ToolDefinition(server, tool, h.value));
        if raised {
          return true;
        }
      }
      return false;
    }

    /** `_def_hash`. */
    method DefHash(server: string, name: string, toolDef: Option<Json>) returns (h: Option<Hash>)
      requires Valid()
      modifies this
      ensures Valid() && Result(Now(), h.None?) == EnsureDefined(env, old(Now()), server, name, toolDef)
      ensures h.Some? ==> (server, name) in defs && h.value == defs[(server, name)]
    {
      if (server, name) in defs {
        return Some(defs[(server, name)]);
      }
      if toolDef.None? {
        return None;
      }
      var raised := RecordDefinitions(server, [toolDef.value]);
      if raised || (server, name) !in defs {
        return None;
      }
      return Some(defs[(server, name)]);
    }

    /** `call`, with what the wrapped function did given as `result`. */
    method RecordCall(server: string, name: string, args: Json, toolDef: Option<Json>, result: CallResult)
      returns (raised: bool)
      requires Valid()
      modifies this
      ensures Valid() && Result(Now(), raised) == Call(env, old(Now()), server, name, args, toolDef, result)
    {
      var h := DefHash(server, name, toolDef);
      if h.None? {
        return true;
      }
      var id := env.ids(drawn);
      drawn := drawn + 1;
      raised := EmitEvent(ToolCall(id, server, name, h.value, env.redact(args)));
      if raised {
        return true;
      }
      raised := EmitEvent(ResponseBody(env, id, result));
    }

    /** `policy_decision`. */
    method RecordPolicy(server: string, tool: string, action: string, reason: string) returns (raised: bool)
      requires Valid()
      modifies this
      ensures Valid() && Result(Now(), raised) == Emit(env, old(Now()), PolicyDecision(server, tool, action, reason))
    {
      raised := EmitEvent(PolicyDecision(server, tool, action, reason));
    }
  }
}
