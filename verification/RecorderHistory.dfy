/**
 What a recording says of the session it records: after any operations, the bodies one more operation adds,
 told by what is on record already and what the operation was.
 */
module RecorderHistory {
  import opened Wrappers
  import opened Json
  import opened Events
  import opened Recording
  import opened Recorder
  import opened RecorderGuarantees

  function Bodies(file: seq<Event>): (r: seq<Body>)
    ensures |r| == |file| && forall i | 0 <= i < |r| :: r[i] == file[i].core.body
  {
    if file == [] then [] else Bodies(file[..|file| - 1]) + [file[|file| - 1].core.body]
  }

  /** The hash on record for a tool: that of its latest definition. */
  function OnRecord(bodies: seq<Body>, server: string, name: string): Option<Hash> {
    if bodies == [] then None
    else
      var last := bodies[|bodies| - 1];
      if last.ToolDefinition? && last.server == server && ToolName(last.tool) == name then Some(last.defHash)
      else OnRecord(bodies[..|bodies| - 1], server, name)
  }

  predicate Usable(env: Env, tool: Json) {
    HasName(tool) && env.toolHash(tool).Some?
  }

  /** A definition is written if its hash is not the one on record. */
  function Definition(env: Env, bodies: seq<Body>, server: string, tool: Json): seq<Body>
    requires Usable(env, tool)
  {
    var h := env.toolHash(tool);
    if OnRecord(bodies, server, ToolName(tool)) == h then [] else [ToolDefinition(server, tool, h.value)]
  }

  /** The definitions written for a listing: as if each tool were listed alone, up to the first unusable one. */
  function Definitions(env: Env, bodies: seq<Body>, server: string, tools: seq<Json>): seq<Body>
    decreases |tools|
  {
    if tools == [] || !Usable(env, tools[0]) then []
    else
      var one := Definition(env, bodies, server, tools[0]);
      one + Definitions(env, bodies + one, server, tools[1..])
  }

  /** The response to a call: the redacted result or the error, and the time in milliseconds. */
  predicate AnswersCall(env: Env, id: string, result: CallResult, body: Body) {
    && body.ToolResponse? && body.responseId == id && body.latency == result.elapsed * 1000.0
    && (result.Returned? ==> body.ok && body.result == env.redact(result.value))
    && (result.Threw? ==> !body.ok && body.result == result.error)
  }

  /** What a call writes once its definition is on record: the call under that hash with redacted arguments,
      and then the response; whatever has no canonical form is missing, and so is all that follows it. */
  ghost predicate CallWritten(env: Env, x: Encoding, id: string, server: string, name: string, h: Hash, args: Json,
                              result: CallResult, more: seq<Body>)
  {
    var call := ToolCall(id, server, name, h, env.redact(args));
    if !x.encodes(call) then more == []
    else exists response ::
      AnswersCall(env, id, result, response) && more == [call] + if x.encodes(response) then [response] else []
  }

  /** What is written before a call: its definition, if none is on record and one is given. */
  function DefinitionFor(env: Env, bodies: seq<Body>, server: string, name: string, toolDef: Option<Json>): seq<Body> {
    if OnRecord(bodies, server, name).None? && toolDef.Some? && Usable(env, toolDef.value) then
      Definition(env, bodies, server, toolDef.value)
    else []
  }

  /** What a call adds, once what defines its tool is written: nothing more if still none is on record. */
  ghost predicate CallAdds(env: Env, x: Encoding, bodies: seq<Body>, id: string, server: string, name: string,
                           args: Json, defined: seq<Body>, result: CallResult, more: seq<Body>)
  {
    var h := OnRecord(bodies + defined, server, name);
    if h.None? then more == defined
    else exists called ::
      CallWritten(env, x, id, server, name, h.value, args, result, called) && more == defined + called
  }

  /** What one operation adds to the bodies on record. */
  ghost predicate Adds(env: Env, x: Encoding, bodies: seq<Body>, id: string, op: Op, more: seq<Body>) {
    match op
    case DefineOp(server, tools) => more == Definitions(env, bodies, server, tools)
    case WrapOp(server, tool) => more == DefinitionFor(env, bodies, server, ToolName(tool), Some(tool))
    case CallOp(server, name, args, toolDef, result) =>
      CallAdds(env, x, bodies, id, server, name, args, DefinitionFor(env, bodies, server, name, toolDef), result, more)
    case PolicyOp(server, tool, action, reason) =>
      var body := PolicyDecision(server, tool, action, reason);
      more == if x.encodes(body) then [body] else []
  }

  // ----- proof -----

  lemma BodiesSnoc(file: seq<Event>, e: Event)
    ensures Bodies(file + [e]) == Bodies(file) + [e.core.body]
  {
    assert (file + [e])[..|file|] == file;
  }

  lemma {:induction false} OnRecordIsLatest(file: seq<Event>, server: string, name: string)
    ensures OnRecord(Bodies(file), server, name) == LatestDef(file, server, name)
  {
    if file != [] {
      OnRecordIsLatest(file[..|file| - 1], server, name);
      assert Bodies(file)[..|file| - 1] == Bodies(file[..|file| - 1]);
    }
  }

  lemma InForceIsOnRecord(env: Env, k: Checks, st: State, server: string, name: string)
    requires Inv(env, k, st)
    ensures OnRecord(Bodies(st.file), server, name)
         == if (server, name) in st.defs then Some(st.defs[(server, name)]) else None
  {
    OnRecordIsLatest(st.file, server, name);
  }

  /** An event is written exactly if its body can be encoded. */
  lemma EmitWrites(env: Env, x: Encoding, st: State, body: Body)
    requires Encodes(env, x) && |st.file| < x.limit
    ensures var r := Emit(env, st, body);
      && r.raised == !x.encodes(body) && r.st == st.(file := r.st.file)
      && Bodies(r.st.file) == Bodies(st.file) + if x.encodes(body) then [body] else []
  {
    assert ChainEnd(st.file) == Chain(|st.file|, HashBefore(st.file, |st.file|));
    var e := Build(env.hash, ChainEnd(st.file), env.sessionId, env.clock(|st.file|), body);
    if e.Some? {
      BodiesSnoc(st.file, e.value);
    }
  }

  lemma KnownIsKept(env: Env, st: State, server: string, tool: Json)
    requires Usable(env, tool) && (server, ToolName(tool)) in st.defs
    requires st.defs[(server, ToolName(tool))] == env.toolHash(tool).value
    ensures DefineOne(env, st, server, tool) == Result(st, false)
  {
  }

  lemma NewIsDefined(env: Env, st: State, server: string, tool: Json, key: (string, string), h: Hash)
    requires Usable(env, tool) && key == (server, ToolName(tool)) && h == env.toolHash(tool).value
    requires !(key in st.defs && st.defs[key] == h)
    ensures DefineOne(env, st, server, tool)
         == Emit(env, st.(defs := st.defs[key := h]), ToolDefinition(server, tool, h))
  {
  }

  lemma DefineOneWrites(env: Env, k: Checks, x: Encoding, st: State, server: string, tool: Json)
    requires Inv(env, k, st) && Encodes(env, x) && Recordable(env, x, server, tool) && |st.file| < x.limit
    requires Usable(env, tool)
    ensures var r := DefineOne(env, st, server, tool);
      && !r.raised && r.st.drawn == st.drawn
      && Bodies(r.st.file) == Bodies(st.file) + Definition(env, Bodies(st.file), server, tool)
  {
    var key, h := (server, ToolName(tool)), env.toolHash(tool).value;
    InForceIsOnRecord(env, k, st, server, ToolName(tool));
    if key in st.defs && st.defs[key] == h {
      KnownIsKept(env, st, server, tool);
      assert Bodies(st.file) + [] == Bodies(st.file);
    } else {
      NewIsDefined(env, st, server, tool, key, h);
      EmitWrites(env, x, st.(defs := st.defs[key := h]), ToolDefinition(server, tool, h));
    }
  }

  lemma {:induction false} DefineWrites(env: Env, k: Checks, x: Encoding, st: State, server: string, tools: seq<Json>)
    requires Ready(env, k) && Inv(env, k, st) && Encodes(env, x)
    requires forall i | 0 <= i < |tools| :: Recordable(env, x, server, tools[i])
    requires |Define(env, st, server, tools).st.file| < x.limit
    ensures var r := Define(env, st, server, tools).st;
      r.drawn == st.drawn && Bodies(r.file) == Bodies(st.file) + Definitions(env, Bodies(st.file), server, tools)
    decreases |tools|
  {
    DefineGrows(env, st, server, tools);
    if tools != [] && Usable(env, tools[0]) {
      DefineOneWrites(env, k, x, st, server, tools[0]);
      DefineOneKeepsInv(env, k, x, st, server, tools[0]);
      DefineWrites(env, k, x, DefineOne(env, st, server, tools[0]).st, server, tools[1..]);
      DefinitionsOfMore(env, Bodies(st.file), server, tools, Definition(env, Bodies(st.file), server, tools[0]));
    }
  }

  lemma DefinitionsOfMore(env: Env, bodies: seq<Body>, server: string, tools: seq<Json>, one: seq<Body>)
    requires tools != [] && Usable(env, tools[0]) && one == Definition(env, bodies, server, tools[0])
    ensures bodies + Definitions(env, bodies, server, tools)
         == bodies + one + Definitions(env, bodies + one, server, tools[1..])
  {
  }

  lemma EnsureWrites(env: Env, k: Checks, x: Encoding, st: State, server: string, name: string, toolDef: Option<Json>)
    requires Ready(env, k) && Inv(env, k, st) && Encodes(env, x)
    requires toolDef.Some? ==> Recordable(env, x, server, toolDef.value)
    requires |EnsureDefined(env, st, server, name, toolDef).st.file| < x.limit
    ensures var r := EnsureDefined(env, st, server, name, toolDef);
      && r.st.drawn == st.drawn
      && Bodies(r.st.file) == Bodies(st.file) + DefinitionFor(env, Bodies(st.file), server, name, toolDef)
  {
    InForceIsOnRecord(env, k, st, server, name);
    if (server, name) !in st.defs && toolDef.Some? {
      DefineWrites(env, k, x, st, server, [toolDef.value]);
      OneDefinition(env, Bodies(st.file), server, toolDef.value);
    } else {
      assert Bodies(st.file) + [] == Bodies(st.file);
    }
  }

  lemma EnsuredIsOnRecord(env: Env, k: Checks, x: Encoding, st: State, server: string, name: string,
                          toolDef: Option<Json>)
    requires Ready(env, k) && Inv(env, k, st) && Encodes(env, x)
    requires toolDef.Some? ==> Recordable(env, x, server, toolDef.value)
    requires |EnsureDefined(env, st, server, name, toolDef).st.file| < x.limit
    ensures var r := EnsureDefined(env, st, server, name, toolDef);
      && Inv(env, k, r.st)
      && OnRecord(Bodies(r.st.file), server, name)
         == if (server, name) in r.st.defs then Some(r.st.defs[(server, name)]) else None
  {
    EnsureKeepsInv(env, k, x, st, server, name, toolDef);
    InForceIsOnRecord(env, k, EnsureDefined(env, st, server, name, toolDef).st, server, name);
  }

  lemma OneDefinition(env: Env, bodies: seq<Body>, server: string, tool: Json)
    ensures Definitions(env, bodies, server, [tool])
         == if Usable(env, tool) then Definition(env, bodies, server, tool) else []
  {
  }

  lemma ResponseAnswers(env: Env, id: string, result: CallResult)
    ensures AnswersCall(env, id, result, ResponseBody(env, id, result))
  {
  }

  lemma WrittenCall(env: Env, x: Encoding, id: string, server: string, name: string, h: Hash, args: Json,
                    result: CallResult, response: Body, called: seq<Body>)
    requires AnswersCall(env, id, result, response)
    requires var call := ToolCall(id, server, name, h, env.redact(args));
      called == if !x.encodes(call) then [] else [call] + if x.encodes(response) then [response] else []
    ensures CallWritten(env, x, id, server, name, h, args, result, called)
  {
  }

  /** The call and the response, one after the other. */
  lemma TwoWrites(env: Env, x: Encoding, st: State, call: Body, response: Body)
    requires Encodes(env, x) && |st.file| + 1 < x.limit
    ensures var c := Emit(env, st, call);
      var r := if c.raised then c else Emit(env, c.st, response);
      && r.st.drawn == st.drawn
      && Bodies(r.st.file) == Bodies(st.file) + (if !x.encodes(call) then []
                                                 else [call] + if x.encodes(response) then [response] else [])
  {
    var c := Emit(env, st, call);
    EmitWrites(env, x, st, call);
    if c.raised {
      assert Bodies(st.file) + [] == Bodies(st.file);
    } else {
      EmitWrites(env, x, c.st, response);
      var more := if x.encodes(response) then [response] else [];
      assert Bodies(st.file) + [call] + more == Bodies(st.file) + ([call] + more);
    }
  }

  lemma CallWrites(env: Env, x: Encoding, st: State, server: string, name: string, args: Json, result: CallResult)
    returns (called: seq<Body>)
    requires Encodes(env, x) && (server, name) in st.defs && |st.file| + 1 < x.limit
    ensures CallWritten(env, x, env.ids(st.drawn), server, name, st.defs[(server, name)], args, result, called)
    ensures var r := CallDefined(env, st, server, name, args, result).st;
      r.drawn == st.drawn + 1 && Bodies(r.file) == Bodies(st.file) + called
  {
    var id, h := env.ids(st.drawn), st.defs[(server, name)];
    var call, response := ToolCall(id, server, name, h, env.redact(args)), ResponseBody(env, id, result);
    TwoWrites(env, x, st.(drawn := st.drawn + 1), call, response);
    ResponseAnswers(env, id, result);
    called := if !x.encodes(call) then [] else [call] + if x.encodes(response) then [response] else [];
    WrittenCall(env, x, id, server, name, h, args, result, response, called);
  }

  lemma CallAddsUp(env: Env, x: Encoding, bodies: seq<Body>, id: string, server: string, name: string, args: Json,
                   defined: seq<Body>, result: CallResult, h: Hash, called: seq<Body>)
    requires OnRecord(bodies + defined, server, name) == Some(h)
    requires CallWritten(env, x, id, server, name, h, args, result, called)
    ensures CallAdds(env, x, bodies, id, server, name, args, defined, result, defined + called)
    ensures bodies + defined + called == bodies + (defined + called)
  {
  }

  lemma PerformedCall(env: Env, st: State, op: Op, d: Result)
    requires op.CallOp? && d == EnsureDefined(env, st, op.callServer, op.name, op.toolDef)
    ensures !d.raised ==> (op.callServer, op.name) in d.st.defs
    ensures !d.raised ==>
      Perform(env, st, op) == CallDefined(env, d.st, op.callServer, op.name, op.args, op.result).st
    ensures d.raised ==> Perform(env, st, op) == d.st
  {
  }

  /** A definition that raised cannot be one that leaves its hash in force: nothing is on record. */
  lemma RaisedIsNotOnRecord(env: Env, k: Checks, x: Encoding, st: State, server: string, name: string,
                            toolDef: Option<Json>)
    requires Ready(env, k) && Inv(env, k, st) && Encodes(env, x)
    requires toolDef.Some? ==> Recordable(env, x, server, toolDef.value)
    requires |EnsureDefined(env, st, server, name, toolDef).st.file| < x.limit
    requires EnsureDefined(env, st, server, name, toolDef).raised
    ensures (server, name) !in EnsureDefined(env, st, server, name, toolDef).st.defs
  {
    if toolDef.Some? {
      DefineGrows(env, st, server, [toolDef.value]);
      if Usable(env, toolDef.value) {
        DefineOneWrites(env, k, x, st, server, toolDef.value);
      }
    }
  }

  lemma CallOpWrites(env: Env, k: Checks, x: Encoding, st: State, op: Op, d: Result, defined: seq<Body>)
    returns (more: seq<Body>)
    requires Ready(env, k) && Inv(env, k, st) && Encodes(env, x) && op.CallOp? && OffersRecordable(env, x, op)
    requires |Perform(env, st, op).file| + 1 < x.limit
    requires d == EnsureDefined(env, st, op.callServer, op.name, op.toolDef)
    requires defined == DefinitionFor(env, Bodies(st.file), op.callServer, op.name, op.toolDef)
    ensures CallAdds(env, x, Bodies(st.file), env.ids(st.drawn), op.callServer, op.name, op.args, defined, op.result,
                     more)
    ensures Bodies(Perform(env, st, op).file) == Bodies(st.file) + more
  {
    PerformGrows(env, st, op);
    EnsureWrites(env, k, x, st, op.callServer, op.name, op.toolDef);
    EnsuredIsOnRecord(env, k, x, st, op.callServer, op.name, op.toolDef);
    PerformedCall(env, st, op, d);
    if d.raised {
      RaisedIsNotOnRecord(env, k, x, st, op.callServer, op.name, op.toolDef);
      more := defined;
    } else {
      var h := d.st.defs[(op.callServer, op.name)];
      var called := CallWrites(env, x, d.st, op.callServer, op.name, op.args, op.result);
      CallAddsUp(env, x, Bodies(st.file), env.ids(st.drawn), op.callServer, op.name, op.args, defined, op.result, h,
                 called);
      more := defined + called;
    }
  }

  lemma OpWrites(env: Env, k: Checks, x: Encoding, st: State, op: Op) returns (more: seq<Body>)
    requires Ready(env, k) && Inv(env, k, st) && Encodes(env, x) && OffersRecordable(env, x, op)
    requires |Perform(env, st, op).file| + 1 < x.limit
    ensures Adds(env, x, Bodies(st.file), env.ids(st.drawn), op, more)
    ensures Bodies(Perform(env, st, op).file) == Bodies(st.file) + more
  {
    PerformGrows(env, st, op);
    match op
    case DefineOp(server, tools) =>
      DefineWrites(env, k, x, st, server, tools);
      more := Definitions(env, Bodies(st.file), server, tools);
    case WrapOp(server, tool) =>
      EnsureWrites(env, k, x, st, server, ToolName(tool), Some(tool));
      more := DefinitionFor(env, Bodies(st.file), server, ToolName(tool), Some(tool));
    case CallOp(server, name, _, toolDef, _) =>
      more := CallOpWrites(env, k, x, st, op, EnsureDefined(env, st, server, name, toolDef),
                           DefinitionFor(env, Bodies(st.file), server, name, toolDef));
    case PolicyOp(server, tool, action, reason) =>
      EmitWrites(env, x, st, PolicyDecision(server, tool, action, reason));
      more := if x.encodes(PolicyDecision(server, tool, action, reason)) then
        [PolicyDecision(server, tool, action, reason)] else [];
  }

  /**
   Whatever a session did before, one more operation adds to the recording exactly what it should: a listing
   its new or changed definitions, a call its missing definition, then the call with redacted arguments under
   the hash on record and the response, with an id no call had before.
   */
  lemma OperationsAreRecorded(env: Env, k: Checks, x: Encoding, ops: seq<Op>, op: Op)
    requires Ready(env, k) && Encodes(env, x) && !Enter(env).raised
    requires AllRecordable(env, x, ops) && OffersRecordable(env, x, op)
    requires |Perform(env, PerformAll(env, Enter(env).st, ops), op).file| + 1 < x.limit
    ensures var st := PerformAll(env, Enter(env).st, ops);
      && (exists more :: Adds(env, x, Bodies(st.file), env.ids(st.drawn), op, more)
                         && Bodies(Perform(env, st, op).file) == Bodies(st.file) + more)
      && forall b | b in Bodies(st.file) && b.ToolCall? :: b.callId != env.ids(st.drawn)
  {
    var st := PerformAll(env, Enter(env).st, ops);
    PerformGrows(env, st, op);
    SessionKeepsInv(env, k, x, ops);
    var more := OpWrites(env, k, x, st, op);
    FreshId(env, k, st);
    forall i | 0 <= i < |st.file| && Bodies(st.file)[i].ToolCall?
      ensures Bodies(st.file)[i].callId != env.ids(st.drawn)
    {
      assert !Calls(st.file[i], env.ids(st.drawn));
    }
  }
}
