/**
 The recording schema on the events a recorder writes, and what it means for recorded sessions: they verify
 exactly if what they were given has the shape the schema asks for.
 */
module RecordingSchema {
  import opened Wrappers
  import opened Json
  import opened Events
  import opened Recording
  import opened Recorder
  import opened RecorderGuarantees

  // ----- the schema -----

  predicate HexDigit(c: char) {
    '0' <= c <= '9' || 'a' <= c <= 'f'
  }

  /** The hash pattern; its `$` also matches before a final newline. */
  predicate HashText(s: string) {
    var t := if s != "" && s[|s| - 1] == '\n' then s[..|s| - 1] else s;
    |t| == 71 && t[..7] == "sha256:" && forall i | 7 <= i < 71 :: HexDigit(t[i])
  }

  /** The member is absent or a dict. */
  predicate OptionalDict(fields: seq<Field>, key: string) {
    Has(fields, key) ==> Lookup(fields, key).value.Obj?
  }

  predicate ToolConforms(tool: Json) {
    && tool.Obj? && HasName(tool)
    && Has(tool.fields, "inputSchema") && OptionalDict(tool.fields, "inputSchema")
    && (Has(tool.fields, "description") ==> Lookup(tool.fields, "description").value.Str?)
    && OptionalDict(tool.fields, "outputSchema") && OptionalDict(tool.fields, "annotations")
  }

  predicate ErrorConforms(error: Json) {
    error.Obj? && Get(error, "message").Str?
  }

  predicate BodyConforms(body: Body) {
    match body
    case SessionStart(_) => true
    case ToolDefinition(_, tool, defHash) => ToolConforms(tool) && HashText(defHash)
    case ToolCall(_, _, _, defHash, args) => args.Obj? && HashText(defHash)
    case ToolResponse(_, ok, result, latency) => (!ok ==> ErrorConforms(result)) && latency >= 0.0
    case PolicyDecision(_, _, action, _) => action in {"allow", "warn", "block", "quarantine"}
    case SessionEnd(reason) => reason in {"completed", "aborted", "error", "policy"}
    case Malformed(_) => false
  }

  /** No field is missing and none has the wrong type. */
  predicate Complete(e: Event) {
    e.core.seq_.Some? && e.eventHash.Some? && !e.core.body.Malformed?
  }

  /** `dateTime` is the check of the date-time format. */
  predicate EventConforms(dateTime: string -> bool, e: Event)
    requires Complete(e)
  {
    && e.core.seq_.value >= 0 && dateTime(e.core.ts) && e.core.sessionId != ""
    && (e.core.prevHash.Some? ==> HashText(e.core.prevHash.value)) && HashText(e.eventHash.value)
    && BodyConforms(e.core.body)
  }

  /** The checker validates complete events by this schema. */
  ghost predicate FollowsSchema(k: Checks, dateTime: string -> bool) {
    forall e | Complete(e) :: k.Valid(e) <==> EventConforms(dateTime, e)
  }

  /** The hashes print as the schema expects, and so do the clock and the session id. */
  ghost predicate WellConfigured(env: Env, dateTime: string -> bool) {
    && env.sessionId != "" && (forall n :: dateTime(env.clock(n)))
    && (forall c :: env.hash(c).Some? ==> HashText(env.hash(c).value))
    && (forall tool :: env.toolHash(tool).Some? ==> HashText(env.toolHash(tool).value))
  }

  /** Such a checker exists for every recorder with unique ids. */
  lemma CheckerExists(env: Env, dateTime: string -> bool)
    requires forall i, j :: env.ids(i) == env.ids(j) ==> i == j
    ensures exists k: Checks :: Ready(env, k) && FollowsSchema(k, dateTime)
  {
    var errors := e => if Complete(e) && EventConforms(dateTime, e) then 0 else 1;
    var k := Checks(errors, env.hash, env.toolHash, env.sessionId);
    assert Ready(env, k) && FollowsSchema(k, dateTime);
  }

  // ----- what a session writes -----

  /** Event `i` was built at its place in the file. */
  predicate BuiltAt(env: Env, file: seq<Event>, i: nat)
    requires i < |file|
  {
    && file[i].core == CoreAt(Chain(i, HashBefore(file, i)), env.sessionId, env.clock(i), file[i].core.body)
    && file[i].eventHash.Some? && file[i].eventHash == env.hash(file[i].core)
    && !file[i].core.body.Malformed?
  }

  predicate AllBuilt(env: Env, file: seq<Event>) {
    forall i | 0 <= i < |file| :: BuiltAt(env, file, i)
  }

  predicate BodiesConform(file: seq<Event>) {
    forall i | 0 <= i < |file| :: BodyConforms(file[i].core.body)
  }

  predicate DefsAreHashes(st: State) {
    forall key | key in st.defs :: HashText(st.defs[key])
  }

  predicate Written(env: Env, st: State) {
    AllBuilt(env, st.file) && DefsAreHashes(st)
  }

  /** What the operation is given has the shape the schema asks for; only definitions that can be named
      and hashed are ever written. */
  predicate OpConforms(env: Env, op: Op) {
    match op
    case DefineOp(_, tools) => forall i | 0 <= i < |tools| :: DefinitionConforms(env, tools[i])
    case WrapOp(_, tool) => DefinitionConforms(env, tool)
    case CallOp(_, _, args, toolDef, result) =>
      && (toolDef.Some? ==> DefinitionConforms(env, toolDef.value))
      && env.redact(args).Obj? && ResultConforms(result)
    case PolicyOp(_, _, action, _) => action in {"allow", "warn", "block", "quarantine"}
  }

  predicate DefinitionConforms(env: Env, tool: Json) {
    HasName(tool) && env.toolHash(tool).Some? ==> ToolConforms(tool)
  }

  predicate ResultConforms(result: CallResult) {
    result.elapsed >= 0.0 && (result.Threw? ==> ErrorConforms(result.error))
  }

  lemma EmitWrites(env: Env, st: State, body: Body)
    requires Written(env, st) && !body.Malformed?
    ensures Written(env, Emit(env, st, body).st)
    ensures BodiesConform(st.file) && BodyConforms(body) ==> BodiesConform(Emit(env, st, body).st.file)
  {
    var t := Emit(env, st, body).st;
    forall i | 0 <= i < |t.file| ensures BuiltAt(env, t.file, i) {
      if i < |st.file| {
        assert BuiltAt(env, st.file, i) && HashBefore(t.file, i) == HashBefore(st.file, i);
      } else {
        assert HashBefore(t.file, i) == HashBefore(st.file, i);
      }
    }
  }

  lemma DefineOneWrites(env: Env, dateTime: string -> bool, st: State, server: string, tool: Json)
    requires Written(env, st) && WellConfigured(env, dateTime)
    ensures Written(env, DefineOne(env, st, server, tool).st)
    ensures BodiesConform(st.file) && DefinitionConforms(env, tool) ==>
              BodiesConform(DefineOne(env, st, server, tool).st.file)
  {
    if HasName(tool) && env.toolHash(tool).Some? {
      var key, h := (server, ToolName(tool)), env.toolHash(tool).value;
      EmitWrites(env, st.(defs := st.defs[key := h]), ToolDefinition(server, tool, h));
    }
  }

  lemma {:induction false} DefineWrites(env: Env, dateTime: string -> bool, st: State, server: string, tools: seq<Json>)
    requires Written(env, st) && WellConfigured(env, dateTime)
    ensures Written(env, Define(env, st, server, tools).st)
    ensures BodiesConform(st.file) && (forall i | 0 <= i < |tools| :: DefinitionConforms(env, tools[i])) ==>
              BodiesConform(Define(env, st, server, tools).st.file)
    decreases |tools|
  {
    if tools != [] {
      DefineOneWrites(env, dateTime, st, server, tools[0]);
      DefineWrites(env, dateTime, DefineOne(env, st, server, tools[0]).st, server, tools[1..]);
      assert forall i | 1 <= i < |tools| :: tools[i] == tools[1..][i - 1];
    }
  }

  lemma EnsureWrites(env: Env, dateTime: string -> bool, st: State, server: string, name: string, toolDef: Option<Json>)
    requires Written(env, st) && WellConfigured(env, dateTime)
    ensures Written(env, EnsureDefined(env, st, server, name, toolDef).st)
    ensures BodiesConform(st.file) && (toolDef.Some? ==> DefinitionConforms(env, toolDef.value)) ==>
              BodiesConform(EnsureDefined(env, st, server, name, toolDef).st.file)
  {
    if toolDef.Some? {
      DefineWrites(env, dateTime, st, server, [toolDef.value]);
    }
  }

  lemma CallWrites(env: Env, st: State, server: string, name: string, args: Json, result: CallResult)
    requires Written(env, st) && (server, name) in st.defs
    ensures Written(env, CallDefined(env, st, server, name, args, result).st)
    ensures BodiesConform(st.file) && env.redact(args).Obj? && ResultConforms(result) ==>
              BodiesConform(CallDefined(env, st, server, name, args, result).st.file)
  {
    var id, drawn := env.ids(st.drawn), st.(drawn := st.drawn + 1);
    var body := ToolCall(id, server, name, st.defs[(server, name)], env.redact(args));
    EmitWrites(env, drawn, body);
    EmitWrites(env, Emit(env, drawn, body).st, ResponseBody(env, id, result));
  }

  lemma PerformWrites(env: Env, dateTime: string -> bool, st: State, op: Op)
    requires Written(env, st) && WellConfigured(env, dateTime)
    ensures Written(env, Perform(env, st, op))
    ensures BodiesConform(st.file) && OpConforms(env, op) ==> BodiesConform(Perform(env, st, op).file)
  {
    match op
    case DefineOp(server, tools) => DefineWrites(env, dateTime, st, server, tools);
    case WrapOp(server, tool) => EnsureWrites(env, dateTime, st, server, ToolName(tool), Some(tool));
    case CallOp(server, name, args, toolDef, result) =>
      EnsureWrites(env, dateTime, st, server, name, toolDef);
      var d := EnsureDefined(env, st, server, name, toolDef);
      if !d.raised {
        CallWrites(env, d.st, server, name, args, result);
      }
    case PolicyOp(server, tool, action, reason) => EmitWrites(env, st, PolicyDecision(server, tool, action, reason));
  }

  lemma {:induction false} SessionWrites(env: Env, dateTime: string -> bool, ops: seq<Op>)
    requires WellConfigured(env, dateTime) && !Enter(env).raised
    ensures Written(env, PerformAll(env, Enter(env).st, ops))
    ensures (forall i | 0 <= i < |ops| :: OpConforms(env, ops[i])) ==>
              BodiesConform(PerformAll(env, Enter(env).st, ops).file)
  {
    if ops == [] {
      EmitWrites(env, FRESH, SessionStart(env.agent));
    } else {
      var front, last := ops[..|ops| - 1], ops[|ops| - 1];
      SessionWrites(env, dateTime, front);
      PerformWrites(env, dateTime, PerformAll(env, Enter(env).st, front), last);
    }
  }

  /** Of a written file the schema accepts exactly the events whose bodies conform. */
  lemma ValidIffConforming(env: Env, k: Checks, dateTime: string -> bool, file: seq<Event>)
    requires WellConfigured(env, dateTime) && FollowsSchema(k, dateTime) && AllBuilt(env, file)
    ensures forall i | 0 <= i < |file| :: k.Valid(file[i]) <==> BodyConforms(file[i].core.body)
    ensures AllValid(k, file) <==> BodiesConform(file)
  {
    forall i | 0 <= i < |file| ensures k.Valid(file[i]) <==> BodyConforms(file[i].core.body) {
      assert BuiltAt(env, file, i) && Complete(file[i]);
      if i > 0 {
        assert BuiltAt(env, file, i - 1);
      }
    }
  }

  // ----- what `verify` says of it -----

  /** What a session writes from entry to exit. */
  function Recorded(env: Env, ops: seq<Op>, failed: bool): seq<Event> {
    Exit(env, PerformAll(env, Enter(env).st, ops), if failed then "error" else "completed").st.file
  }

  lemma RecordedWrites(env: Env, dateTime: string -> bool, ops: seq<Op>, failed: bool)
    requires WellConfigured(env, dateTime) && !Enter(env).raised
    ensures AllBuilt(env, Recorded(env, ops, failed))
    ensures (forall i | 0 <= i < |ops| :: OpConforms(env, ops[i])) ==> BodiesConform(Recorded(env, ops, failed))
  {
    SessionWrites(env, dateTime, ops);
    EmitWrites(env, PerformAll(env, Enter(env).st, ops), SessionEnd(if failed then "error" else "completed"));
  }

  /** A closed session verifies exactly if every body it wrote conforms to the schema; it does if every
      operation was given conforming definitions, arguments, results and actions. */
  lemma ConformingSessionsVerify(env: Env, k: Checks, x: Encoding, dateTime: string -> bool, ops: seq<Op>, failed: bool)
    requires Ready(env, k) && Encodes(env, x) && !Enter(env).raised
    requires AllRecordable(env, x, ops) && |PerformAll(env, Enter(env).st, ops).file| < x.limit
    requires WellConfigured(env, dateTime) && FollowsSchema(k, dateTime)
    ensures Problems(k, Recorded(env, ops, failed)) == [] <==> BodiesConform(Recorded(env, ops, failed))
    ensures (forall i | 0 <= i < |ops| :: OpConforms(env, ops[i])) ==> Problems(k, Recorded(env, ops, failed)) == []
  {
    WhatIsRecordedVerifies(env, k, x, ops, if failed then "error" else "completed");
    RecordedWrites(env, dateTime, ops, failed);
    ValidIffConforming(env, k, dateTime, Recorded(env, ops, failed));
  }

  // ----- a definition the schema rejects -----

  /** A new definition that can be recorded, and a call of its tool. */
  predicate NewAndRecordable(env: Env, x: Encoding, st: State, server: string, tool: Json, args: Json) {
    && HasName(tool) && env.toolHash(tool).Some? && (server, ToolName(tool)) !in st.defs
    && x.encodes(ToolDefinition(server, tool, env.toolHash(tool).value))
    && x.encodes(ToolCall(env.ids(st.drawn), server, ToolName(tool), env.toolHash(tool).value, env.redact(args)))
  }

  /** Offered it and called, the session writes both events, one after the other. */
  lemma DefineThenCall(env: Env, x: Encoding, st: State, server: string, tool: Json, args: Json, result: CallResult)
    requires Encodes(env, x) && |st.file| + 3 < x.limit && NewAndRecordable(env, x, st, server, tool, args)
    ensures var define, call := DefineOp(server, [tool]), CallOp(server, ToolName(tool), args, None, result);
      var file, n := Perform(env, Perform(env, st, define), call).file, |st.file|;
      && n + 2 <= |file| <= n + 3 && file[..n] == st.file
      && file[n].core.body == ToolDefinition(server, tool, env.toolHash(tool).value)
      && file[n + 1].core.body
         == ToolCall(env.ids(st.drawn), server, ToolName(tool), env.toolHash(tool).value, env.redact(args))
  {
    var name, h, n := ToolName(tool), env.toolHash(tool).value, |st.file|;
    assert ChainEnd(st.file) == Chain(n, HashBefore(st.file, n));
    var d := DefineOne(env, st, server, tool);
    assert !d.raised && d.st.drawn == st.drawn && |d.st.file| == n + 1 && d.st.defs[(server, name)] == h;
    assert Define(env, d.st, server, []).st == d.st;
    assert Define(env, st, server, [tool]).st == d.st;
    assert ChainEnd(d.st.file) == Chain(n + 1, HashBefore(d.st.file, n + 1));
    var c := Emit(env, d.st.(drawn := st.drawn + 1), ToolCall(env.ids(st.drawn), server, name, h, env.redact(args)));
    assert !c.raised && |c.st.file| == n + 2;
  }

  /** A tool no definition of which is in force has none on record either. */
  lemma {:induction false} NoneOnRecord(file: seq<Event>, server: string, name: string, h: Hash)
    requires LatestDef(file, server, name).None?
    ensures forall j | 0 <= j < |file| :: !Defines(file[j], server, name, h)
  {
    if file != [] {
      NoneOnRecord(file[..|file| - 1], server, name, h);
      assert forall j | 0 <= j < |file| - 1 :: file[..|file| - 1][j] == file[j];
    }
  }

  /** If event `n` is rejected, the call after it is one of an unknown definition when nothing before
      defined its hash. */
  lemma RejectedThenCalled(k: Checks, file: seq<Event>, n: nat, call: Body)
    requires n + 1 < |file| && !k.Valid(file[n]) && k.Valid(file[n + 1])
    requires call.ToolCall? && file[n + 1].core.body == call
    requires !OnRecord(k, file, n, call.callServer, call.toolName, call.callHash)
    ensures Problem(n, SchemaViolation) in Problems(k, file)
    ensures Problem(n + 1, UnknownDefinition) in Problems(k, file)
  {
    ViolationReported(k, file, n);
    assert !OnRecord(k, file, n + 1, call.callServer, call.toolName, call.callHash);
    UnknownReported(k, file, n + 1);
  }

  /** The two operations keep the invariant: every call carries the latest hash on record. */
  lemma NewDefinitionIsCarried(env: Env, k: Checks, x: Encoding, st: State, server: string, tool: Json, args: Json,
                               result: CallResult)
    requires Ready(env, k) && Encodes(env, x) && Inv(env, k, st)
    requires |st.file| + 3 < x.limit && NewAndRecordable(env, x, st, server, tool, args)
    ensures var define, call := DefineOp(server, [tool]), CallOp(server, ToolName(tool), args, None, result);
      CallsCarryLatest(Perform(env, Perform(env, st, define), call).file)
  {
    var define, call := DefineOp(server, [tool]), CallOp(server, ToolName(tool), args, None, result);
    DefineThenCall(env, x, st, server, tool, args, result);
    PerformGrows(env, Perform(env, st, define), call);
    PerformKeepsInv(env, k, x, st, define);
    PerformKeepsInv(env, k, x, Perform(env, st, define), call);
  }

  /** The same from any state in order. */
  lemma RejectedFrom(env: Env, k: Checks, x: Encoding, dateTime: string -> bool, st: State, server: string, tool: Json,
                     args: Json, result: CallResult, file: seq<Event>)
    requires Ready(env, k) && Encodes(env, x) && Inv(env, k, st) && WellConfigured(env, dateTime)
    requires FollowsSchema(k, dateTime) && AllBuilt(env, file)
    requires |st.file| + 3 < x.limit && NewAndRecordable(env, x, st, server, tool, args)
    requires env.redact(args).Obj? && !ToolConforms(tool)
    requires var define, call := DefineOp(server, [tool]), CallOp(server, ToolName(tool), args, None, result);
      file == Perform(env, Perform(env, st, define), call).file
    ensures Problem(|st.file|, SchemaViolation) in Problems(k, file)
    ensures Problem(|st.file| + 1, UnknownDefinition) in Problems(k, file)
  {
    var name, h, n := ToolName(tool), env.toolHash(tool).value, |st.file|;
    DefineThenCall(env, x, st, server, tool, args, result);
    assert LatestDef(st.file, server, name).None?;
    NoneOnRecord(st.file, server, name, h);
    assert forall j | 0 <= j < n :: file[j] == file[..n][j];
    ValidIffConforming(env, k, dateTime, file);
    RejectedThenCalled(k, file, n, file[n + 1].core.body);
  }

  /**
   The recorder takes definitions the schema rejects.  Whatever a session did before, a definition that can
   be hashed and recorded but does not conform is reported as a violation, and the call of its tool, which
   carries the right hash, as a call of an unknown definition.
   */
  lemma RejectedDefinitionIsUnknown(env: Env, k: Checks, x: Encoding, dateTime: string -> bool, ops: seq<Op>, st: State,
                                    server: string, tool: Json, args: Json, result: CallResult, file: seq<Event>)
    requires Ready(env, k) && Encodes(env, x) && !Enter(env).raised && AllRecordable(env, x, ops)
    requires WellConfigured(env, dateTime) && FollowsSchema(k, dateTime)
    requires st == PerformAll(env, Enter(env).st, ops) && |st.file| + 3 < x.limit
    requires NewAndRecordable(env, x, st, server, tool, args) && env.redact(args).Obj? && !ToolConforms(tool)
    requires var more := [DefineOp(server, [tool]), CallOp(server, ToolName(tool), args, None, result)];
      file == PerformAll(env, Enter(env).st, ops + more).file
    ensures CallsCarryLatest(file)
    ensures Problem(|st.file|, SchemaViolation) in Problems(k, file)
    ensures Problem(|st.file| + 1, UnknownDefinition) in Problems(k, file)
  {
    var define, call := DefineOp(server, [tool]), CallOp(server, ToolName(tool), args, None, result);
    SessionKeepsInv(env, k, x, ops);
    SessionWrites(env, dateTime, ops + [define, call]);
    PerformTwo(env, Enter(env).st, ops, define, call);
    NewDefinitionIsCarried(env, k, x, st, server, tool, args, result);
    RejectedFrom(env, k, x, dateTime, st, server, tool, args, result, file);
  }
}
