/** What a recorder writes verifies exactly if every event passes the schema check, and every call names the
    definition then in force. */
module RecorderGuarantees {
  import opened Wrappers
  import opened Json
  import opened Events
  import opened Recording
  import opened Recorder

  /** The hash of the latest definition of (server, name) in a log. */
  function LatestDef(file: seq<Event>, server: string, name: string): Option<Hash> {
    if file == [] then None
    else
      var last := file[|file| - 1].core.body;
      if last.ToolDefinition? && last.server == server && ToolName(last.tool) == name then Some(last.defHash)
      else LatestDef(file[..|file| - 1], server, name)
  }

  predicate CarriesLatest(before: seq<Event>, e: Event) {
    e.core.body.ToolCall? ==>
      LatestDef(before, e.core.body.callServer, e.core.body.toolName) == Some(e.core.body.callHash)
  }

  ghost predicate CallsCarryLatest(file: seq<Event>) {
    forall i | 0 <= i < |file| :: CarriesLatest(file[..i], file[i])
  }

  predicate Drawn(env: Env, n: nat, id: string) {
    exists j | 0 <= j < n :: env.ids(j) == id
  }

  /** The ids of calls and responses so far came from the generator. */
  ghost predicate IdsDrawn(env: Env, st: State) {
    forall i | 0 <= i < |st.file| ::
      && (st.file[i].core.body.ToolCall? ==> Drawn(env, st.drawn, st.file[i].core.body.callId))
      && (st.file[i].core.body.ToolResponse? ==> Drawn(env, st.drawn, st.file[i].core.body.responseId))
  }

  ghost predicate DefsInForce(st: State) {
    forall server, name ::
      LatestDef(st.file, server, name) == if (server, name) in st.defs then Some(st.defs[(server, name)]) else None
  }

  /** The checker uses the recorder's hashes and session, and ids are unique. */
  ghost predicate Ready(env: Env, k: Checks) {
    && k.hash == env.hash && k.toolHash == env.toolHash && k.sessionId == env.sessionId
    && (forall i, j :: env.ids(i) == env.ids(j) ==> i == j)
  }

  /** Which event bodies have a canonical form, and how many events before the numbers run out. */
  datatype Encoding = Encoding(encodes: Body -> bool, limit: nat)

  /** Hashing one of the session's first events raises exactly because of its body. */
  ghost predicate Encodes(env: Env, x: Encoding) {
    forall n: nat, body, prev :: n < x.limit ==>
      (env.hash(CoreAt(Chain(n, prev), env.sessionId, env.clock(n), body)).Some? <==> x.encodes(body))
  }

  /** A definition that can be hashed on its own can be hashed as an event. */
  predicate Recordable(env: Env, x: Encoding, server: string, tool: Json) {
    HasName(tool) && env.toolHash(tool).Some? ==> x.encodes(ToolDefinition(server, tool, env.toolHash(tool).value))
  }

  /** Every definition the operation offers is recordable. */
  predicate OffersRecordable(env: Env, x: Encoding, op: Op) {
    match op
    case DefineOp(server, tools) => forall i | 0 <= i < |tools| :: Recordable(env, x, server, tools[i])
    case WrapOp(server, tool) => Recordable(env, x, server, tool)
    case CallOp(server, _, _, toolDef, _) => toolDef.Some? ==> Recordable(env, x, server, toolDef.value)
    case PolicyOp(_, _, _, _) => true
  }

  predicate AllRecordable(env: Env, x: Encoding, ops: seq<Op>) {
    forall i | 0 <= i < |ops| :: OffersRecordable(env, x, ops[i])
  }

  ghost predicate Open(file: seq<Event>) {
    && file != [] && file[0].core.body.SessionStart?
    && forall i | 0 <= i < |file| :: !file[i].core.body.SessionEnd?
  }

  ghost predicate Inv(env: Env, k: Checks, st: State) {
    && Consistent(k, st.file) && Open(st.file)
    && CallsCarryLatest(st.file)
    && DefsInForce(st)
    && IdsDrawn(env, st)
  }

  lemma LatestSnoc(file: seq<Event>, e: Event, server: string, name: string)
    ensures LatestDef(file + [e], server, name)
         == if e.core.body.ToolDefinition? && e.core.body.server == server && ToolName(e.core.body.tool) == name
            then Some(e.core.body.defHash) else LatestDef(file, server, name)
  {
    assert (file + [e])[..|file|] == file;
  }

  lemma {:induction false} LatestIsDefined(file: seq<Event>, server: string, name: string)
    requires LatestDef(file, server, name).Some?
    ensures exists j | 0 <= j < |file| :: Defines(file[j], server, name, LatestDef(file, server, name).value)
  {
    var n := |file| - 1;
    if Defines(file[n], server, name, LatestDef(file, server, name).value) {
    } else {
      LatestIsDefined(file[..n], server, name);
      var j :| 0 <= j < n && Defines(file[..n][j], server, name, LatestDef(file[..n], server, name).value);
      assert Defines(file[j], server, name, LatestDef(file, server, name).value);
    }
  }

  lemma CarrySnoc(file: seq<Event>, e: Event)
    requires CallsCarryLatest(file) && CarriesLatest(file, e)
    ensures CallsCarryLatest(file + [e])
  {
    var all := file + [e];
    forall i | 0 <= i < |all| ensures CarriesLatest(all[..i], all[i]) {
      if i < |file| {
        assert all[..i] == file[..i];
      } else {
        assert all[..i] == file;
      }
    }
  }

  /** One more event keeps the log consistent when it refers back. */
  lemma EmitKeepsConsistent(env: Env, k: Checks, st: State, body: Body)
    requires Ready(env, k) && Consistent(k, st.file) && !Emit(env, st, body).raised
    requires forall i | 0 <= i < |st.file| :: !st.file[i].core.body.SessionEnd?
    requires st.file != [] ==> !body.SessionStart?
    requires RefersBack(k, st.file, Event(CoreAt(ChainEnd(st.file), env.sessionId, env.clock(|st.file|), body), None))
    ensures Consistent(k, Emit(env, st, body).st.file)
  {
    var e := Build(env.hash, ChainEnd(st.file), env.sessionId, env.clock(|st.file|), body).value;
    assert WellPlaced(k, st.file, e) && RefersBack(k, st.file, e);
    ConsistentSnoc(k, st.file, e);
  }

  /** An event that is neither a definition nor an end keeps the whole invariant. */
  lemma EmitKeepsInv(env: Env, k: Checks, st: State, body: Body)
    requires Ready(env, k) && Inv(env, k, st) && !Emit(env, st, body).raised
    requires !body.SessionStart? && !body.SessionEnd? && !body.ToolDefinition?
    requires var e := Event(CoreAt(ChainEnd(st.file), env.sessionId, env.clock(|st.file|), body), None);
             RefersBack(k, st.file, e) && CarriesLatest(st.file, e)
    requires body.ToolCall? ==> Drawn(env, st.drawn, body.callId)
    requires body.ToolResponse? ==> Drawn(env, st.drawn, body.responseId)
    ensures Inv(env, k, Emit(env, st, body).st)
  {
    EmitKeepsConsistent(env, k, st, body);
    var e := Build(env.hash, ChainEnd(st.file), env.sessionId, env.clock(|st.file|), body).value;
    CarrySnoc(st.file, e);
    forall server, name ensures LatestDef(st.file + [e], server, name) == LatestDef(st.file, server, name) {
      LatestSnoc(st.file, e, server, name);
    }
  }

  // ----- the file only grows -----

  lemma {:induction false} DefineGrows(env: Env, st: State, server: string, tools: seq<Json>)
    ensures |st.file| <= |Define(env, st, server, tools).st.file|
    decreases |tools|
  {
    if tools != [] && !DefineOne(env, st, server, tools[0]).raised {
      DefineGrows(env, DefineOne(env, st, server, tools[0]).st, server, tools[1..]);
    }
  }

  lemma EnsureGrows(env: Env, st: State, server: string, name: string, toolDef: Option<Json>)
    ensures |st.file| <= |EnsureDefined(env, st, server, name, toolDef).st.file|
  {
    if toolDef.Some? {
      DefineGrows(env, st, server, [toolDef.value]);
    }
  }

  lemma PerformGrows(env: Env, st: State, op: Op)
    ensures |st.file| <= |Perform(env, st, op).file|
    ensures op.CallOp? ==>
      |EnsureDefined(env, st, op.callServer, op.name, op.toolDef).st.file| <= |Perform(env, st, op).file|
  {
    match op
    case DefineOp(server, tools) => DefineGrows(env, st, server, tools);
    case WrapOp(server, tool) => EnsureGrows(env, st, server, ToolName(tool), Some(tool));
    case CallOp(server, name, _, toolDef, _) => EnsureGrows(env, st, server, name, toolDef);
    case PolicyOp(_, _, _, _) =>
  }

  // ----- definitions -----

  lemma DefineOneKeepsInv(env: Env, k: Checks, x: Encoding, st: State, server: string, tool: Json)
    requires Ready(env, k) && Encodes(env, x) && Inv(env, k, st)
    requires Recordable(env, x, server, tool) && |st.file| < x.limit
    ensures Inv(env, k, DefineOne(env, st, server, tool).st)
    ensures HasName(tool) && env.toolHash(tool).Some? ==>
              !DefineOne(env, st, server, tool).raised
                && (server, ToolName(tool)) in DefineOne(env, st, server, tool).st.defs
  {
    if HasName(tool) && env.toolHash(tool).Some? {
      var key, h := (server, ToolName(tool)), env.toolHash(tool).value;
      if !(key in st.defs && st.defs[key] == h) {
        var body := ToolDefinition(server, tool, h);
        var st1 := st.(defs := st.defs[key := h]);
        assert !Emit(env, st1, body).raised by {
          assert ChainEnd(st1.file) == Chain(|st.file|, HashBefore(st.file, |st.file|));
        }
        EmitKeepsConsistent(env, k, st1, body);
        var e := Build(env.hash, ChainEnd(st.file), env.sessionId, env.clock(|st.file|), body).value;
        CarrySnoc(st.file, e);
        forall s, n
          ensures LatestDef(st.file + [e], s, n)
               == if (s, n) in st1.defs then Some(st1.defs[(s, n)]) else None
        {
          LatestSnoc(st.file, e, s, n);
        }
      }
    }
  }

  lemma {:induction false} DefineKeepsInv(env: Env, k: Checks, x: Encoding, st: State, server: string, tools: seq<Json>)
    requires Ready(env, k) && Encodes(env, x) && Inv(env, k, st)
    requires (forall i | 0 <= i < |tools| :: Recordable(env, x, server, tools[i]))
    requires |Define(env, st, server, tools).st.file| < x.limit
    ensures Inv(env, k, Define(env, st, server, tools).st)
    decreases |tools|
  {
    if tools != [] {
      DefineGrows(env, st, server, tools);
      DefineOneKeepsInv(env, k, x, st, server, tools[0]);
      if !DefineOne(env, st, server, tools[0]).raised {
        DefineKeepsInv(env, k, x, DefineOne(env, st, server, tools[0]).st, server, tools[1..]);
      }
    }
  }

  lemma EnsureKeepsInv(env: Env, k: Checks, x: Encoding, st: State, server: string, name: string, toolDef: Option<Json>)
    requires Ready(env, k) && Encodes(env, x) && Inv(env, k, st)
    requires toolDef.Some? ==> Recordable(env, x, server, toolDef.value)
    requires |EnsureDefined(env, st, server, name, toolDef).st.file| < x.limit
    ensures Inv(env, k, EnsureDefined(env, st, server, name, toolDef).st)
  {
    if (server, name) !in st.defs && toolDef.Some? {
      DefineKeepsInv(env, k, x, st, server, [toolDef.value]);
    }
  }

  /** An id not drawn yet occurs nowhere in the log. */
  lemma FreshId(env: Env, k: Checks, st: State)
    requires Ready(env, k) && IdsDrawn(env, st)
    ensures forall i | 0 <= i < |st.file| ::
              !Calls(st.file[i], env.ids(st.drawn)) && !Responds(st.file[i], env.ids(st.drawn))
  {
  }

  lemma DrawKeepsInv(env: Env, k: Checks, st: State)
    requires Inv(env, k, st)
    ensures Inv(env, k, st.(drawn := st.drawn + 1))
  {
    var t := st.(drawn := st.drawn + 1);
    forall id | Drawn(env, st.drawn, id) ensures Drawn(env, t.drawn, id) {
      var j :| 0 <= j < st.drawn && env.ids(j) == id;
    }
  }

  /** The call event: its definition is on record and its id is new. */
  lemma CallEventKeepsInv(env: Env, k: Checks, st: State, server: string, name: string, args: Json)
    requires Ready(env, k) && Inv(env, k, st) && (server, name) in st.defs
    ensures var body := ToolCall(env.ids(st.drawn), server, name, st.defs[(server, name)], args);
            var r := Emit(env, st.(drawn := st.drawn + 1), body);
            Inv(env, k, r.st)
  {
    var id := env.ids(st.drawn);
    var body := ToolCall(id, server, name, st.defs[(server, name)], args);
    FreshId(env, k, st);
    DrawKeepsInv(env, k, st);
    assert LatestDef(st.file, server, name) == Some(st.defs[(server, name)]);
    LatestIsDefined(st.file, server, name);
    var t := st.(drawn := st.drawn + 1);
    assert Drawn(env, t.drawn, id);
    if !Emit(env, t, body).raised {
      EmitKeepsInv(env, k, t, body);
    }
  }

  /** The response event right after its call. */
  lemma ResponseEventKeepsInv(env: Env, k: Checks, st: State, body: Body)
    requires Ready(env, k) && Inv(env, k, st) && body.ToolResponse? && Drawn(env, st.drawn, body.responseId)
    requires exists i | 0 <= i < |st.file| :: Calls(st.file[i], body.responseId)
    requires forall i | 0 <= i < |st.file| :: !Responds(st.file[i], body.responseId)
    ensures Inv(env, k, Emit(env, st, body).st)
  {
    if !Emit(env, st, body).raised {
      EmitKeepsInv(env, k, st, body);
    }
  }

  /** A call event and its response, once the definition is on record. */
  lemma CallAndResponseKeepInv(env: Env, k: Checks, st: State, server: string, name: string, args: Json, response: Body)
    requires Ready(env, k) && Inv(env, k, st) && (server, name) in st.defs
    requires response.ToolResponse? && response.responseId == env.ids(st.drawn)
    ensures var body := ToolCall(env.ids(st.drawn), server, name, st.defs[(server, name)], args);
            var c := Emit(env, st.(drawn := st.drawn + 1), body);
            Inv(env, k, c.st) && (!c.raised ==> Inv(env, k, Emit(env, c.st, response).st))
  {
    var body := ToolCall(env.ids(st.drawn), server, name, st.defs[(server, name)], args);
    CallEventKeepsInv(env, k, st, server, name, args);
    var c := Emit(env, st.(drawn := st.drawn + 1), body);
    if !c.raised {
      NewCallIsOpen(env, k, st, body);
      ResponseEventKeepsInv(env, k, c.st, response);
    }
  }

  lemma CallDefinedKeepsInv(env: Env, k: Checks, st: State, server: string, name: string, args: Json,
                            result: CallResult)
    requires Ready(env, k) && Inv(env, k, st) && (server, name) in st.defs
    ensures Inv(env, k, CallDefined(env, st, server, name, args, result).st)
  {
    CallAndResponseKeepInv(env, k, st, server, name, env.redact(args), ResponseBody(env, env.ids(st.drawn), result));
  }

  /** Right after its call event a fresh id is called and not yet answered. */
  lemma NewCallIsOpen(env: Env, k: Checks, st: State, body: Body)
    requires Ready(env, k) && IdsDrawn(env, st)
    requires body.ToolCall? && body.callId == env.ids(st.drawn)
    requires !Emit(env, st.(drawn := st.drawn + 1), body).raised
    ensures var t := Emit(env, st.(drawn := st.drawn + 1), body).st;
            && Drawn(env, t.drawn, body.callId)
            && (exists i | 0 <= i < |t.file| :: Calls(t.file[i], body.callId))
            && (forall i | 0 <= i < |t.file| :: !Responds(t.file[i], body.callId))
  {
    FreshId(env, k, st);
    var t := Emit(env, st.(drawn := st.drawn + 1), body).st;
    var n := |st.file|;
    assert Calls(t.file[n], body.callId);
    forall i | 0 <= i < |t.file| ensures !Responds(t.file[i], body.callId) {
      if i < n {
        assert t.file[i] == st.file[i];
      }
    }
  }

  lemma PerformKeepsInv(env: Env, k: Checks, x: Encoding, st: State, op: Op)
    requires Ready(env, k) && Encodes(env, x) && Inv(env, k, st)
    requires OffersRecordable(env, x, op) && |Perform(env, st, op).file| < x.limit
    ensures Inv(env, k, Perform(env, st, op))
  {
    PerformGrows(env, st, op);
    match op
    case DefineOp(server, tools) => DefineKeepsInv(env, k, x, st, server, tools);
    case WrapOp(server, tool) => EnsureKeepsInv(env, k, x, st, server, ToolName(tool), Some(tool));
    case CallOp(server, name, args, toolDef, result) =>
      EnsureKeepsInv(env, k, x, st, server, name, toolDef);
      var d := EnsureDefined(env, st, server, name, toolDef);
      if !d.raised {
        CallDefinedKeepsInv(env, k, d.st, server, name, args, result);
      }
    case PolicyOp(server, tool, action, reason) =>
      if !Emit(env, st, PolicyDecision(server, tool, action, reason)).raised {
        EmitKeepsInv(env, k, st, PolicyDecision(server, tool, action, reason));
      }
  }

  lemma EnterEstablishesInv(env: Env, k: Checks)
    requires Ready(env, k) && !Enter(env).raised
    ensures Inv(env, k, Enter(env).st)
  {
    EmitKeepsConsistent(env, k, FRESH, SessionStart(env.agent));
    var e := Build(env.hash, NEW_CHAIN, env.sessionId, env.clock(0), SessionStart(env.agent)).value;
    StartAlone(e);
    assert Enter(env).st.file == [] + [e];
  }

  /** A file with the start event only defines nothing and calls nothing. */
  lemma StartAlone(e: Event)
    requires e.core.body.SessionStart?
    ensures CallsCarryLatest([] + [e])
    ensures forall server, name :: LatestDef([] + [e], server, name) == None
  {
    CarrySnoc([], e);
    forall server, name ensures LatestDef([] + [e], server, name) == None {
      LatestSnoc([], e, server, name);
    }
  }

  lemma {:induction false} SessionKeepsInv(env: Env, k: Checks, x: Encoding, ops: seq<Op>)
    requires Ready(env, k) && Encodes(env, x) && !Enter(env).raised
    requires AllRecordable(env, x, ops) && |PerformAll(env, Enter(env).st, ops).file| < x.limit
    ensures Inv(env, k, PerformAll(env, Enter(env).st, ops))
  {
    if ops == [] {
      EnterEstablishesInv(env, k);
    } else {
      var front, last := ops[..|ops| - 1], ops[|ops| - 1];
      PerformGrows(env, PerformAll(env, Enter(env).st, front), last);
      SessionKeepsInv(env, k, x, front);
      PerformKeepsInv(env, k, x, PerformAll(env, Enter(env).st, front), last);
    }
  }

  /** What a session writes verifies, before and after its end, exactly if every event it wrote passes the
      schema check, whatever was called, re-listed or raised in between, as long as each definition it was
      offered fails to hash or can be recorded; and each call carries the hash of the latest preceding
      definition of its tool. */
  lemma WhatIsRecordedVerifies(env: Env, k: Checks, x: Encoding, ops: seq<Op>, endReason: string)
    requires Ready(env, k) && Encodes(env, x) && !Enter(env).raised
    requires AllRecordable(env, x, ops) && |PerformAll(env, Enter(env).st, ops).file| < x.limit
    ensures var st := PerformAll(env, Enter(env).st, ops);
            var ended := Exit(env, st, endReason).st;
            && (Problems(k, st.file) == [] <==> AllValid(k, st.file))
            && (Problems(k, ended.file) == [] <==> AllValid(k, ended.file))
            && CallsCarryLatest(ended.file)
  {
    SessionKeepsInv(env, k, x, ops);
    var st := PerformAll(env, Enter(env).st, ops);
    VerifyIffSound(k, st.file);
    if !Exit(env, st, endReason).raised {
      EmitKeepsConsistent(env, k, st, SessionEnd(endReason));
      var e := Build(env.hash, ChainEnd(st.file), env.sessionId, env.clock(|st.file|), SessionEnd(endReason)).value;
      CarrySnoc(st.file, e);
      VerifyIffSound(k, st.file + [e]);
    }
  }

  // ----- a definition that can be hashed but not recorded -----

  /** The definition is named and hashes to something new, yet its event has no canonical form. */
  predicate Leaks(env: Env, x: Encoding, st: State, server: string, tool: Json) {
    && HasName(tool) && env.toolHash(tool).Some? && !Recordable(env, x, server, tool)
    && !((server, ToolName(tool)) in st.defs && st.defs[(server, ToolName(tool))] == env.toolHash(tool).value)
  }

  /** Offering it raises, writes nothing, and leaves its hash in force. */
  lemma LeakIsRemembered(env: Env, x: Encoding, st: State, server: string, tool: Json)
    requires Encodes(env, x) && |st.file| < x.limit && Leaks(env, x, st, server, tool)
    ensures var d := DefineOne(env, st, server, tool);
      d.raised && d.st == st.(defs := st.defs[(server, ToolName(tool)) := env.toolHash(tool).value])
  {
    assert ChainEnd(st.file) == Chain(|st.file|, HashBefore(st.file, |st.file|));
  }

  /** The event of the call that follows refers to the remembered hash, which is not the latest on
      record; the log stays consistent exactly if the same hash was on record before. */
  lemma CallAfterLeak(env: Env, k: Checks, x: Encoding, st: State, server: string, tool: Json, args: Json)
    requires Ready(env, k) && Encodes(env, x) && Inv(env, k, st) && |st.file| < x.limit
    requires Leaks(env, x, st, server, tool)
    requires x.encodes(ToolCall(env.ids(st.drawn), server, ToolName(tool), env.toolHash(tool).value, env.redact(args)))
    ensures var name, h := ToolName(tool), env.toolHash(tool).value;
      var c := Emit(env, DefineOne(env, st, server, tool).st.(drawn := st.drawn + 1),
                    ToolCall(env.ids(st.drawn), server, name, h, env.redact(args)));
      && !c.raised && |c.st.file| == |st.file| + 1 && c.st.file[..|st.file|] == st.file
      && !CarriesLatest(st.file, c.st.file[|st.file|])
      && (Consistent(k, c.st.file) <==> exists j | 0 <= j < |st.file| :: Defines(st.file[j], server, name, h))
  {
    var name, h := ToolName(tool), env.toolHash(tool).value;
    LeakIsRemembered(env, x, st, server, tool);
    var d := DefineOne(env, st, server, tool).st;
    var body := ToolCall(env.ids(st.drawn), server, name, h, env.redact(args));
    assert ChainEnd(st.file) == Chain(|st.file|, HashBefore(st.file, |st.file|));
    var e := Build(env.hash, ChainEnd(st.file), env.sessionId, env.clock(|st.file|), body).value;
    FreshId(env, k, st);
    ConsistentSnoc(k, st.file, e);
    assert LatestDef(st.file, server, name) == if (server, name) in st.defs then Some(st.defs[(server, name)])
      else None;
  }

  /** The response adds nothing to what is wrong with its call. */
  lemma ResponseAfterLeak(env: Env, k: Checks, st: State, call: Body, response: Body)
    requires Ready(env, k) && IdsDrawn(env, st) && Open(st.file)
    requires call.ToolCall? && call.callId == env.ids(st.drawn) && response.ToolResponse?
      && response.responseId == call.callId
    requires var c := Emit(env, st.(drawn := st.drawn + 1), call);
      !c.raised && !CarriesLatest(st.file, c.st.file[|st.file|])
    ensures var c := Emit(env, st.(drawn := st.drawn + 1), call);
      var file := Emit(env, c.st, response).st.file;
      !CallsCarryLatest(file) && (Consistent(k, file) <==> Consistent(k, c.st.file)) && file[..|st.file|] == st.file
  {
    var c := Emit(env, st.(drawn := st.drawn + 1), call);
    var n := |st.file|;
    var file := Emit(env, c.st, response).st.file;
    assert file[n] == c.st.file[n] && file[..n] == st.file;
    assert !CarriesLatest(file[..n], file[n]);
    if file != c.st.file {
      NewCallIsOpen(env, k, st, call);
      var e := file[n + 1];
      assert file == c.st.file + [e];
      ConsistentSnoc(k, c.st.file, e);
      assert RefersBack(k, c.st.file, e);
    }
  }

  /**
   A definition that can be hashed on its own but not as an event is remembered although recording it
   raises.  Whatever a session did before, when it is then offered such a definition and calls the tool, the
   call no longer carries the latest hash on record, and the log verifies exactly if the remembered hash
   happens to have been on record for that tool before and every event written passes the schema check.
   */
  lemma UnrecordableDefinitionLeaks(env: Env, k: Checks, x: Encoding, ops: seq<Op>, server: string, tool: Json,
                                    args: Json, result: CallResult)
    requires Ready(env, k) && Encodes(env, x) && !Enter(env).raised
    requires AllRecordable(env, x, ops) && |PerformAll(env, Enter(env).st, ops).file| < x.limit
    requires var st := PerformAll(env, Enter(env).st, ops);
      && Leaks(env, x, st, server, tool)
      && x.encodes(ToolCall(env.ids(st.drawn), server, ToolName(tool), env.toolHash(tool).value, env.redact(args)))
    ensures var st := PerformAll(env, Enter(env).st, ops);
      var more := [DefineOp(server, [tool]), CallOp(server, ToolName(tool), args, None, result)];
      var file := PerformAll(env, Enter(env).st, ops + more).file;
      && !CallsCarryLatest(file)
      && (Problems(k, file) == [] <==>
            && AllValid(k, file)
            && exists j | 0 <= j < |st.file| :: Defines(st.file[j], server, ToolName(tool), env.toolHash(tool).value))
  {
    SessionKeepsInv(env, k, x, ops);
    var st := PerformAll(env, Enter(env).st, ops);
    var define, call := DefineOp(server, [tool]), CallOp(server, ToolName(tool), args, None, result);
    PerformTwo(env, Enter(env).st, ops, define, call);
    LeakThenCall(env, k, x, st, server, tool, args, result);
  }

  /** The two operations, from any state in order. */
  lemma LeakThenCall(env: Env, k: Checks, x: Encoding, st: State, server: string, tool: Json, args: Json,
                     result: CallResult)
    requires Ready(env, k) && Encodes(env, x) && Inv(env, k, st) && |st.file| < x.limit
    requires Leaks(env, x, st, server, tool)
    requires x.encodes(ToolCall(env.ids(st.drawn), server, ToolName(tool), env.toolHash(tool).value, env.redact(args)))
    ensures var define, call := DefineOp(server, [tool]), CallOp(server, ToolName(tool), args, None, result);
      var file := Perform(env, Perform(env, st, define), call).file;
      && !CallsCarryLatest(file)
      && (Problems(k, file) == [] <==>
            && AllValid(k, file)
            && exists j | 0 <= j < |st.file| :: Defines(st.file[j], server, ToolName(tool), env.toolHash(tool).value))
  {
    CallAfterLeak(env, k, x, st, server, tool, args);
    LeakIsRemembered(env, x, st, server, tool);
    LeakWrites(env, x, st, server, tool, args, result);
    var d := DefineOne(env, st, server, tool).st;
    var body := ToolCall(env.ids(st.drawn), server, ToolName(tool), env.toolHash(tool).value, env.redact(args));
    var response := ResponseBody(env, env.ids(st.drawn), result);
    ResponseAfterLeak(env, k, d, body, response);
    var file := Emit(env, Emit(env, d.(drawn := d.drawn + 1), body).st, response).st.file;
    VerifyIffSound(k, file);
    assert file[0] == file[..|st.file|][0] == st.file[0];
  }

  /** What the two operations write. */
  lemma LeakWrites(env: Env, x: Encoding, st: State, server: string, tool: Json, args: Json, result: CallResult)
    requires Encodes(env, x) && |st.file| < x.limit && Leaks(env, x, st, server, tool)
    requires x.encodes(ToolCall(env.ids(st.drawn), server, ToolName(tool), env.toolHash(tool).value, env.redact(args)))
    ensures var define, call := DefineOp(server, [tool]), CallOp(server, ToolName(tool), args, None, result);
      var d := DefineOne(env, st, server, tool).st;
      var body := ToolCall(env.ids(st.drawn), server, ToolName(tool), env.toolHash(tool).value, env.redact(args));
      var c := Emit(env, d.(drawn := d.drawn + 1), body);
      !c.raised && Perform(env, Perform(env, st, define), call).file
                   == Emit(env, c.st, ResponseBody(env, env.ids(st.drawn), result)).st.file
  {
    LeakIsRemembered(env, x, st, server, tool);
    assert ChainEnd(st.file) == Chain(|st.file|, HashBefore(st.file, |st.file|));
    assert Define(env, st, server, [tool]).st == DefineOne(env, st, server, tool).st;
  }

  lemma PerformTwo(env: Env, st: State, ops: seq<Op>, a: Op, b: Op)
    ensures PerformAll(env, st, ops + [a, b]) == Perform(env, Perform(env, PerformAll(env, st, ops), a), b)
  {
    var all := ops + [a, b];
    assert all[..|all| - 1] == ops + [a] && (ops + [a])[..|ops|] == ops;
  }
}
