/**
 The two hashes of a recording, spelled out on canonical text: which events and definitions have one, and
 a definition that has a hash of its own but cannot be recorded.
 */
module EventText {
  import opened Wrappers
  import opened Utf16
  import opened Numbers
  import opened Canonical
  import opened Normalize
  import opened ToolText
  import opened Recording
  import opened Recorder
  import opened RecorderGuarantees
  import RecordingSchema
  import Events
  import J = Json

  /** SHA-256 of a text, and the Python number each JSON number was read as. */
  datatype Hashing = Hashing(sha: Text -> Events.Hash, number: real -> Value)

  // ----- JSON values as Python values -----

  function ToPython(h: Hashing, j: J.Json): Value {
    match j
    case Null => Null
    case Bool(b) => Bool(b)
    case Num(n) => h.number(n)
    case Str(s) => Str(Ascii(s))
    case Arr(items) => Arr(seq(|items|, i requires 0 <= i < |items| => ToPython(h, items[i])))
    case Obj(fields) => Obj(ToMembers(h, fields))
  }

  function ToMembers(h: Hashing, fields: seq<J.Field>): seq<Member> {
    seq(|fields|, i requires 0 <= i < |fields| => Member(Ascii(fields[i].key), ToPython(h, fields[i].value)))
  }

  /** The fields `_emit` adds to an event of this type. */
  function BodyMembers(h: Hashing, body: Events.Body): seq<Member> {
    match body
    case SessionStart(agent) => [TypeOf("session_start"), TextMember("agent", agent)]
    case ToolDefinition(server, tool, defHash) =>
      [TypeOf("tool_definition"), TextMember("server", server), Member(Ascii("tool"), ToPython(h, tool)),
       TextMember("def_hash", defHash)]
    case ToolCall(id, server, name, defHash, args) =>
      [TypeOf("tool_call"), TextMember("call_id", id), TextMember("server", server), TextMember("tool_name", name),
       TextMember("def_hash", defHash), Member(Ascii("args"), ToPython(h, args))]
    case ToolResponse(id, ok, result, latency) =>
      [TypeOf("tool_response"), TextMember("call_id", id), Member(Ascii("ok"), Bool(ok)),
       Member(Ascii(if ok then "result" else "error"), ToPython(h, result)),
       Member(Ascii("latency_ms"), h.number(latency))]
    case PolicyDecision(server, tool, action, reason) =>
      [TypeOf("policy_decision"), TextMember("server", server), TextMember("tool_name", tool),
       TextMember("action", action), TextMember("reason", reason)]
    case SessionEnd(reason) => [TypeOf("session_end"), TextMember("reason", reason)]
    case Malformed(raw) => [Member(Ascii("raw"), ToPython(h, raw))]
  }

  function TextMember(key: string, value: string): Member {
    Member(Ascii(key), Str(Ascii(value)))
  }

  function TypeOf(t: string): Member {
    TextMember("type", t)
  }

  /** The fields every event has. */
  function Frame(c: Events.Core): seq<Member> {
    [Member(Ascii("v"), Int(1)),
     Member(Ascii("seq"), if c.seq_.Some? then Int(c.seq_.value) else Null),
     TextMember("ts", c.ts), TextMember("session_id", c.sessionId),
     Member(Ascii("prev_hash"), if c.prevHash.Some? then Str(Ascii(c.prevHash.value)) else Null)]
  }

  /** An event without its own hash. */
  function EventValue(h: Hashing, c: Events.Core): Value {
    Obj(Frame(c) + BodyMembers(h, c.body))
  }

  /** `event_hash` and `tool_hash`; None where Python raises. */
  function EventHash(h: Hashing, c: Events.Core): Option<Events.Hash> {
    var text :- Print(EventValue(h, c));
    Some(h.sha(text))
  }

  function ToolHash(h: Hashing, tool: J.Json): Option<Events.Hash> {
    if !tool.Obj? then None
    else
      var out :- PyNormalizeTool(ToMembers(h, tool.fields));
      var text :- Print(Obj(out));
      Some(h.sha(text))
  }

  // ----- which events have a hash -----

  predicate MembersPrint(members: seq<Member>) {
    forall i | 0 <= i < |members| :: WellFormed(members[i].key) && Accepted(members[i].value)
  }

  lemma AsciiIsWellFormed(s: string)
    ensures WellFormed(Ascii(s))
  {
  }

  lemma TextPrints(key: string, value: string)
    ensures WellFormed(TextMember(key, value).key) && Accepted(TextMember(key, value).value)
  {
    AsciiIsWellFormed(key);
    AsciiIsWellFormed(value);
  }

  lemma MembersPrintConcat(a: seq<Member>, b: seq<Member>)
    ensures MembersPrint(a + b) <==> MembersPrint(a) && MembersPrint(b)
  {
    if MembersPrint(a + b) {
      assert forall i | 0 <= i < |a| :: (a + b)[i] == a[i];
      assert forall i | 0 <= i < |b| :: (a + b)[|a| + i] == b[i];
    }
  }

  predicate Encodable(h: Hashing, body: Events.Body) {
    MembersPrint(BodyMembers(h, body))
  }

  /** Up to number 2^53, an event has a hash exactly if its body is portable. */
  lemma EventHashExists(h: Hashing, c: Events.Core)
    requires c.seq_.Some? && 0 <= c.seq_.value <= SAFE
    ensures EventHash(h, c).Some? <==> Encodable(h, c.body)
  {
    var frame, rest := Frame(c), BodyMembers(h, c.body);
    assert EventValue(h, c) == Obj(frame + rest);
    PrintsExactlyAccepted(Obj(frame + rest));
    ObjectAccepted(frame + rest);
    FramePrints(c);
    MembersPrintConcat(frame, rest);
  }

  lemma ObjectAccepted(members: seq<Member>)
    ensures Accepted(Obj(members)) <==> MembersPrint(members)
  {
  }

  lemma FramePrints(c: Events.Core)
    requires c.seq_.Some? && 0 <= c.seq_.value <= SAFE
    ensures MembersPrint(Frame(c))
  {
    AsciiIsWellFormed("v");
    AsciiIsWellFormed("seq");
    AsciiIsWellFormed("prev_hash");
    TextPrints("ts", c.ts);
    TextPrints("session_id", c.sessionId);
    if c.prevHash.Some? {
      AsciiIsWellFormed(c.prevHash.value);
    }
  }

  /** A definition event has one exactly if the whole definition is portable. */
  lemma DefinitionEncodes(h: Hashing, server: string, tool: J.Json, defHash: Events.Hash)
    ensures Encodable(h, Events.ToolDefinition(server, tool, defHash)) <==> Accepted(ToPython(h, tool))
  {
    TextPrints("type", "tool_definition");
    TextPrints("server", server);
    TextPrints("def_hash", defHash);
    AsciiIsWellFormed("tool");
    var members := BodyMembers(h, Events.ToolDefinition(server, tool, defHash));
    assert members[2] == Member(Ascii("tool"), ToPython(h, tool));
  }

  /** A call event has one exactly if its arguments are portable. */
  lemma CallEncodes(h: Hashing, id: string, server: string, name: string, defHash: Events.Hash, args: J.Json)
    ensures Encodable(h, Events.ToolCall(id, server, name, defHash, args)) <==> Accepted(ToPython(h, args))
  {
    TextPrints("type", "tool_call");
    TextPrints("call_id", id);
    TextPrints("server", server);
    TextPrints("tool_name", name);
    TextPrints("def_hash", defHash);
    AsciiIsWellFormed("args");
    var members := BodyMembers(h, Events.ToolCall(id, server, name, defHash, args));
    assert members[5] == Member(Ascii("args"), ToPython(h, args));
  }

  // ----- the recorder with these hashes -----

  ghost predicate UsesHashes(h: Hashing, env: Env) {
    && (forall c :: env.hash(c) == EventHash(h, c))
    && (forall tool :: env.toolHash(tool) == ToolHash(h, tool))
  }

  function EncodingOf(h: Hashing): Encoding {
    Encoding(body => Encodable(h, body), SAFE + 1)
  }

  /** What the guarantees ask of the hashes holds of these. */
  lemma HashesEncode(h: Hashing, env: Env)
    requires UsesHashes(h, env)
    ensures Encodes(env, EncodingOf(h))
  {
    var x := EncodingOf(h);
    forall n: nat, body, prev | n < x.limit
      ensures env.hash(Events.CoreAt(Events.Chain(n, prev), env.sessionId, env.clock(n), body)).Some?
        <==> x.encodes(body)
    {
      EventHashExists(h, Events.CoreAt(Events.Chain(n, prev), env.sessionId, env.clock(n), body));
    }
  }

  /** A caller can check the condition before offering a definition: it is recordable exactly if it has
      no hash of its own or is portable as a whole. */
  lemma RecordableIffPortable(h: Hashing, env: Env, server: string, tool: J.Json)
    requires UsesHashes(h, env)
    ensures Recordable(env, EncodingOf(h), server, tool)
       <==> (HasName(tool) && ToolHash(h, tool).Some? ==> Accepted(ToPython(h, tool)))
  {
    if ToolHash(h, tool).Some? {
      DefinitionEncodes(h, server, tool, ToolHash(h, tool).value);
    }
  }

  // ----- a definition that leaks -----

  /** A tool with a field its hash ignores. */
  function Noted(note: J.Json): J.Json {
    J.Obj([J.Field("name", J.Str("t")), J.Field("note", note)])
  }

  lemma NotedMembers(h: Hashing, note: J.Json)
    ensures ToMembers(h, Noted(note).fields)
      == [Member(NAME, Str(Ascii("t"))), Member(Ascii("note"), ToPython(h, note))]
  {
    var fields := Noted(note).fields;
    assert fields[0] == J.Field("name", J.Str("t")) && fields[1] == J.Field("note", note);
    assert ToPython(h, J.Str("t")) == Str(Ascii("t"));
    assert ToMembers(h, fields)[0] == Member(NAME, Str(Ascii("t")));
  }

  lemma NotedProjection(h: Hashing, note: J.Json)
    ensures PyNormalizeTool(ToMembers(h, Noted(note).fields))
         == Some([Member(NAME, Str(Ascii("t"))), Member(DESCRIPTION, Str([])), Member(INPUT_SCHEMA, Obj([]))])
  {
    var members := ToMembers(h, Noted(note).fields);
    NotedMembers(h, note);
    ToolKeysAreDistinct();
    NoteIsNoToolKey();
    forall k | k in {DESCRIPTION, INPUT_SCHEMA, OUTPUT_SCHEMA, ANNOTATIONS} ensures Find(members, k).None? {
      FindOfTwo(members[0], members[1], k);
    }
    FindOfTwo(members[0], members[1], NAME);
    assert PyNormalize(Obj([])) == Some(Obj([]));
  }

  lemma NoteIsNoToolKey()
    ensures Ascii("note") !in {NAME, DESCRIPTION, INPUT_SCHEMA, OUTPUT_SCHEMA, ANNOTATIONS}
    ensures NAME !in {DESCRIPTION, INPUT_SCHEMA, OUTPUT_SCHEMA, ANNOTATIONS}
  {
    assert |Ascii("note")| == 4 && Ascii("note")[1] == 'o' as int;
    assert |NAME| == 4 && NAME[1] == 'a' as int;
    assert |DESCRIPTION| == |INPUT_SCHEMA| == |ANNOTATIONS| == 11 && |OUTPUT_SCHEMA| == 12;
  }

  lemma FindOfTwo(a: Member, b: Member, k: Text)
    ensures Find([a, b], k) == if a.key == k then Some(a.value) else if b.key == k then Some(b.value) else None
  {
    var tail, none: seq<Member> := [b], [];
    assert [a, b][1..] == tail && tail[1..] == none;
    assert Find(none, k).None?;
    assert Find(tail, k) == if b.key == k then Some(b.value) else None;
  }

  lemma NotedHasHash(h: Hashing, note: J.Json)
    ensures ToolHash(h, Noted(note)).Some?
  {
    NotedProjection(h, note);
    AsciiIsWellFormed("t");
    ToolKeysAreDistinct();
    var out := [Member(NAME, Str(Ascii("t"))), Member(DESCRIPTION, Str([])), Member(INPUT_SCHEMA, Obj([]))];
    assert Accepted(Str([])) && Accepted(Obj([])) && Accepted(Str(Ascii("t")));
    assert Accepted(Obj(out));
    PrintsExactlyAccepted(Obj(out));
  }

  /** Whatever cannot be printed in that field, the tool has a hash and no event that carries it has one:
      every session that has not seen the tool yet can be made to leak by it. */
  lemma UnportableFieldLeaks(h: Hashing, env: Env, st: State, server: string, note: J.Json)
    requires UsesHashes(h, env) && !Accepted(ToPython(h, note))
    requires (server, ToolName(Noted(note))) !in st.defs
    ensures HasName(Noted(note)) && ToolHash(h, Noted(note)).Some?
      && !Recordable(env, EncodingOf(h), server, Noted(note))
    ensures Leaks(env, EncodingOf(h), st, server, Noted(note))
  {
    NotedHasHash(h, note);
    NotedIsNotPortable(h, note);
    RecordableIffPortable(h, env, server, Noted(note));
    NotedHasName(note);
  }

  lemma NotedIsNotPortable(h: Hashing, note: J.Json)
    requires !Accepted(ToPython(h, note))
    ensures !Accepted(ToPython(h, Noted(note)))
  {
    NotedMembers(h, note);
    var members := ToMembers(h, Noted(note).fields);
    assert members[1].value == ToPython(h, note);
    assert ToPython(h, Noted(note)) == Obj(members);
    ObjectAccepted(members);
  }

  lemma NotedHasName(note: J.Json)
    ensures HasName(Noted(note))
  {
    assert J.Get(Noted(note), "name") == J.Str("t");
  }

  const TOO_BIG := 9007199254740993.0  // 2^53 + 1

  /** For example an integer beyond 2^53. */
  lemma OversizedDefinitionLeaks(h: Hashing, env: Env, st: State, server: string)
    requires UsesHashes(h, env) && h.number(TOO_BIG) == Int(9007199254740993)
    requires (server, ToolName(Noted(J.Num(TOO_BIG)))) !in st.defs
    ensures Leaks(env, EncodingOf(h), st, server, Noted(J.Num(TOO_BIG)))
  {
    UnportableFieldLeaks(h, env, st, server, J.Num(TOO_BIG));
  }

  // ----- a definition the schema rejects -----

  /** A tool with a name only. */
  const BARE := J.Obj([J.Field("name", J.Str("t"))])

  lemma BareMembers(h: Hashing)
    ensures ToMembers(h, BARE.fields) == [Member(NAME, Str(Ascii("t")))]
    ensures Accepted(ToPython(h, BARE))
  {
    assert BARE.fields[0] == J.Field("name", J.Str("t"));
    assert ToPython(h, J.Str("t")) == Str(Ascii("t"));
    var members := ToMembers(h, BARE.fields);
    assert members[0] == Member(NAME, Str(Ascii("t")));
    AsciiIsWellFormed("t");
    ToolKeysAreDistinct();
    assert Accepted(Str(Ascii("t")));
    ObjectAccepted(members);
  }

  lemma BareHasHash(h: Hashing)
    ensures ToolHash(h, BARE).Some?
  {
    var members := ToMembers(h, BARE.fields);
    BareMembers(h);
    ToolKeysAreDistinct();
    NoteIsNoToolKey();
    var none: seq<Member> := [];
    assert members[1..] == none;
    forall k ensures Find(members, k) == if k == NAME then Some(Str(Ascii("t"))) else None {
      assert Find(none, k).None?;
    }
    assert PyNormalize(Obj([])) == Some(Obj([]));
    var out := [Member(NAME, Str(Ascii("t"))), Member(DESCRIPTION, Str([])), Member(INPUT_SCHEMA, Obj([]))];
    assert PyNormalizeTool(members) == Some(out);
    assert Accepted(Str([])) && Accepted(Obj([])) && Accepted(Str(Ascii("t")));
    assert Accepted(Obj(out));
    PrintsExactlyAccepted(Obj(out));
  }

  /** The recorder takes it, on its first sight, although the schema asks for an `inputSchema`. */
  lemma BareDefinitionIsTaken(h: Hashing, env: Env, st: State, server: string, args: J.Json)
    requires UsesHashes(h, env) && (server, "t") !in st.defs && Accepted(ToPython(h, env.redact(args)))
    ensures RecordingSchema.NewAndRecordable(env, EncodingOf(h), st, server, BARE, args)
    ensures !RecordingSchema.ToolConforms(BARE)
  {
    assert J.Get(BARE, "name") == J.Str("t");
    BareHasHash(h);
    BareMembers(h);
    var hash := ToolHash(h, BARE).value;
    DefinitionEncodes(h, server, BARE, hash);
    CallEncodes(h, env.ids(st.drawn), server, "t", hash, env.redact(args));
    assert !J.Has(BARE.fields, "inputSchema");
  }
}
