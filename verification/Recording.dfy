/** `Recording.verify`: the sequential check of a recording, and what passing it means. */
module Recording {
  import opened Wrappers
  import opened Json
  import opened Events

  datatype Kind =
    | EmptyRecording | NoStart | SchemaViolation | OtherSession | AfterEnd | DuplicateStart
    | SeqMismatch | PrevMismatch | HashMismatch | CannotHash
    | DefHashMismatch | CannotHashTool | UnknownDefinition | DuplicateCall | UnknownCall | DuplicateResponse

  datatype Problem = Problem(index: nat, kind: Kind)

  /** What the check takes from outside: how many errors the schema validator yields for an event, the
      two hashes, the session. */
  datatype Checks = Checks(errors: Event -> nat, hash: Hasher, toolHash: Json -> Option<Hash>, sessionId: string) {

    predicate Valid(e: Event) {
      errors(e) == 0
    }
  }

  /** The sets and counters `verify` carries from event to event. */
  datatype Seen = Seen(
    definitions: set<(string, string, Hash)>, calls: set<string>, responses: set<string>,
    ended: bool, prevHash: Option<Hash>, expected: int)

  const NOTHING_SEEN := Seen({}, {}, {}, false, None, 0)

  function ToolName(tool: Json): string {
    if tool.Obj? && Get(tool, "name").Str? then Get(tool, "name").s else ""
  }

  function When(c: bool, i: nat, kind: Kind): seq<Problem> {
    if c then [Problem(i, kind)] else []
  }

  /** The checks every event gets: schema, session, position, sequence number, chain, hash. */
  function FrameProblems(k: Checks, s: Seen, i: nat, e: Event): seq<Problem> {
    seq(k.errors(e), _ => Problem(i, SchemaViolation))
    + When(e.core.sessionId != k.sessionId, i, OtherSession)
    + When(s.ended, i, AfterEnd)
    + When(i > 0 && e.core.body.SessionStart?, i, DuplicateStart)
    + When(e.core.seq_ != Some(s.expected), i, SeqMismatch)
    + When(e.core.prevHash != s.prevHash, i, PrevMismatch)
    + When(k.hash(e.core).Some? && e.eventHash != k.hash(e.core), i, HashMismatch)
    + When(k.hash(e.core).None?, i, CannotHash)
  }

  /** The checks on what a well-shaped event refers to. */
  function ReferenceProblems(k: Checks, s: Seen, i: nat, e: Event): seq<Problem> {
    if !k.Valid(e) then []
    else
      match e.core.body
      case ToolDefinition(server, tool, defHash) =>
        var h := k.toolHash(tool);
        When(h.Some? && h.value != defHash, i, DefHashMismatch) + When(h.None?, i, CannotHashTool)
      case ToolCall(callId, server, name, defHash, _) =>
        When((server, name, defHash) !in s.definitions, i, UnknownDefinition)
          + When(callId in s.calls, i, DuplicateCall)
      case ToolResponse(callId, _, _, _) =>
        When(callId !in s.calls, i, UnknownCall) + When(callId in s.responses, i, DuplicateResponse)
      case _ => []
  }

  function CheckEvent(k: Checks, s: Seen, i: nat, e: Event): seq<Problem> {
    FrameProblems(k, s, i, e) + ReferenceProblems(k, s, i, e)
  }

  function Note(k: Checks, s: Seen, e: Event): Seen {
    var t := s.(ended := s.ended || e.core.body.SessionEnd?,
                prevHash := e.eventHash,
                expected := (if e.core.seq_.Some? then e.core.seq_.value else s.expected) + 1);
    if !k.Valid(e) then t
    else
      match e.core.body
      case ToolDefinition(server, tool, defHash) =>
        t.(definitions := t.definitions + {(server, ToolName(tool), defHash)})
      case ToolCall(callId, _, _, _, _) => t.(calls := t.calls + {callId})
      case ToolResponse(callId, _, _, _) => t.(responses := t.responses + {callId})
      case _ => t
  }

  function SeenAfter(k: Checks, events: seq<Event>): Seen {
    if events == [] then NOTHING_SEEN
    else Note(k, SeenAfter(k, events[..|events| - 1]), events[|events| - 1])
  }

  function LastProblems(k: Checks, front: seq<Event>, e: Event): seq<Problem> {
    CheckEvent(k, SeenAfter(k, front), |front|, e)
  }

  function EventProblems(k: Checks, events: seq<Event>): seq<Problem> {
    if events == [] then []
    else
      var front := events[..|events| - 1];
      EventProblems(k, front) + LastProblems(k, front, events[|events| - 1])
  }

  function Problems(k: Checks, events: seq<Event>): seq<Problem> {
    if events == [] then [Problem(0, EmptyRecording)]
    else When(!events[0].core.body.SessionStart?, 0, NoStart) + EventProblems(k, events)
  }

  /** `Recording.verify`. */
  method Verify(k: Checks, events: seq<Event>) returns (problems: seq<Problem>)
    ensures problems == Problems(k, events)
  {
    if events == [] {
      return [Problem(0, EmptyRecording)];
    }
    problems := [];
    if !events[0].core.body.SessionStart? {
      problems := [Problem(0, NoStart)];
    }
    var definitions: set<(string, string, Hash)>, calls: set<string>, responses: set<string> := {}, {}, {};
    var ended, prevHash, expected := false, None, 0;
    ghost var first := problems;
    for i := 0 to |events|
      invariant Seen(definitions, calls, responses, ended, prevHash, expected) == SeenAfter(k, events[..i])
      invariant problems == first + EventProblems(k, events[..i])
    {
      var e := events[i];
      ghost var front := events[..i];
      assert events[..i + 1] == front + [e];
      var seen := Seen(definitions, calls, responses, ended, prevHash, expected);
      var found := CheckEvent(k, seen, i, e);
      assert found == LastProblems(k, front, e);
      ProblemsSnoc(k, front, e);
      Regroup(first, EventProblems(k, front), LastProblems(k, front, e));
      problems := problems + found;
      assert problems == first + EventProblems(k, front + [e]);
      ended := ended || e.core.body.SessionEnd?;
      prevHash := e.eventHash;
      expected := (if e.core.seq_.Some? then e.core.seq_.value else expected) + 1;
      if k.Valid(e) {
        match e.core.body {
          case ToolDefinition(server, tool, defHash) =>
            definitions := definitions + {(server, ToolName(tool), defHash)};
          case ToolCall(callId, _, _, _, _) => calls := calls + {callId};
          case ToolResponse(callId, _, _, _) => responses := responses + {callId};
          case _ =>
        }
      }
      assert Seen(definitions, calls, responses, ended, prevHash, expected) == Note(k, seen, e);
    }
    assert events[..|events|] == events;
  }

  lemma Regroup(a: seq<Problem>, b: seq<Problem>, c: seq<Problem>)
    ensures (a + b) + c == a + (b + c)
  {
  }

  lemma ProblemsSnoc(k: Checks, front: seq<Event>, e: Event)
    ensures EventProblems(k, front + [e]) == EventProblems(k, front) + LastProblems(k, front, e)
    ensures SeenAfter(k, front + [e]) == Note(k, SeenAfter(k, front), e)
  {
    assert (front + [e])[..|front|] == front;
  }

  // ----- what passing means, without the running state -----

  predicate Defines(e: Event, server: string, name: string, h: Hash) {
    e.core.body.ToolDefinition? && e.core.body.server == server && ToolName(e.core.body.tool) == name
      && e.core.body.defHash == h
  }

  predicate Calls(e: Event, id: string) {
    e.core.body.ToolCall? && e.core.body.callId == id
  }

  predicate Responds(e: Event, id: string) {
    e.core.body.ToolResponse? && e.core.body.responseId == id
  }

  /** An event refers only to what earlier events of the recording introduced. */
  ghost predicate RefersBack(k: Checks, before: seq<Event>, e: Event) {
    match e.core.body
    case ToolDefinition(_, tool, defHash) => k.toolHash(tool) == Some(defHash)
    case ToolCall(id, server, name, defHash, _) =>
      && (exists j | 0 <= j < |before| :: Defines(before[j], server, name, defHash))
      && (forall j | 0 <= j < |before| :: !Calls(before[j], id))
    case ToolResponse(id, _, _, _) =>
      && (exists j | 0 <= j < |before| :: Calls(before[j], id))
      && (forall j | 0 <= j < |before| :: !Responds(before[j], id))
    case _ => true
  }

  ghost predicate WellPlaced(k: Checks, before: seq<Event>, e: Event) {
    && e.core.sessionId == k.sessionId
    && (forall j | 0 <= j < |before| :: !before[j].core.body.SessionEnd?)
    && (before != [] ==> !e.core.body.SessionStart?)
  }

  ghost predicate EventOk(k: Checks, events: seq<Event>, i: nat)
    requires i < |events|
  {
    WellPlaced(k, events[..i], events[i]) && RefersBack(k, events[..i], events[i])
  }

  /** A hash chain of well-placed events that refer back, whatever the schema says of them. */
  ghost predicate Consistent(k: Checks, events: seq<Event>) {
    IsChain(k.hash, events) && forall i | 0 <= i < |events| :: EventOk(k, events, i)
  }

  predicate AllValid(k: Checks, events: seq<Event>) {
    forall i | 0 <= i < |events| :: k.Valid(events[i])
  }

  /** A sound recording: a consistent one whose events pass the schema check. */
  ghost predicate Sound(k: Checks, events: seq<Event>) {
    Consistent(k, events) && AllValid(k, events)
  }

  lemma ConsistentSnoc(k: Checks, front: seq<Event>, e: Event)
    ensures Consistent(k, front + [e]) <==>
              && Consistent(k, front)
              && Linked(k.hash, e, |front|, HashBefore(front, |front|))
              && WellPlaced(k, front, e) && RefersBack(k, front, e)
  {
    var all := front + [e];
    ChainSnoc(k.hash, front, e);
    assert all[..|front|] == front;
    assert EventOk(k, all, |front|) <==> WellPlaced(k, front, e) && RefersBack(k, front, e);
    forall i | 0 <= i < |front| ensures EventOk(k, all, i) <==> EventOk(k, front, i) {
      assert all[..i] == front[..i] && all[i] == front[i];
    }
  }

  lemma AllValidSnoc(k: Checks, front: seq<Event>, e: Event)
    ensures AllValid(k, front + [e]) <==> AllValid(k, front) && k.Valid(e)
  {
    var all := front + [e];
    assert all[|front|] == e && forall i | 0 <= i < |front| :: all[i] == front[i];
  }

  lemma SoundSnoc(k: Checks, front: seq<Event>, e: Event)
    ensures Sound(k, front + [e]) <==>
              && Sound(k, front) && k.Valid(e)
              && Linked(k.hash, e, |front|, HashBefore(front, |front|))
              && WellPlaced(k, front, e) && RefersBack(k, front, e)
  {
    ConsistentSnoc(k, front, e);
    AllValidSnoc(k, front, e);
  }

  /** What the sets hold after a prefix without schema violations. */
  ghost predicate SeenFacts(k: Checks, events: seq<Event>, s: Seen) {
    && (forall server, name, h ::
          (server, name, h) in s.definitions <==> exists j | 0 <= j < |events| :: Defines(events[j], server, name, h))
    && (forall id :: id in s.calls <==> exists j | 0 <= j < |events| :: Calls(events[j], id))
    && (forall id :: id in s.responses <==> exists j | 0 <= j < |events| :: Responds(events[j], id))
    && (s.ended <==> exists j | 0 <= j < |events| :: events[j].core.body.SessionEnd?)
  }

  lemma SeenFactsSnoc(k: Checks, front: seq<Event>, s: Seen, e: Event)
    requires SeenFacts(k, front, s) && k.Valid(e)
    ensures SeenFacts(k, front + [e], Note(k, s, e))
  {
    var all, t := front + [e], Note(k, s, e);
    assert all[|front|] == e && forall j | 0 <= j < |front| :: all[j] == front[j];
    forall server, name, h
      ensures (server, name, h) in t.definitions <==> exists j | 0 <= j < |all| :: Defines(all[j], server, name, h)
    {
      if (server, name, h) in s.definitions {
        var j :| 0 <= j < |front| && Defines(front[j], server, name, h);
        assert Defines(all[j], server, name, h);
      } else if (server, name, h) in t.definitions {
        assert Defines(all[|front|], server, name, h);
      }
    }
    forall id ensures id in t.calls <==> exists j | 0 <= j < |all| :: Calls(all[j], id) {
      if id in s.calls {
        var j :| 0 <= j < |front| && Calls(front[j], id);
        assert Calls(all[j], id);
      } else if id in t.calls {
        assert Calls(all[|front|], id);
      }
    }
    forall id ensures id in t.responses <==> exists j | 0 <= j < |all| :: Responds(all[j], id) {
      if id in s.responses {
        var j :| 0 <= j < |front| && Responds(front[j], id);
        assert Responds(all[j], id);
      } else if id in t.responses {
        assert Responds(all[|front|], id);
      }
    }
    if s.ended {
      var j :| 0 <= j < |front| && front[j].core.body.SessionEnd?;
      assert all[j].core.body.SessionEnd?;
    } else if t.ended {
      assert all[|front|].core.body.SessionEnd?;
    }
  }

  /** The running state of a sound prefix. */
  lemma {:induction false} SoundState(k: Checks, events: seq<Event>)
    requires Sound(k, events)
    ensures SeenFacts(k, events, SeenAfter(k, events))
    ensures SeenAfter(k, events).prevHash == HashBefore(events, |events|)
    ensures SeenAfter(k, events).expected == |events|
  {
    if events != [] {
      var front, e := events[..|events| - 1], events[|events| - 1];
      assert events == front + [e];
      SoundSnoc(k, front, e);
      SoundState(k, front);
      SeenFactsSnoc(k, front, SeenAfter(k, front), e);
    }
  }

  lemma LastProblemsEmpty(k: Checks, front: seq<Event>, e: Event)
    requires Sound(k, front)
    ensures LastProblems(k, front, e) == [] <==>
              && k.Valid(e) && Linked(k.hash, e, |front|, HashBefore(front, |front|))
              && WellPlaced(k, front, e) && RefersBack(k, front, e)
  {
    SoundState(k, front);
    var s := SeenAfter(k, front);
    assert FrameProblems(k, s, |front|, e) == [] <==>
             k.Valid(e) && Linked(k.hash, e, |front|, HashBefore(front, |front|)) && WellPlaced(k, front, e);
    assert k.Valid(e) ==> (ReferenceProblems(k, s, |front|, e) == [] <==> RefersBack(k, front, e));
  }

  lemma {:induction false} EventsSound(k: Checks, events: seq<Event>)
    ensures EventProblems(k, events) == [] <==> Sound(k, events)
  {
    if events != [] {
      var front, e := events[..|events| - 1], events[|events| - 1];
      assert events == front + [e];
      SoundSnoc(k, front, e);
      EventsSound(k, front);
      if Sound(k, front) {
        LastProblemsEmpty(k, front, e);
      }
    }
  }

  /** `verify` finds nothing exactly in a non-empty sound recording that begins with session_start. */
  lemma VerifyIffSound(k: Checks, events: seq<Event>)
    ensures Problems(k, events) == [] <==>
              events != [] && events[0].core.body.SessionStart? && Sound(k, events)
  {
    EventsSound(k, events);
  }

  // ----- which problems are reported -----

  const FRAME_KINDS := {OtherSession, AfterEnd, DuplicateStart, SeqMismatch, PrevMismatch, HashMismatch, CannotHash}
  const REFERENCE_KINDS := {DefHashMismatch, CannotHashTool, UnknownDefinition, DuplicateCall, UnknownCall,
                            DuplicateResponse}

  /** All problems are about event `i` and of these kinds. */
  predicate Among(problems: seq<Problem>, i: nat, kinds: set<Kind>) {
    forall p | p in problems :: p.index == i && p.kind in kinds
  }

  lemma AmongConcat(a: seq<Problem>, b: seq<Problem>, i: nat, kinds: set<Kind>)
    requires Among(a, i, kinds) && Among(b, i, kinds)
    ensures Among(a + b, i, kinds)
  {
  }

  lemma WhenAmong(problems: seq<Problem>, c: bool, i: nat, kind: Kind, kinds: set<Kind>)
    requires Among(problems, i, kinds) && kind in kinds
    ensures Among(problems + When(c, i, kind), i, kinds)
  {
    AmongConcat(problems, When(c, i, kind), i, kinds);
  }

  lemma ReferencesAmong(k: Checks, s: Seen, i: nat, e: Event)
    ensures Among(ReferenceProblems(k, s, i, e), i, REFERENCE_KINDS)
  {
  }

  /** The schema violations come first, one for each error; the other checks add their own kinds. */
  lemma FrameAmong(k: Checks, s: Seen, i: nat, e: Event, kinds: set<Kind>)
    requires FRAME_KINDS <= kinds && (!k.Valid(e) ==> SchemaViolation in kinds)
    ensures Among(FrameProblems(k, s, i, e), i, kinds)
  {
    var h := k.hash(e.core);
    var p := seq(k.errors(e), _ => Problem(i, SchemaViolation));
    WhenAmong(p, e.core.sessionId != k.sessionId, i, OtherSession, kinds);
    p := p + When(e.core.sessionId != k.sessionId, i, OtherSession);
    WhenAmong(p, s.ended, i, AfterEnd, kinds);
    p := p + When(s.ended, i, AfterEnd);
    WhenAmong(p, i > 0 && e.core.body.SessionStart?, i, DuplicateStart, kinds);
    p := p + When(i > 0 && e.core.body.SessionStart?, i, DuplicateStart);
    WhenAmong(p, e.core.seq_ != Some(s.expected), i, SeqMismatch, kinds);
    p := p + When(e.core.seq_ != Some(s.expected), i, SeqMismatch);
    WhenAmong(p, e.core.prevHash != s.prevHash, i, PrevMismatch, kinds);
    p := p + When(e.core.prevHash != s.prevHash, i, PrevMismatch);
    WhenAmong(p, h.Some? && e.eventHash != h, i, HashMismatch, kinds);
    p := p + When(h.Some? && e.eventHash != h, i, HashMismatch);
    WhenAmong(p, h.None?, i, CannotHash, kinds);
  }

  lemma OwnIndexOnly(k: Checks, s: Seen, i: nat, e: Event)
    ensures forall p | p in CheckEvent(k, s, i, e) :: p.index == i
  {
    FrameAmong(k, s, i, e, FRAME_KINDS + {SchemaViolation});
    ReferencesAmong(k, s, i, e);
    InConcat(FrameProblems(k, s, i, e), ReferenceProblems(k, s, i, e));
  }

  lemma InConcat(a: seq<Problem>, b: seq<Problem>)
    ensures forall p :: p in a + b <==> p in a || p in b
  {
  }

  /** A problem is reported exactly if the check of its own event reports it. */
  lemma {:induction false} ReportedAt(k: Checks, events: seq<Event>, p: Problem)
    ensures p in EventProblems(k, events)
       <==> && p.index < |events|
            && p in CheckEvent(k, SeenAfter(k, events[..p.index]), p.index, events[p.index])
  {
    if events != [] {
      var front, e := events[..|events| - 1], events[|events| - 1];
      ReportedAt(k, front, p);
      OwnIndexOnly(k, SeenAfter(k, front), |front|, e);
      if p.index < |front| {
        assert front[..p.index] == events[..p.index] && front[p.index] == events[p.index];
      }
    }
  }

  /** A definition of the first `n` events that passes the schema check. */
  predicate OnRecord(k: Checks, events: seq<Event>, n: nat, server: string, name: string, h: Hash)
    requires n <= |events|
  {
    exists j | 0 <= j < n :: k.Valid(events[j]) && Defines(events[j], server, name, h)
  }

  /** The definitions a call may refer to are those on record in an event that passes the schema check. */
  lemma {:induction false} DefinedIffValid(k: Checks, events: seq<Event>, n: nat, server: string, name: string, h: Hash)
    requires n <= |events|
    ensures (server, name, h) in SeenAfter(k, events[..n]).definitions <==> OnRecord(k, events, n, server, name, h)
  {
    if n > 0 {
      DefinedIffValid(k, events, n - 1, server, name, h);
      assert events[..n][..n - 1] == events[..n - 1] && events[..n][n - 1] == events[n - 1];
    }
  }

  /** `verify` reports a schema violation exactly at the events the validator rejects ... */
  lemma ViolationReported(k: Checks, events: seq<Event>, i: nat)
    ensures Problem(i, SchemaViolation) in Problems(k, events) <==> i < |events| && !k.Valid(events[i])
  {
    ReportedAt(k, events, Problem(i, SchemaViolation));
    if i < |events| {
      var s := SeenAfter(k, events[..i]);
      ViolationsFirst(k, s, i, events[i]);
    }
  }

  lemma ViolationsFirst(k: Checks, s: Seen, i: nat, e: Event)
    ensures Problem(i, SchemaViolation) in CheckEvent(k, s, i, e) <==> !k.Valid(e)
  {
    if k.Valid(e) {
      FrameAmong(k, s, i, e, FRAME_KINDS);
      ReferencesAmong(k, s, i, e);
      InConcat(FrameProblems(k, s, i, e), ReferenceProblems(k, s, i, e));
    } else {
      ViolationIsFirst(k, s, i, e);
      InConcat(FrameProblems(k, s, i, e), ReferenceProblems(k, s, i, e));
    }
  }

  lemma ViolationIsFirst(k: Checks, s: Seen, i: nat, e: Event)
    requires !k.Valid(e)
    ensures Problem(i, SchemaViolation) in FrameProblems(k, s, i, e)
  {
    assert FrameProblems(k, s, i, e)[0] == Problem(i, SchemaViolation);
  }

  /** ... and an unknown definition exactly at the accepted calls whose definition was never on record in
      an accepted event. */
  lemma UnknownReported(k: Checks, events: seq<Event>, i: nat)
    ensures Problem(i, UnknownDefinition) in Problems(k, events) <==>
              && i < |events| && k.Valid(events[i]) && events[i].core.body.ToolCall?
              && var call := events[i].core.body; !OnRecord(k, events, i, call.callServer, call.toolName, call.callHash)
  {
    ReportedAt(k, events, Problem(i, UnknownDefinition));
    if i < |events| {
      UnknownInEvent(k, SeenAfter(k, events[..i]), i, events[i]);
      if events[i].core.body.ToolCall? {
        var call := events[i].core.body;
        DefinedIffValid(k, events, i, call.callServer, call.toolName, call.callHash);
      }
    }
  }

  lemma UnknownInEvent(k: Checks, s: Seen, i: nat, e: Event)
    ensures Problem(i, UnknownDefinition) in CheckEvent(k, s, i, e) <==>
              && k.Valid(e) && e.core.body.ToolCall?
              && (e.core.body.callServer, e.core.body.toolName, e.core.body.callHash) !in s.definitions
  {
    FrameAmong(k, s, i, e, FRAME_KINDS + {SchemaViolation});
    InConcat(FrameProblems(k, s, i, e), ReferenceProblems(k, s, i, e));
    UnknownReference(k, s, i, e);
  }

  lemma UnknownReference(k: Checks, s: Seen, i: nat, e: Event)
    ensures Problem(i, UnknownDefinition) in ReferenceProblems(k, s, i, e) <==>
              && k.Valid(e) && e.core.body.ToolCall?
              && (e.core.body.callServer, e.core.body.toolName, e.core.body.callHash) !in s.definitions
  {
  }

  /** A crash leaves a verifiable prefix: every non-empty prefix of a passing recording passes. */
  lemma {:induction false} PrefixesPass(k: Checks, events: seq<Event>, n: nat)
    requires Problems(k, events) == [] && 0 < n <= |events|
    ensures Problems(k, events[..n]) == []
    decreases |events| - n
  {
    if n < |events| {
      PrefixesPass(k, events, n + 1);
      assert events[..n + 1][..n] == events[..n];
    } else {
      assert events[..n] == events;
    }
  }

  /** Two recordings that pass and end in the same event hash are the same, event by event. */
  lemma PassingLogsWithEqualHeads(k: Checks, a: seq<Event>, l: Checks, b: seq<Event>)
    requires k.hash == l.hash && Injective(k.hash)
    requires Problems(k, a) == [] && Problems(l, b) == []
    requires a[|a| - 1].eventHash == b[|b| - 1].eventHash
    ensures a == b
  {
    VerifyIffSound(k, a);
    VerifyIffSound(l, b);
    HeadFixesLog(k.hash, a, b);
  }
}
