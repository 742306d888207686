/**
 Recording events and their hash chain, shared by the recorder, the verifier and the proxy session.
 A field that is absent or has the wrong type is None; such an event fails the schema check.
 */
module Events {
  import opened Wrappers
  import opened Json

  type Hash = string

  /** An event's own fields, before the session adds `seq`, `prev_hash` and the hash. */
  datatype Body =
    | SessionStart(agent: string)
    | ToolDefinition(server: string, tool: Json, defHash: Hash)
    | ToolCall(callId: string, callServer: string, toolName: string, callHash: Hash, args: Json)
    | ToolResponse(responseId: string, ok: bool, result: Json, latency: real)
    | PolicyDecision(decisionServer: string, decisionTool: string, action: string, reason: string)
    | SessionEnd(endReason: string)
    | Malformed(raw: Json)

  /** An event without its own hash: what `event_hash` is computed from. */
  datatype Core = Core(seq_: Option<int>, sessionId: string, ts: string, body: Body, prevHash: Option<Hash>)

  datatype Event = Event(core: Core, eventHash: Option<Hash>)

  /** `event_hash`; None when the event has no canonical form, which raises in Python. */
  type Hasher = Core -> Option<Hash>

  /** Two events with the same hash are the same event. */
  ghost predicate Injective(h: Hasher) {
    forall a, b :: h(a).Some? && h(a) == h(b) ==> a == b
  }

  // ----- the writer's side of the chain -----

  /** The next sequence number and the hash it will point back to. */
  datatype Chain = Chain(next: nat, prevHash: Option<Hash>)

  const NEW_CHAIN := Chain(0, None)

  function CoreAt(c: Chain, sessionId: string, ts: string, body: Body): Core {
    Core(Some(c.next), sessionId, ts, body, c.prevHash)
  }

  /** The next event of a session; None when it cannot be hashed. */
  function Build(h: Hasher, c: Chain, sessionId: string, ts: string, body: Body): Option<Event> {
    var core := CoreAt(c, sessionId, ts, body);
    if h(core).None? then None else Some(Event(core, h(core)))
  }

  function Advance(c: Chain, e: Event): Chain {
    Chain(c.next + 1, e.eventHash)
  }

  // ----- a log that is a chain -----

  function HashBefore(events: seq<Event>, i: nat): Option<Hash>
    requires i <= |events|
  {
    if i == 0 then None else events[i - 1].eventHash
  }

  /** Event number `i` after a predecessor with hash `prev`. */
  predicate Linked(h: Hasher, e: Event, i: nat, prev: Option<Hash>) {
    && e.core.seq_ == Some(i)
    && e.core.prevHash == prev
    && e.eventHash.Some? && e.eventHash == h(e.core)
  }

  /** Sequence numbers 0,1,2,..., each event hashed, each pointing back to its predecessor. */
  predicate IsChain(h: Hasher, events: seq<Event>) {
    forall i | 0 <= i < |events| :: LinkedAt(h, events, i)
  }

  predicate LinkedAt(h: Hasher, events: seq<Event>, i: nat)
    requires i < |events|
  {
    Linked(h, events[i], i, HashBefore(events, i))
  }

  function ChainEnd(events: seq<Event>): Chain {
    Chain(|events|, HashBefore(events, |events|))
  }

  /** A chain followed by a linked event is a chain, and the other way around. */
  lemma ChainSnoc(h: Hasher, events: seq<Event>, e: Event)
    ensures IsChain(h, events + [e]) <==> IsChain(h, events) && Linked(h, e, |events|, HashBefore(events, |events|))
  {
    var all := events + [e];
    assert forall i | 0 <= i < |events| :: LinkedAt(h, all, i) == LinkedAt(h, events, i);
    assert LinkedAt(h, all, |events|) == Linked(h, e, |events|, HashBefore(events, |events|));
  }

  /** Appending what `Build` returns keeps the log a chain. */
  lemma BuildExtendsChain(h: Hasher, events: seq<Event>, sessionId: string, ts: string, body: Body)
    requires IsChain(h, events)
    requires Build(h, ChainEnd(events), sessionId, ts, body).Some?
    ensures var e := Build(h, ChainEnd(events), sessionId, ts, body).value;
            IsChain(h, events + [e]) && ChainEnd(events + [e]) == Advance(ChainEnd(events), e)
  {
    var e := Build(h, ChainEnd(events), sessionId, ts, body).value;
    ChainSnoc(h, events, e);
    assert HashBefore(events + [e], |events| + 1) == e.eventHash;
  }

  /** Linked events with the same hash are equal, and so are the hashes before them. */
  lemma EqualLinks(h: Hasher, d: Event, i: nat, prevD: Option<Hash>, e: Event, j: nat, prevE: Option<Hash>)
    requires Injective(h) && Linked(h, d, i, prevD) && Linked(h, e, j, prevE) && d.eventHash == e.eventHash
    ensures d == e && i == j && prevD == prevE
  {
    assert h(d.core).Some? && h(d.core) == h(e.core);
  }

  /** Chains that agree on one hash agree on everything before it. */
  lemma {:induction false} AgreeBelow(h: Hasher, a: seq<Event>, b: seq<Event>, n: nat)
    requires Injective(h) && IsChain(h, a) && IsChain(h, b)
    requires n <= |a| && n <= |b| && HashBefore(a, n) == HashBefore(b, n)
    ensures forall i | 0 <= i < n :: a[i] == b[i]
  {
    if n > 0 {
      assert LinkedAt(h, a, n - 1) && LinkedAt(h, b, n - 1);
      EqualLinks(h, a[n - 1], n - 1, HashBefore(a, n - 1), b[n - 1], n - 1, HashBefore(b, n - 1));
      AgreeBelow(h, a, b, n - 1);
    }
  }

  /** The head hash fixes the whole log: non-empty chains that end in the same hash are equal. */
  lemma HeadFixesLog(h: Hasher, a: seq<Event>, b: seq<Event>)
    requires Injective(h) && IsChain(h, a) && IsChain(h, b)
    requires a != [] && b != [] && a[|a| - 1].eventHash == b[|b| - 1].eventHash
    ensures a == b
  {
    var m, n := |a| - 1, |b| - 1;
    assert LinkedAt(h, a, m) && LinkedAt(h, b, n);
    EqualLinks(h, a[m], m, HashBefore(a, m), b[n], n, HashBefore(b, n));
    AgreeBelow(h, a, b, |a|);
  }
}
