/**
 The head hash fixes the log as JSON: with a SHA-256 that never collides, two chains over canonical text
 that end in the same hash say the same, event by event, although dict order and the Python type of a
 number never reach the text.
 */
module CanonicalChain {
  import opened Wrappers
  import opened Json
  import U = Utf16
  import opened Events
  import opened Recording
  import opened EventText
  import opened ContractMeaning
  import C = Canonical
  import D = Decoder
  import Normalize
  import Numbers
  import Unambiguous

  ghost predicate NeverCollides(h: Hashing) {
    forall s, t :: h.sha(s) == h.sha(t) ==> s == t
  }

  /** A text spelled with two characters for each code point: no two texts share a spelling. */
  function Spell(t: U.Text): string {
    seq(2 * |t|, i requires 0 <= i < 2 * |t| =>
      if i % 2 == 0 then (t[i / 2] / 0x400) as char else (t[i / 2] % 0x400) as char)
  }

  lemma SpellIsInjective(s: U.Text, t: U.Text)
    requires Spell(s) == Spell(t)
    ensures s == t
  {
    assert |Spell(s)| == 2 * |s| && |Spell(t)| == 2 * |t|;
    forall i | 0 <= i < |s| ensures s[i] == t[i] {
      assert Spell(s)[2 * i] == Spell(t)[2 * i];
      assert Spell(s)[2 * i + 1] == Spell(t)[2 * i + 1];
      assert (s[i] / 0x400) as char == (t[i] / 0x400) as char && (s[i] % 0x400) as char == (t[i] % 0x400) as char;
    }
  }

  /** Both hypotheses on the hashing can be met together, with every decimal portable. */
  lemma HashingExists()
    ensures exists h: Hashing :: Faithful(h) && NeverCollides(h) && forall x | IsDecimal(x) :: Portable(h, Num(x))
  {
    var h := Hashing(t => Spell(t), x => ReadNumber(x));
    ReadingIsFaithful(h);
    forall s, t | h.sha(s) == h.sha(t) ensures s == t {
      SpellIsInjective(s, t);
    }
    assert Faithful(h) && NeverCollides(h) && forall x | IsDecimal(x) :: Portable(h, Num(x));
  }

  /** Every dict inside the event has distinct keys. */
  predicate WellFormedBody(body: Body) {
    match body
    case ToolDefinition(_, tool, _) => WellFormed(tool)
    case ToolCall(_, _, _, _, args) => WellFormed(args)
    case ToolResponse(_, _, result, _) => WellFormed(result)
    case Malformed(raw) => WellFormed(raw)
    case _ => true
  }

  // ----- an event is a proper dict -----

  function FrameKeys(): seq<string> {
    ["v", "seq", "ts", "session_id", "prev_hash"]
  }

  function BodyKeys(body: Body): seq<string> {
    match body
    case SessionStart(_) => ["type", "agent"]
    case ToolDefinition(_, _, _) => ["type", "server", "tool", "def_hash"]
    case ToolCall(_, _, _, _, _) => ["type", "call_id", "server", "tool_name", "def_hash", "args"]
    case ToolResponse(_, ok, _, _) => ["type", "call_id", "ok", if ok then "result" else "error", "latency_ms"]
    case PolicyDecision(_, _, _, _) => ["type", "server", "tool_name", "action", "reason"]
    case SessionEnd(_) => ["type", "reason"]
    case Malformed(_) => ["raw"]
  }

  predicate DistinctStrings(keys: seq<string>) {
    forall i, j | 0 <= i < j < |keys| :: keys[i] != keys[j]
  }

  lemma KeysAreDistinct(body: Body)
    ensures DistinctStrings(FrameKeys() + BodyKeys(body))
  {
  }

  lemma KeysOfEvent(h: Hashing, c: Core)
    ensures var members, keys := Frame(c) + BodyMembers(h, c.body), FrameKeys() + BodyKeys(c.body);
      |members| == |keys| && forall i | 0 <= i < |members| :: members[i].key == Normalize.Ascii(keys[i])
  {
  }

  lemma ValuesAreProper(h: Hashing, c: Core)
    requires Faithful(h) && WellFormedBody(c.body)
    ensures var members := Frame(c) + BodyMembers(h, c.body);
      forall i | 0 <= i < |members| :: C.Proper(members[i].value)
  {
    match c.body
    case ToolDefinition(_, tool, _) => PythonIsProper(h, tool);
    case ToolCall(_, _, _, _, args) => PythonIsProper(h, args);
    case ToolResponse(_, _, result, latency) =>
      PythonIsProper(h, result);
      assert h.number(latency).NonFinite? || NumberIs(h.number(latency), latency);
    case Malformed(raw) => PythonIsProper(h, raw);
    case _ =>
  }

  lemma EventIsProper(h: Hashing, c: Core)
    requires Faithful(h) && WellFormedBody(c.body)
    ensures C.Proper(EventValue(h, c)) && C.DistinctKeys(EventValue(h, c).members)
  {
    var members, keys := Frame(c) + BodyMembers(h, c.body), FrameKeys() + BodyKeys(c.body);
    KeysOfEvent(h, c);
    KeysAreDistinct(c.body);
    ValuesAreProper(h, c);
    forall i, j | 0 <= i < j < |members| ensures members[i].key != members[j].key {
      AsciiInjective(keys[i], keys[j]);
    }
  }

  // ----- equal hashes -----

  /** What an event says: its JSON value. */
  function Said(h: Hashing, c: Core): D.Jv
    requires EventHash(h, c).Some?
  {
    C.PrintsExactlyAccepted(EventValue(h, c));
    D.Meaning(EventValue(h, c))
  }

  lemma EqualHashesSaySame(h: Hashing, c: Core, d: Core)
    requires Faithful(h) && NeverCollides(h) && WellFormedBody(c.body) && WellFormedBody(d.body)
    requires EventHash(h, c).Some? && EventHash(h, c) == EventHash(h, d)
    ensures Said(h, c) == Said(h, d)
  {
    var u, v := EventValue(h, c), EventValue(h, d);
    C.PrintsExactlyAccepted(u);
    C.PrintsExactlyAccepted(v);
    EventIsProper(h, c);
    EventIsProper(h, d);
    assert h.sha(C.Print(u).value) == h.sha(C.Print(v).value);
    Unambiguous.SameTextIffSameJson(u, v);
  }

  lemma MemberSaid(v: C.Value, i: nat)
    requires v.Obj? && i < |v.members| && C.Accepted(v) && C.DistinctKeys(v.members)
    ensures var m := v.members[i];
      && C.Accepted(m.value) && D.Meaning(v).JObj? && m.key in D.Meaning(v).fields
      && D.Meaning(v).fields[m.key] == D.Meaning(m.value)
  {
    assert D.AcceptedMembers(v.members);
    D.MeaningByMembers(v.members);
  }

  lemma FrameMembers(h: Hashing, c: Core)
    ensures var members := EventValue(h, c).members;
      && |members| > 4
      && members[1] == C.Member(Normalize.Ascii("seq"), if c.seq_.Some? then C.Int(c.seq_.value) else C.Null)
      && members[4] == C.Member(Normalize.Ascii("prev_hash"),
                                if c.prevHash.Some? then C.Str(Normalize.Ascii(c.prevHash.value)) else C.Null)
  {
    assert EventValue(h, c).members[..5] == Frame(c);
  }

  /** The frame can be read off the JSON value. */
  lemma FrameSaid(h: Hashing, c: Core)
    requires Faithful(h) && WellFormedBody(c.body) && EventHash(h, c).Some?
    ensures var said := Said(h, c);
      && said.JObj? && Normalize.Ascii("seq") in said.fields && Normalize.Ascii("prev_hash") in said.fields
      && said.fields[Normalize.Ascii("seq")]
        == (if c.seq_.Some? then D.JNum(Numbers.NumOfInt(c.seq_.value)) else D.JNull)
      && said.fields[Normalize.Ascii("prev_hash")]
         == if c.prevHash.Some? then D.JStr(Normalize.Ascii(c.prevHash.value)) else D.JNull
  {
    var v := EventValue(h, c);
    C.PrintsExactlyAccepted(v);
    EventIsProper(h, c);
    MemberSaid(v, 1);
    MemberSaid(v, 4);
    FrameMembers(h, c);
  }

  lemma SaidFixesFrame(h: Hashing, c: Core, d: Core)
    requires Faithful(h) && WellFormedBody(c.body) && WellFormedBody(d.body)
    requires EventHash(h, c).Some? && EventHash(h, d).Some? && Said(h, c) == Said(h, d)
    ensures c.seq_ == d.seq_ && c.prevHash == d.prevHash
  {
    FrameSaid(h, c);
    FrameSaid(h, d);
    if c.seq_.Some? && d.seq_.Some? {
      Numbers.IntIsItsNumber(c.seq_.value);
      Numbers.IntIsItsNumber(d.seq_.value);
    }
    if c.prevHash.Some? && d.prevHash.Some? {
      AsciiInjective(c.prevHash.value, d.prevHash.value);
    }
  }

  // ----- chains -----

  /** Event number `i` is hashed over its canonical text and points back to its predecessor. */
  predicate CanonicalLink(h: Hashing, events: seq<Event>, i: nat)
    requires i < |events|
  {
    var e := events[i];
    && WellFormedBody(e.core.body)
    && EventHash(h, e.core).Some? && e.eventHash == EventHash(h, e.core)
    && e.core.seq_ == Some(i) && e.core.prevHash == HashBefore(events, i)
  }

  predicate IsCanonicalChain(h: Hashing, events: seq<Event>) {
    forall i | 0 <= i < |events| :: CanonicalLink(h, events, i)
  }

  /** A chain whose hashes are those of the canonical text. */
  lemma ChainIsCanonical(h: Hashing, hash: Hasher, events: seq<Event>)
    requires IsChain(hash, events)
    requires forall i | 0 <= i < |events| ::
      WellFormedBody(events[i].core.body) && hash(events[i].core) == EventHash(h, events[i].core)
    ensures IsCanonicalChain(h, events)
  {
    forall i | 0 <= i < |events| ensures CanonicalLink(h, events, i) {
      assert LinkedAt(hash, events, i);
    }
  }

  /** The two events say the same. */
  ghost predicate SaySame(h: Hashing, d: Event, e: Event) {
    && d.eventHash == e.eventHash && d.core.seq_ == e.core.seq_ && d.core.prevHash == e.core.prevHash
    && EventHash(h, d.core).Some? && EventHash(h, e.core).Some? && Said(h, d.core) == Said(h, e.core)
  }

  lemma EqualLinksSaySame(h: Hashing, a: seq<Event>, i: nat, b: seq<Event>, j: nat)
    requires Faithful(h) && NeverCollides(h) && i < |a| && j < |b|
    requires CanonicalLink(h, a, i) && CanonicalLink(h, b, j) && a[i].eventHash == b[j].eventHash
    ensures SaySame(h, a[i], b[j]) && i == j && HashBefore(a, i) == HashBefore(b, j)
  {
    EqualHashesSaySame(h, a[i].core, b[j].core);
    SaidFixesFrame(h, a[i].core, b[j].core);
  }

  /** The same, for two chains. */
  lemma EqualHashesInChains(h: Hashing, a: seq<Event>, i: nat, b: seq<Event>, j: nat)
    requires Faithful(h) && NeverCollides(h) && IsCanonicalChain(h, a) && IsCanonicalChain(h, b)
    requires i < |a| && j < |b| && a[i].eventHash == b[j].eventHash
    ensures SaySame(h, a[i], b[j]) && i == j && HashBefore(a, i) == HashBefore(b, j)
  {
    assert CanonicalLink(h, a, i);
    assert CanonicalLink(h, b, j);
    EqualLinksSaySame(h, a, i, b, j);
  }

  lemma OneHashDown(h: Hashing, a: seq<Event>, b: seq<Event>, n: nat)
    requires Faithful(h) && NeverCollides(h) && IsCanonicalChain(h, a) && IsCanonicalChain(h, b)
    requires n < |a| && n < |b| && HashBefore(a, n + 1) == HashBefore(b, n + 1)
    ensures HashBefore(a, n) == HashBefore(b, n)
  {
    EqualHashesInChains(h, a, n, b, n);
  }

  /** Equal hashes all the way down. */
  lemma {:induction false} HashesBelow(h: Hashing, a: seq<Event>, b: seq<Event>, n: nat, i: nat)
    requires Faithful(h) && NeverCollides(h) && IsCanonicalChain(h, a) && IsCanonicalChain(h, b)
    requires i <= n <= |a| && n <= |b| && HashBefore(a, n) == HashBefore(b, n)
    ensures HashBefore(a, i) == HashBefore(b, i)
  {
    if i < n {
      OneHashDown(h, a, b, n - 1);
      HashesBelow(h, a, b, n - 1, i);
    }
  }

  lemma SameAt(h: Hashing, a: seq<Event>, b: seq<Event>, i: nat)
    requires Faithful(h) && NeverCollides(h) && IsCanonicalChain(h, a) && IsCanonicalChain(h, b)
    requires i < |a| == |b| && HashBefore(a, |a|) == HashBefore(b, |b|)
    ensures SaySame(h, a[i], b[i])
  {
    HashesBelow(h, a, b, |a|, i + 1);
    EqualHashesInChains(h, a, i, b, i);
  }

  lemma SameLength(h: Hashing, a: seq<Event>, b: seq<Event>)
    requires Faithful(h) && NeverCollides(h) && IsCanonicalChain(h, a) && IsCanonicalChain(h, b)
    requires a != [] && b != [] && a[|a| - 1].eventHash == b[|b| - 1].eventHash
    ensures |a| == |b|
  {
    EqualHashesInChains(h, a, |a| - 1, b, |b| - 1);
  }

  /** Non-empty logs on canonical text that end in the same hash have the same length and say the same,
      event by event. */
  lemma HeadFixesCanonicalLog(h: Hashing, a: seq<Event>, b: seq<Event>)
    requires Faithful(h) && NeverCollides(h) && IsCanonicalChain(h, a) && IsCanonicalChain(h, b)
    requires a != [] && b != [] && a[|a| - 1].eventHash == b[|b| - 1].eventHash
    ensures |a| == |b| && forall i | 0 <= i < |a| :: SaySame(h, a[i], b[i])
  {
    SameLength(h, a, b);
    forall i | 0 <= i < |a| ensures SaySame(h, a[i], b[i]) {
      SameAt(h, a, b, i);
    }
  }

  /** Two recordings that pass `verify` and end in the same hash say the same, event by event. */
  lemma PassingLogsSaySame(h: Hashing, k: Checks, a: seq<Event>, l: Checks, b: seq<Event>)
    requires Faithful(h) && NeverCollides(h)
    requires forall c :: k.hash(c) == EventHash(h, c)
    requires forall c :: l.hash(c) == EventHash(h, c)
    requires Problems(k, a) == [] && Problems(l, b) == []
    requires forall i | 0 <= i < |a| :: WellFormedBody(a[i].core.body)
    requires forall i | 0 <= i < |b| :: WellFormedBody(b[i].core.body)
    requires a[|a| - 1].eventHash == b[|b| - 1].eventHash
    ensures |a| == |b| && forall i | 0 <= i < |a| :: SaySame(h, a[i], b[i])
  {
    VerifyIffSound(k, a);
    VerifyIffSound(l, b);
    ChainIsCanonical(h, k.hash, a);
    ChainIsCanonical(h, l.hash, b);
    HeadFixesCanonicalLog(h, a, b);
  }
}
