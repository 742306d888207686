/**
 The pin, suspension and verdict rules of one proxy session, as functions of the session's pinned
 tools: what each lock section of `session.go` decides and records.
 */
module Pins {
  import opened Wrappers
  import opened Json
  import opened Events

  const NUL := ['\U{0000}']

  /** `Key`: the map key of a (server, tool) pair. */
  function Key(server: string, tool: string): string {
    server + NUL + tool
  }

  const READ_ONLY := "read_only"
  const DESTRUCTIVE := "destructive"
  const SIDE_EFFECTING := "side_effecting"

  /** `riskClass`: the coarse class the tool's annotations claim; side-effecting unless stated. */
  function RiskClass(tool: Json): string {
    if !tool.Obj? || !Get(tool, "annotations").Obj? then SIDE_EFFECTING
    else
      var ann := Get(tool, "annotations");
      if Get(ann, "readOnlyHint") == Bool(true) then READ_ONLY
      else if Get(ann, "destructiveHint") == Bool(true) then DESTRUCTIVE
      else SIDE_EFFECTING
  }

  /** A changed definition waiting for the control plane's verdict. */
  datatype PendingChange = PendingChange(
    revision: nat, newHash: Hash, newTool: Json, newSchema: Option<Json>, schemaError: string,
    risk: string, unreachable: bool, verdictApplied: bool)

  /** The contract a session has pinned for a tool.  Empty strings stand for "no error". */
  datatype PinnedTool = PinnedTool(
    defHash: Hash, tool: Json, schema: Option<Json>, schemaError: string, invalidDefinition: string,
    risk: string, suspended: bool, pending: Option<PendingChange>)

  type Pinned = map<string, PinnedTool>

  // ----- ObserveDefinition -----

  datatype Action = ActPinned | ActUnchanged | ActMismatch | ActPending | ActRetry | ActInvalid

  datatype Outcome = Outcome(action: Action, revision: nat, oldHash: Hash, newHash: Hash)

  /** Revisions are a uint64 counter. */
  const REVISIONS: nat := 0x1_0000_0000_0000_0000

  function NextRevision(n: nat): nat {
    (n + 1) % REVISIONS
  }

  datatype Observed = Observed(pinned: Pinned, nextChange: nat, outcome: Outcome, bodies: seq<Body>)

  function FreshPin(tool: Json, defHash: Hash, schema: Option<Json>, schemaError: string): PinnedTool {
    PinnedTool(defHash, tool, schema, schemaError, "", RiskClass(tool), schemaError != "", None)
  }

  function Block(server: string, name: string, reason: string): Body {
    PolicyDecision(server, name, "block", reason)
  }

  function ChangedReason(oldHash: Hash, newHash: Hash): string {
    "TOOL_CONTRACT_CHANGED: def_hash " + oldHash + " -> " + newHash
    + "; suspended pending control-plane classification"
  }

  function FirstSight(pinned: Pinned, nextChange: nat, server: string, name: string, tool: Json,
                      defHash: Hash, schema: Option<Json>, schemaError: string): Observed
  {
    Observed(pinned[Key(server, name) := FreshPin(tool, defHash, schema, schemaError)], nextChange,
             Outcome(if schemaError != "" then ActInvalid else ActPinned, 0, "", defHash),
             [ToolDefinition(server, tool, defHash)]
             + if schemaError != "" then [Block(server, name, "TOOL_SCHEMA_INVALID: " + schemaError)] else [])
  }

  /** The pinned definition again: a session that was blocked by a change is restored. */
  function SameHash(pinned: Pinned, nextChange: nat, server: string, name: string, p: PinnedTool,
                    hadInvalid: bool, schemaError: string): Observed
  {
    var restored := schemaError == "" && (hadInvalid || p.pending.Some?);
    var q := if restored then p.(suspended := false, pending := None) else p;
    var action := if q.schemaError != "" then ActInvalid else if q.suspended then ActPending else ActUnchanged;
    Observed(pinned[Key(server, name) := q], nextChange, Outcome(action, 0, p.defHash, p.defHash),
             if restored then
               [PolicyDecision(server, name, "resume", "previously pinned definition restored after blocked change")]
             else [])
  }

  /** The pending change again: reported once more only if the last report did not get through. */
  function ChangeAgain(pinned: Pinned, nextChange: nat, server: string, name: string, p: PinnedTool): Observed
    requires p.pending.Some?
  {
    var key, c := Key(server, name), p.pending.value;
    if c.schemaError != "" then
      Observed(pinned[key := p], nextChange, Outcome(ActInvalid, c.revision, p.defHash, c.newHash), [])
    else if c.unreachable && !c.verdictApplied then
      Observed(pinned[key := p.(pending := Some(c.(unreachable := false)))], nextChange,
               Outcome(ActRetry, c.revision, p.defHash, c.newHash), [])
    else
      Observed(pinned[key := p], nextChange, Outcome(ActPending, c.revision, p.defHash, c.newHash), [])
  }

  /** A new change suspends the tool under a new revision. */
  function NewChange(pinned: Pinned, nextChange: nat, server: string, name: string, p: PinnedTool, tool: Json,
                     defHash: Hash, schema: Option<Json>, schemaError: string): Observed
  {
    var revision := NextRevision(nextChange);
    var c := PendingChange(revision, defHash, tool, schema, schemaError, RiskClass(tool), false, false);
    Observed(pinned[Key(server, name) := p.(suspended := true, pending := Some(c))], revision,
             Outcome(if schemaError != "" then ActInvalid else ActMismatch, revision, p.defHash, defHash),
             [ToolDefinition(server, tool, defHash),
              Block(server, name, if schemaError != "" then "TOOL_SCHEMA_INVALID: " + schemaError
                                  else ChangedReason(p.defHash, defHash))])
  }

  /** `ObserveDefinition`: pin on first sight, restore or keep on a matching hash, replace an invalid
      first pin, recognise the pending change again, or suspend on a new one. */
  function Observe(pinned: Pinned, nextChange: nat, server: string, name: string, tool: Json,
                   defHash: Hash, schema: Option<Json>, schemaError: string): Observed
  {
    var key := Key(server, name);
    if key !in pinned then
      FirstSight(pinned, nextChange, server, name, tool, defHash, schema, schemaError)
    else
      var hadInvalid := pinned[key].invalidDefinition != "";
      var p := pinned[key].(invalidDefinition := "");
      if p.defHash == defHash then
        SameHash(pinned, nextChange, server, name, p, hadInvalid, schemaError)
      else if p.schemaError != "" && schemaError == "" then
        Observed(pinned[key := FreshPin(tool, defHash, schema, "")], nextChange,
                 Outcome(ActPinned, 0, p.defHash, defHash), [ToolDefinition(server, tool, defHash)])
      else if p.pending.Some? && p.pending.value.newHash == defHash then
        ChangeAgain(pinned, nextChange, server, name, p)
      else
        NewChange(pinned, nextChange, server, name, p, tool, defHash, schema, schemaError)
  }

  // ----- RejectDefinition -----

  /** `RejectDefinition`: nothing can be called while an unverifiable definition is advertised. */
  function Reject(pinned: Pinned, server: string, name: string, reason: string): Pinned {
    var key := Key(server, name);
    var p := if key in pinned then pinned[key]
             else PinnedTool("", Null, None, reason, "", "", false, None);
    pinned[key := p.(invalidDefinition := reason, suspended := true, pending := None)]
  }

  function RejectBody(server: string, name: string, reason: string): Body {
    Block(server, name, "TOOL_SCHEMA_INVALID: " + reason)
  }

  // ----- ApplyVerdict -----

  datatype Effect = Ignored | MarkedUnreachable | Resumed | StaysBlocked

  datatype Applied = Applied(pinned: Pinned, effect: Effect, bodies: seq<Body>)

  function ActionFor(verdict: string): string {
    if verdict == "resume" then "allow" else if verdict == "warn" then "warn" else "block"
  }

  /** `ApplyVerdict`: only the report of the current, undecided change has any effect. */
  function Apply(pinned: Pinned, server: string, name: string, revision: nat, unreachable: bool,
                 verdict: string, reason: string): Applied
  {
    var key := Key(server, name);
    if key !in pinned || pinned[key].pending.None?
       || pinned[key].pending.value.revision != revision || pinned[key].pending.value.verdictApplied then
      Applied(pinned, Ignored, [])
    else
      var p, c := pinned[key], pinned[key].pending.value;
      if unreachable then
        Applied(pinned[key := p.(pending := Some(c.(unreachable := true)))], MarkedUnreachable, [])
      else
        var decided := pinned[key := p.(pending := Some(c.(verdictApplied := true)))];
        if c.schemaError != "" then
          Applied(decided, StaysBlocked,
                  [Block(server, name, "TOOL_SCHEMA_INVALID: an invalid schema cannot be resumed")])
        else if verdict == "resume" || verdict == "warn" then
          Applied(pinned[key := PinnedTool(c.newHash, c.newTool, c.newSchema, "", "", c.risk, false, None)], Resumed,
                  [PolicyDecision(server, name, ActionFor(verdict), reason)])
        else if verdict == "quarantine" then
          Applied(decided, StaysBlocked, [PolicyDecision(server, name, "quarantine", reason)])
        else
          Applied(decided, StaysBlocked, [Block(server, name, reason)])
  }

  // ----- PrepareCall -----

  datatype Decision = Allowed(code: string, defHash: Hash, schema: Option<Json>) | Denied(denial: string)

  const UNREACHABLE_CODE := "WARN_CONTROL_PLANE_UNREACHABLE"

  /** `PrepareCall`: fail closed, except for a read-only change no verdict could be fetched for. */
  function Prepare(pinned: Pinned, server: string, name: string): Decision {
    var key := Key(server, name);
    if key !in pinned then Denied("TOOL_NOT_PINNED")
    else
      var p := pinned[key];
      if p.invalidDefinition != "" then Denied("TOOL_SCHEMA_INVALID")
      else if p.schemaError != "" then Denied("TOOL_SCHEMA_INVALID")
      else if p.pending.Some? && p.pending.value.schemaError != "" then Denied("TOOL_SCHEMA_INVALID")
      else if !p.suspended then Allowed("", p.defHash, p.schema)
      else if p.pending.Some? && !p.pending.value.verdictApplied && p.pending.value.unreachable
              && p.risk == READ_ONLY && p.pending.value.risk == READ_ONLY then
        Allowed(UNREACHABLE_CODE, p.pending.value.newHash, p.pending.value.newSchema)
      else Denied("TOOL_CONTRACT_CHANGED")
  }
}
