/**
 The session protocol read off its history: which calls are decided how, which verdicts take effect, and
 what each step writes to the audit log, without mentioning how pins are kept.
 */
module ProtocolHistory {
  import opened Wrappers
  import opened Json
  import opened Events
  import opened Pins
  import opened Protocol

  // ----- names -----

  predicate HasNul(s: string) {
    exists i | 0 <= i < |s| :: s[i] == '\U{0000}'
  }

  /** Servers without NUL in their names share no key; with one in it they can. */
  lemma {:induction false} KeysAreOneToOne(server: string, tool: string, other: string, otherTool: string)
    requires !HasNul(server) && !HasNul(other)
    ensures Key(server, tool) == Key(other, otherTool) <==> server == other && tool == otherTool
  {
    if Key(server, tool) == Key(other, otherTool) {
      NulComesFirst(server, tool, other, otherTool);
      NulComesFirst(other, otherTool, server, tool);
      var k := Key(server, tool);
      assert k[..|server|] == server && k[..|other|] == other;
      assert k[|server| + 1..] == tool && k[|other| + 1..] == otherTool;
    }
  }

  lemma NulComesFirst(server: string, tool: string, other: string, otherTool: string)
    requires Key(server, tool) == Key(other, otherTool) && !HasNul(other)
    ensures |server| >= |other|
  {
    var k := Key(server, tool);
    assert k[|server|] == '\U{0000}';
    assert forall i | 0 <= i < |other| :: k[i] == Key(other, otherTool)[i] == other[i];
  }

  lemma KeysCanCollide()
    ensures Key("a" + NUL + "b", "c") == Key("a", "b" + NUL + "c")
  {
  }

  // ----- what a definition claims -----

  /** The annotations hold this hint, and it is true. */
  predicate Claims(tool: Json, hint: string) {
    && tool.Obj? && Has(tool.fields, "annotations")
    && var ann := Lookup(tool.fields, "annotations").value;
       ann.Obj? && Lookup(ann.fields, hint) == Some(Bool(true))
  }

  /** Read-only if it claims so; else destructive if it claims that; side-effecting if it claims neither. */
  lemma RiskByClaims(tool: Json)
    ensures RiskClass(tool) == READ_ONLY <==> Claims(tool, "readOnlyHint")
    ensures RiskClass(tool) == DESTRUCTIVE <==> !Claims(tool, "readOnlyHint") && Claims(tool, "destructiveHint")
    ensures RiskClass(tool) in {READ_ONLY, DESTRUCTIVE, SIDE_EFFECTING}
  {
  }

  // ----- the history of a key -----

  predicate Rejects(step: Step, key: string) {
    step.RejectStep? && Key(step.rejectServer, step.rejectName) == key
  }

  /** What was advertised last: nothing yet, something that could not be hashed, or a definition. */
  function LastSeen(steps: seq<Step>, key: string): Option<Option<Hash>> {
    if steps == [] then None
    else
      var last := steps[|steps| - 1];
      if Observes(last, key) then Some(Some(last.defHash))
      else if Rejects(last, key) then Some(None)
      else LastSeen(steps[..|steps| - 1], key)
  }

  /** The contract in force: the first definition that compiles, then whatever a resume or warn verdict on
      the pending change put in its place. */
  function Contract(c: Compiler, steps: seq<Step>, key: string): Option<Hash> {
    if steps == [] then None
    else
      var front, last := steps[..|steps| - 1], steps[|steps| - 1];
      if last.DeliverStep? && Clears(Run(c, INIT, front), last, key, last.report.newHash) then Some(last.report.newHash)
      else if Contract(c, front, key).None? && Observes(last, key)
        && c(last.defHash).error == "" then Some(last.defHash)
      else Contract(c, front, key)
  }

  /** The definition advertised last, as it was when it was first advertised. */
  function ChangeTool(steps: seq<Step>, key: string): Json {
    if steps == [] then Null
    else
      var front, last := steps[..|steps| - 1], steps[|steps| - 1];
      if Observes(last, key) && LastSeen(front, key) != Some(Some(last.defHash)) then last.tool
      else ChangeTool(front, key)
  }

  /** The definition of the contract in force, as it was advertised. */
  function ContractTool(c: Compiler, steps: seq<Step>, key: string): Json {
    if steps == [] then Null
    else
      var front, last := steps[..|steps| - 1], steps[|steps| - 1];
      if last.DeliverStep? && Clears(Run(c, INIT, front), last, key, last.report.newHash) then ChangeTool(front, key)
      else if Contract(c, front, key).None? && Observes(last, key) && c(last.defHash).error == "" then last.tool
      else ContractTool(c, front, key)
  }

  /** The last thing heard about the pending change is that the control plane could not be reached. */
  function Unreached(c: Compiler, steps: seq<Step>, key: string): bool {
    if steps == [] then false
    else
      var front, last := steps[..|steps| - 1], steps[|steps| - 1];
      if Observes(last, key) || Rejects(last, key) then false
      else if last.DeliverStep? && last.report.key == key
        && Current(Run(c, INIT, front), last.report) then last.unreachable
      else Unreached(c, front, key)
  }

  // ----- the state holds that history -----

  lemma {:induction false} SeenIsKept(c: Compiler, steps: seq<Step>, key: string)
    ensures var s := Run(c, INIT, steps);
      LastSeen(steps, key) == if key in s.lastSeen then Some(s.lastSeen[key]) else None
  {
    if steps != [] {
      SeenIsKept(c, steps[..|steps| - 1], key);
    }
  }

  /** The hash pinned under the key, if it compiles. */
  function PinHash(pinned: Pinned, key: string): Option<Hash> {
    if key in pinned && pinned[key].schemaError == "" then Some(pinned[key].defHash) else None
  }

  /** The definition pinned under the key, if it compiles. */
  function PinTool(pinned: Pinned, key: string): Option<Json> {
    if PinHash(pinned, key).Some? then Some(pinned[key].tool) else None
  }

  /** Observing touches the pin of its own key only. */
  lemma ObserveElsewhere(pinned: Pinned, n: nat, server: string, name: string, tool: Json, h: Hash,
                         schema: Option<Json>, error: string, key: string)
    requires key != Key(server, name)
    ensures var after := Observe(pinned, n, server, name, tool, h, schema, error).pinned;
      (key in after <==> key in pinned) && (key in pinned ==> after[key] == pinned[key])
  {
  }

  /** What is pinned under the key itself: a definition that compiles takes the place of none. */
  lemma ObserveHere(pinned: Pinned, n: nat, server: string, name: string, tool: Json, h: Hash,
                    schema: Option<Json>, error: string, key: string)
    requires key == Key(server, name)
    ensures var after := Observe(pinned, n, server, name, tool, h, schema, error).pinned;
      var takes := PinHash(pinned, key).None? && error == "" && (key in pinned ==> pinned[key].defHash != h);
      && PinHash(after, key) == (if takes then Some(h) else PinHash(pinned, key))
      && PinTool(after, key) == (if takes then Some(tool) else PinTool(pinned, key))
  {
  }

  lemma ObservePinHash(pinned: Pinned, n: nat, server: string, name: string, tool: Json, h: Hash,
                       schema: Option<Json>, error: string, key: string)
    ensures var after := Observe(pinned, n, server, name, tool, h, schema, error).pinned;
      var takes := key == Key(server, name) && PinHash(pinned, key).None? && error == ""
                   && (key in pinned ==> pinned[key].defHash != h);
      && PinHash(after, key) == (if takes then Some(h) else PinHash(pinned, key))
      && PinTool(after, key) == (if takes then Some(tool) else PinTool(pinned, key))
  {
    if key == Key(server, name) {
      ObserveHere(pinned, n, server, name, tool, h, schema, error, key);
    } else {
      ObserveElsewhere(pinned, n, server, name, tool, h, schema, error, key);
    }
  }

  lemma ObserveMovesPin(c: Compiler, s: State, step: Step, key: string)
    requires Inv(c, s) && Enabled(s, step) && step.ObserveStep?
    ensures PinHash(Next(c, s, step).pinned, key)
         == if PinHash(s.pinned, key).None? && Observes(step, key)
           && c(step.defHash).error == "" then Some(step.defHash)
            else PinHash(s.pinned, key)
  {
    var h := step.defHash;
    ObservePinHash(s.pinned, s.nextChange, step.server, step.name, step.tool, h, c(h).schema, c(h).error, key);
    if Observes(step, key) && key in s.pinned {
      assert KeyOk(c, s, key);
    }
  }

  /** The verdict puts the pending change in the place of what is pinned. */
  predicate Replaces(pinned: Pinned, revision: nat, unreachable: bool, verdict: string, key: string) {
    && key in pinned && pinned[key].pending.Some? && pinned[key].pending.value.revision == revision
    && !pinned[key].pending.value.verdictApplied && pinned[key].pending.value.schemaError == ""
    && !unreachable && (verdict == "resume" || verdict == "warn")
  }

  lemma ApplyPinHash(pinned: Pinned, server: string, name: string, revision: nat, unreachable: bool, verdict: string,
                     reason: string, key: string)
    ensures PinHash(Apply(pinned, server, name, revision, unreachable, verdict, reason).pinned, key)
         == if key == Key(server, name) && Replaces(pinned, revision, unreachable, verdict, key)
            then Some(pinned[key].pending.value.newHash) else PinHash(pinned, key)
  {
  }

  /** What is known of a report in flight that matches the revision of the pending change. */
  lemma InFlightIsCurrent(c: Compiler, s: State, r: Report)
    requires Inv(c, s) && r in s.inFlight && r.key in s.pinned
    ensures Current(s, r) <==> s.pinned[r.key].pending.Some? && s.pinned[r.key].pending.value.revision == r.revision
    ensures Current(s, r) ==>
      var d := s.pinned[r.key].pending.value;
      && d.newHash == r.newHash && d.newSchema == c(d.newHash).schema && d.schemaError == "" == c(d.newHash).error
      && !d.verdictApplied && !d.unreachable && d.risk == RiskClass(d.newTool)
      && s.pinned[r.key].suspended && s.pinned[r.key].invalidDefinition == "" && s.pinned[r.key].schemaError == ""
      && s.pinned[r.key].risk == RiskClass(s.pinned[r.key].tool)
  {
    assert KeyOk(c, s, r.key);
    if s.pinned[r.key].pending.Some? && s.pinned[r.key].pending.value.revision == r.revision {
      MatchingReport(c, s, r, r.key);
    }
  }

  lemma DeliveryMovesPin(c: Compiler, s: State, step: Step, key: string)
    requires Inv(c, s) && Enabled(s, step) && step.DeliverStep?
    ensures PinHash(Next(c, s, step).pinned, key)
         == if Clears(s, step, key, step.report.newHash) then Some(step.report.newHash) else PinHash(s.pinned, key)
  {
    var r := step.report;
    ApplyPinHash(s.pinned, step.deliverServer, step.deliverName, r.revision, step.unreachable, step.verdict,
                 step.reason, key);
    if r.key in s.pinned {
      InFlightIsCurrent(c, s, r);
    }
  }

  lemma StepMovesPin(c: Compiler, s: State, step: Step, key: string)
    requires Inv(c, s) && Enabled(s, step)
    ensures PinHash(Next(c, s, step).pinned, key)
         == if step.DeliverStep? && Clears(s, step, key, step.report.newHash) then Some(step.report.newHash)
            else if PinHash(s.pinned, key).None? && Observes(step, key)
              && c(step.defHash).error == "" then Some(step.defHash)
            else PinHash(s.pinned, key)
  {
    match step
    case ObserveStep(_, _, _, _) => ObserveMovesPin(c, s, step, key);
    case DeliverStep(_, _, _, _, _, _) => DeliveryMovesPin(c, s, step, key);
    case RejectStep(_, _, _) =>
  }

  /** The pin that compiles is the contract in force. */
  lemma {:induction false} ContractIsPinned(c: Compiler, steps: seq<Step>, key: string)
    requires Possible(c, INIT, steps) && |steps| < REVISIONS
    ensures PinHash(Run(c, INIT, steps).pinned, key) == Contract(c, steps, key)
  {
    if steps != [] {
      var front, last := steps[..|steps| - 1], steps[|steps| - 1];
      ContractIsPinned(c, front, key);
      RunKeepsInv(c, front);
      StepMovesPin(c, Run(c, INIT, front), last, key);
    }
  }

  predicate MarkedUnreached(pinned: Pinned, key: string) {
    key in pinned && pinned[key].pending.Some? && pinned[key].pending.value.schemaError == ""
    && pinned[key].pending.value.unreachable && !pinned[key].pending.value.verdictApplied
  }

  lemma ObserveMarks(pinned: Pinned, n: nat, server: string, name: string, tool: Json, h: Hash,
                     schema: Option<Json>, error: string, key: string)
    requires key in pinned && pinned[key].defHash == h && error != "" ==> !MarkedUnreached(pinned, key)
    ensures MarkedUnreached(Observe(pinned, n, server, name, tool, h, schema, error).pinned, key)
       <==> key != Key(server, name) && MarkedUnreached(pinned, key)
  {
  }

  lemma ApplyMarks(pinned: Pinned, server: string, name: string, revision: nat, unreachable: bool, verdict: string,
                   reason: string, key: string)
    ensures MarkedUnreached(Apply(pinned, server, name, revision, unreachable, verdict, reason).pinned, key)
       <==> if key == Key(server, name) && key in pinned && pinned[key].pending.Some?
               && pinned[key].pending.value.revision == revision && !pinned[key].pending.value.verdictApplied
            then unreachable && pinned[key].pending.value.schemaError == "" else MarkedUnreached(pinned, key)
  {
  }

  lemma DeliveryMarks(c: Compiler, s: State, step: Step, key: string)
    requires Inv(c, s) && Enabled(s, step) && step.DeliverStep?
    ensures MarkedUnreached(Next(c, s, step).pinned, key)
       <==> if step.report.key == key && Current(s, step.report) then step.unreachable
            else MarkedUnreached(s.pinned, key)
  {
    var r := step.report;
    ApplyMarks(s.pinned, step.deliverServer, step.deliverName, r.revision, step.unreachable, step.verdict, step.reason,
               key);
    if r.key in s.pinned {
      InFlightIsCurrent(c, s, r);
    }
  }

  lemma StepMarks(c: Compiler, s: State, step: Step, key: string)
    requires Inv(c, s) && Enabled(s, step)
    ensures MarkedUnreached(Next(c, s, step).pinned, key)
       <==> if Observes(step, key) || Rejects(step, key) then false
            else if step.DeliverStep? && step.report.key == key && Current(s, step.report) then step.unreachable
            else MarkedUnreached(s.pinned, key)
  {
    match step
    case ObserveStep(server, name, tool, h) =>
      if key in s.pinned {
        assert KeyOk(c, s, key);
      }
      ObserveMarks(s.pinned, s.nextChange, server, name, tool, h, c(h).schema, c(h).error, key);
    case DeliverStep(_, _, _, _, _, _) => DeliveryMarks(c, s, step, key);
    case RejectStep(_, _, _) =>
  }

  /** The mark on the pending change is what was heard last. */
  lemma {:induction false} MarkIsKept(c: Compiler, steps: seq<Step>, key: string)
    requires Possible(c, INIT, steps) && |steps| < REVISIONS
    ensures MarkedUnreached(Run(c, INIT, steps).pinned, key) <==> Unreached(c, steps, key)
  {
    if steps != [] {
      var front, last := steps[..|steps| - 1], steps[|steps| - 1];
      MarkIsKept(c, front, key);
      RunKeepsInv(c, front);
      StepMarks(c, Run(c, INIT, front), last, key);
    }
  }

  // ----- the definitions held are those of the history -----

  /** The definition pending under the key, if the one pinned compiles. */
  function PendingTool(pinned: Pinned, key: string): Option<Json> {
    if PinHash(pinned, key).Some? && pinned[key].pending.Some? then Some(pinned[key].pending.value.newTool) else None
  }

  lemma ObservePendingHere(pinned: Pinned, n: nat, server: string, name: string, tool: Json, h: Hash,
                           schema: Option<Json>, error: string, key: string)
    requires key == Key(server, name)
    requires PinHash(pinned, key) == Some(h) ==> error == ""
    ensures var after := PendingTool(Observe(pinned, n, server, name, tool, h, schema, error).pinned, key);
      after.Some? ==>
        && PinHash(pinned, key).Some?
        && after == if PendingTool(pinned, key).Some? && pinned[key].pending.value.newHash == h
                    then PendingTool(pinned, key) else Some(tool)
  {
  }

  lemma ObservePending(c: Compiler, s: State, step: Step, key: string)
    requires Inv(c, s) && Enabled(s, step) && step.ObserveStep? && PendingTool(Next(c, s, step).pinned, key).Some?
    ensures PendingTool(Next(c, s, step).pinned, key)
         == if Observes(step, key) && (key in s.lastSeen ==> s.lastSeen[key] != Some(step.defHash)) then Some(step.tool)
            else PendingTool(s.pinned, key)
  {
    var h := step.defHash;
    if Observes(step, key) {
      if key in s.pinned {
        assert KeyOk(c, s, key);
      }
      ObservePendingHere(s.pinned, s.nextChange, step.server, step.name, step.tool, h, c(h).schema, c(h).error, key);
    } else {
      ObserveElsewhere(s.pinned, s.nextChange, step.server, step.name, step.tool, h, c(h).schema, c(h).error, key);
    }
  }

  lemma ApplyTools(pinned: Pinned, server: string, name: string, revision: nat, unreachable: bool, verdict: string,
                   reason: string, key: string)
    ensures var after := Apply(pinned, server, name, revision, unreachable, verdict, reason).pinned;
      && (PendingTool(after, key).Some? ==> PendingTool(after, key) == PendingTool(pinned, key))
      && PinTool(after, key)
         == if key == Key(server, name) && Replaces(pinned, revision, unreachable, verdict, key)
            then Some(pinned[key].pending.value.newTool) else PinTool(pinned, key)
  {
  }

  lemma DeliveryTools(c: Compiler, s: State, step: Step, key: string)
    requires Inv(c, s) && Enabled(s, step) && step.DeliverStep?
    ensures var after := Next(c, s, step).pinned;
      && (PendingTool(after, key).Some? ==> PendingTool(after, key) == PendingTool(s.pinned, key))
      && PinTool(after, key)
         == if Clears(s, step, key, step.report.newHash) then PendingTool(s.pinned, key) else PinTool(s.pinned, key)
  {
    var r := step.report;
    ApplyTools(s.pinned, step.deliverServer, step.deliverName, r.revision, step.unreachable, step.verdict, step.reason,
               key);
    if r.key in s.pinned {
      InFlightIsCurrent(c, s, r);
    }
  }

  lemma ObserveTools(c: Compiler, s: State, step: Step, key: string)
    requires Inv(c, s) && Enabled(s, step) && step.ObserveStep?
    ensures PinTool(Next(c, s, step).pinned, key)
         == if PinHash(s.pinned, key).None? && Observes(step, key) && c(step.defHash).error == "" then Some(step.tool)
            else PinTool(s.pinned, key)
  {
    var h := step.defHash;
    ObservePinHash(s.pinned, s.nextChange, step.server, step.name, step.tool, h, c(h).schema, c(h).error, key);
    if Observes(step, key) && key in s.pinned {
      assert KeyOk(c, s, key);
    }
  }

  /** A rejection leaves what is pinned, and drops what is pending. */
  lemma RejectTools(pinned: Pinned, server: string, name: string, reason: string, key: string)
    requires reason != ""
    ensures var after := Reject(pinned, server, name, reason);
      && PinTool(after, key) == PinTool(pinned, key)
      && (PendingTool(after, key).Some? ==> PendingTool(after, key) == PendingTool(pinned, key))
  {
  }

  lemma StepTools(c: Compiler, s: State, step: Step, key: string)
    requires Inv(c, s) && Enabled(s, step)
    ensures PinTool(Next(c, s, step).pinned, key)
         == if step.DeliverStep? && Clears(s, step, key, step.report.newHash) then PendingTool(s.pinned, key)
            else if PinHash(s.pinned, key).None? && Observes(step, key)
              && c(step.defHash).error == "" then Some(step.tool)
            else PinTool(s.pinned, key)
    ensures PendingTool(Next(c, s, step).pinned, key).Some? ==>
      PendingTool(Next(c, s, step).pinned, key)
      == if Observes(step, key) && (key in s.lastSeen ==> s.lastSeen[key] != Some(step.defHash)) then Some(step.tool)
         else PendingTool(s.pinned, key)
  {
    match step
    case ObserveStep(_, _, _, _) =>
      ObserveTools(c, s, step, key);
      if PendingTool(Next(c, s, step).pinned, key).Some? {
        ObservePending(c, s, step, key);
      }
    case DeliverStep(_, _, _, _, _, _) => DeliveryTools(c, s, step, key);
    case RejectStep(server, name, reason) => RejectTools(s.pinned, server, name, reason, key);
  }

  /** The definition of a compiling pin is the one of the contract, and the one pending on it that of the
      change. */
  predicate HoldsTools(c: Compiler, steps: seq<Step>, key: string, pinned: Pinned) {
    && (PinTool(pinned, key).Some? ==> PinTool(pinned, key) == Some(ContractTool(c, steps, key)))
    && (PendingTool(pinned, key).Some? ==> PendingTool(pinned, key) == Some(ChangeTool(steps, key)))
  }

  lemma ToolsFollow(c: Compiler, steps: seq<Step>, front: seq<Step>, last: Step, key: string, s: State, t: State)
    requires steps != [] && front == steps[..|steps| - 1] && last == steps[|steps| - 1]
    requires s == Run(c, INIT, front) && Inv(c, s) && Enabled(s, last) && HoldsTools(c, front, key, s.pinned)
    requires LastSeen(front, key) == if key in s.lastSeen then Some(s.lastSeen[key]) else None
    requires PinHash(s.pinned, key) == Contract(c, front, key) && t == Next(c, s, last)
    ensures HoldsTools(c, steps, key, t.pinned)
  {
    StepTools(c, s, last, key);
  }

  lemma ToolsSoFar(c: Compiler, steps: seq<Step>, key: string)
    requires Possible(c, INIT, steps) && |steps| < REVISIONS
    ensures var s := Run(c, INIT, steps);
      && Inv(c, s) && LastSeen(steps, key) == (if key in s.lastSeen then Some(s.lastSeen[key]) else None)
      && PinHash(s.pinned, key) == Contract(c, steps, key)
  {
    RunKeepsInv(c, steps);
    SeenIsKept(c, steps, key);
    ContractIsPinned(c, steps, key);
  }

  lemma {:induction false} ToolsAreKept(c: Compiler, steps: seq<Step>, key: string)
    requires Possible(c, INIT, steps) && |steps| < REVISIONS
    ensures HoldsTools(c, steps, key, Run(c, INIT, steps).pinned)
  {
    if steps != [] {
      var front, last := steps[..|steps| - 1], steps[|steps| - 1];
      var s := Run(c, INIT, front);
      ToolsAreKept(c, front, key);
      ToolsSoFar(c, front, key);
      ToolsFollow(c, steps, front, last, key, s, Next(c, s, last));
    }
  }

  // ----- which calls are decided how -----

  /** Both the definition of the contract and the one advertised in its place claim to be read-only. */
  predicate BothReadOnly(c: Compiler, steps: seq<Step>, key: string) {
    Claims(ContractTool(c, steps, key), "readOnlyHint") && Claims(ChangeTool(steps, key), "readOnlyHint")
  }

  /** The same of the definitions held. */
  predicate HeldReadOnly(s: State, key: string) {
    && key in s.pinned && s.pinned[key].pending.Some?
    && Claims(s.pinned[key].tool, "readOnlyHint") && Claims(s.pinned[key].pending.value.newTool, "readOnlyHint")
  }

  /** The decision on a call, by what was advertised last, the contract in force, and whether a change must
      be let through because nobody can be asked about it. */
  function Decide(c: Compiler, seen: Option<Option<Hash>>, contract: Option<Hash>, unasked: bool): Decision {
    match seen
    case None => Denied("TOOL_NOT_PINNED")
    case Some(None) => Denied("TOOL_SCHEMA_INVALID")
    case Some(Some(h)) =>
      if c(h).error != "" then Denied("TOOL_SCHEMA_INVALID")
      else if contract == Some(h) then Allowed("", h, c(h).schema)
      else if unasked then Allowed("WARN_CONTROL_PLANE_UNREACHABLE", h, c(h).schema)
      else Denied("TOOL_CONTRACT_CHANGED")
  }

  lemma PreparedAsDecided(c: Compiler, s: State, server: string, name: string, seen: Option<Option<Hash>>)
    requires Inv(c, s)
    requires var key := Key(server, name); seen == if key in s.lastSeen then Some(s.lastSeen[key]) else None
    requires var key := Key(server, name);
      key in s.pinned && s.pinned[key].schemaError != "" && s.lastSeen[key].Some? ==>
        c(s.lastSeen[key].value).error != ""
    ensures var key := Key(server, name);
      Prepare(s.pinned, server, name)
      == Decide(c, seen, PinHash(s.pinned, key), MarkedUnreached(s.pinned, key) && HeldReadOnly(s, key))
  {
    var key := Key(server, name);
    if key in s.pinned {
      assert KeyOk(c, s, key);
      var p := s.pinned[key];
      RiskByClaims(p.tool);
      if p.pending.Some? {
        RiskByClaims(p.pending.value.newTool);
      }
    }
  }

  /** Without a contract nothing that was ever observed compiles. */
  lemma LastOfNone(c: Compiler, steps: seq<Step>, key: string, h: Hash)
    requires Possible(c, INIT, steps) && |steps| < REVISIONS
    requires Contract(c, steps, key).None? && LastSeen(steps, key) == Some(Some(h))
    ensures c(h).error != ""
  {
    ContractIsPinned(c, steps, key);
    NoValidYet(c, steps, key);
    LastWasObserved(steps, key, h);
  }

  lemma {:induction false} LastWasObserved(steps: seq<Step>, key: string, h: Hash)
    requires LastSeen(steps, key) == Some(Some(h))
    ensures exists i | 0 <= i < |steps| :: Observes(steps[i], key) && steps[i].defHash == h
  {
    var front, last := steps[..|steps| - 1], steps[|steps| - 1];
    if !Observes(last, key) {
      LastWasObserved(front, key, h);
      var i :| 0 <= i < |front| && Observes(front[i], key) && front[i].defHash == h;
      assert Observes(steps[i], key) && steps[i].defHash == h;
    } else {
      assert Observes(steps[|steps| - 1], key);
    }
  }

  lemma HeldIsOfHistory(c: Compiler, steps: seq<Step>, key: string)
    requires Possible(c, INIT, steps) && |steps| < REVISIONS
    requires var pinned := Run(c, INIT, steps).pinned;
      key in pinned && pinned[key].pending.Some? && pinned[key].pending.value.schemaError == ""
    ensures HeldReadOnly(Run(c, INIT, steps), key) <==> BothReadOnly(c, steps, key)
  {
    RunKeepsInv(c, steps);
    ToolsAreKept(c, steps, key);
    assert KeyOk(c, Run(c, INIT, steps), key);
  }

  /** Over every run each call is decided exactly by the history: which definition was advertised last,
      whether it compiles, whether it is the contract in force, and if not, whether both claim to be
      read-only and the control plane was last found unreachable about the change. */
  lemma CallsAreDecidedByHistory(c: Compiler, steps: seq<Step>, server: string, name: string)
    requires Possible(c, INIT, steps) && |steps| < REVISIONS
    ensures var s, key := Run(c, INIT, steps), Key(server, name);
      Prepare(s.pinned, server, name)
      == Decide(c, LastSeen(steps, key), Contract(c, steps, key), Unreached(c, steps, key)
                && BothReadOnly(c, steps, key))
  {
    var s, key := Run(c, INIT, steps), Key(server, name);
    RunKeepsInv(c, steps);
    SeenIsKept(c, steps, key);
    ContractIsPinned(c, steps, key);
    MarkIsKept(c, steps, key);
    assert s.lastSeen.Keys == s.pinned.Keys;
    if key in s.pinned && s.pinned[key].schemaError != "" && s.lastSeen[key].Some? {
      LastOfNone(c, steps, key, s.lastSeen[key].value);
    }
    if MarkedUnreached(s.pinned, key) {
      HeldIsOfHistory(c, steps, key);
    }
    PreparedAsDecided(c, s, server, name, LastSeen(steps, key));
  }

  // ----- which verdicts take effect -----

  /** Over every run, a verdict on the current report takes effect at once: resume and warn put the new
      definition in force, every other verdict leaves the tool denied; and each is written to the log. */
  lemma VerdictsTakeEffect(c: Compiler, steps: seq<Step>, server: string, name: string, r: Report, verdict: string,
                           reason: string)
    requires Possible(c, INIT, steps) && |steps| < REVISIONS
    requires r in Run(c, INIT, steps).inFlight && r.key == Key(server, name) && Current(Run(c, INIT, steps), r)
    ensures var a := Apply(Run(c, INIT, steps).pinned, server, name, r.revision, false, verdict, reason);
      && Prepare(a.pinned, server, name)
         == (if verdict in {"resume", "warn"} then Allowed("", r.newHash, c(r.newHash).schema)
             else Denied("TOOL_CONTRACT_CHANGED"))
      && a.bodies
         == [PolicyDecision(server, name,
                            if verdict == "resume" then "allow" else if verdict == "warn" then "warn"
                            else if verdict == "quarantine" then "quarantine" else "block", reason)]
  {
    RunKeepsInv(c, steps);
    InFlightIsCurrent(c, Run(c, INIT, steps), r);
  }

  /** If instead the control plane cannot be reached, calls go through under the new definition exactly if
      both claim to be read-only, and nothing is written. */
  lemma UnreachableLetsReadersThrough(c: Compiler, steps: seq<Step>, server: string, name: string, r: Report,
                                      verdict: string, reason: string)
    requires Possible(c, INIT, steps) && |steps| < REVISIONS
    requires r in Run(c, INIT, steps).inFlight && r.key == Key(server, name) && Current(Run(c, INIT, steps), r)
    ensures var s := Run(c, INIT, steps);
      var a := Apply(s.pinned, server, name, r.revision, true, verdict, reason);
      && Prepare(a.pinned, server, name)
         == (if BothReadOnly(c, steps, r.key) then Allowed("WARN_CONTROL_PLANE_UNREACHABLE", r.newHash,
                                                           c(r.newHash).schema)
             else Denied("TOOL_CONTRACT_CHANGED"))
      && a.bodies == []
  {
    RunKeepsInv(c, steps);
    var s := Run(c, INIT, steps);
    InFlightIsCurrent(c, s, r);
    HeldIsOfHistory(c, steps, r.key);
    RiskByClaims(s.pinned[r.key].tool);
    RiskByClaims(s.pinned[r.key].pending.value.newTool);
  }

  // ----- what is written to the log -----

  /** The definition is pinned already, or is the change that is pending. */
  predicate Known(s: State, key: string, h: Hash) {
    key in s.pinned &&
    (s.pinned[key].defHash == h || (s.pinned[key].pending.Some? && s.pinned[key].pending.value.newHash == h))
  }

  /** The text of a block: the schema error, or the two hashes. */
  function BlockReason(c: Compiler, s: State, key: string, h: Hash): string {
    if c(h).error != "" then "TOOL_SCHEMA_INVALID: " + c(h).error
    else "TOOL_CONTRACT_CHANGED: def_hash " + (if key in s.pinned then s.pinned[key].defHash else "") + " -> " + h
         + "; suspended pending control-plane classification"
  }

  /** Observing a definition writes it down exactly if it is not known yet, followed by a block exactly if
      calls are denied from then on; a known one is followed by a resume exactly if it is the contract and
      calls were not allowed under it before. */
  lemma ObservationsAreWritten(c: Compiler, steps: seq<Step>, server: string, name: string, tool: Json, h: Hash)
    requires Possible(c, INIT, steps) && |steps| < REVISIONS && h != ""
    ensures var s, key := Run(c, INIT, steps), Key(server, name);
      var o := Observe(s.pinned, s.nextChange, server, name, tool, h, c(h).schema, c(h).error);
      var before, now := Prepare(s.pinned, server, name), Prepare(o.pinned, server, name);
      o.bodies
      == if !Known(s, key, h) then
           [ToolDefinition(server, tool, h)]
           + (if now.Denied? then [PolicyDecision(server, name, "block", BlockReason(c, s, key, h))] else [])
         else if now == Allowed("", h, c(h).schema) && before != now then
           [PolicyDecision(server, name, "resume", "previously pinned definition restored after blocked change")]
         else []
  {
    RunKeepsInv(c, steps);
    ObservationWrites(c, Run(c, INIT, steps), server, name, tool, h);
  }

  lemma FirstSightWrites(c: Compiler, s: State, server: string, name: string, tool: Json, h: Hash)
    requires Key(server, name) !in s.pinned
    ensures var key := Key(server, name);
      var o := Observe(s.pinned, s.nextChange, server, name, tool, h, c(h).schema, c(h).error);
      && Prepare(o.pinned, server, name).Denied? == (c(h).error != "")
      && o.bodies == [ToolDefinition(server, tool, h)]
           + (if c(h).error != "" then [PolicyDecision(server, name, "block", BlockReason(c, s, key, h))] else [])
  {
  }

  /** A definition that is new for a pinned tool either corrects an invalid first pin or suspends the tool. */
  lemma NewDefinitionWrites(c: Compiler, s: State, server: string, name: string, tool: Json, h: Hash)
    requires Key(server, name) in s.pinned && !Known(s, Key(server, name), h)
    ensures var key := Key(server, name);
      var o := Observe(s.pinned, s.nextChange, server, name, tool, h, c(h).schema, c(h).error);
      var corrects := s.pinned[key].schemaError != "" && c(h).error == "";
      && Prepare(o.pinned, server, name).Denied? == !corrects
      && o.bodies == [ToolDefinition(server, tool, h)]
           + (if corrects then [] else [PolicyDecision(server, name, "block", BlockReason(c, s, key, h))])
  {
  }

  /** The contract again writes a resume exactly if it was not what calls were allowed under. */
  lemma SameDefinitionWrites(c: Compiler, s: State, server: string, name: string, tool: Json, h: Hash)
    requires Inv(c, s) && Key(server, name) in s.pinned && s.pinned[Key(server, name)].defHash == h != ""
    ensures var o := Observe(s.pinned, s.nextChange, server, name, tool, h, c(h).schema, c(h).error);
      var before, now := Prepare(s.pinned, server, name), Prepare(o.pinned, server, name);
      o.bodies
      == if now == Allowed("", h, c(h).schema) && before != now then
           [PolicyDecision(server, name, "resume", "previously pinned definition restored after blocked change")]
         else []
  {
    assert KeyOk(c, s, Key(server, name));
  }

  /** The pending change again writes nothing, and is not what calls are allowed under without a warning. */
  lemma SameChangeWrites(c: Compiler, s: State, server: string, name: string, tool: Json, h: Hash)
    requires Inv(c, s) && Key(server, name) in s.pinned && s.pinned[Key(server, name)].defHash != h
    requires Known(s, Key(server, name), h)
    ensures var o := Observe(s.pinned, s.nextChange, server, name, tool, h, c(h).schema, c(h).error);
      o.bodies == [] && Prepare(o.pinned, server, name) != Allowed("", h, c(h).schema)
  {
    assert KeyOk(c, s, Key(server, name));
  }

  lemma ObservationWrites(c: Compiler, s: State, server: string, name: string, tool: Json, h: Hash)
    requires Inv(c, s) && h != ""
    ensures var key := Key(server, name);
      var o := Observe(s.pinned, s.nextChange, server, name, tool, h, c(h).schema, c(h).error);
      var before, now := Prepare(s.pinned, server, name), Prepare(o.pinned, server, name);
      o.bodies
      == if !Known(s, key, h) then
           [ToolDefinition(server, tool, h)]
           + (if now.Denied? then [PolicyDecision(server, name, "block", BlockReason(c, s, key, h))] else [])
         else if now == Allowed("", h, c(h).schema) && before != now then
           [PolicyDecision(server, name, "resume", "previously pinned definition restored after blocked change")]
         else []
  {
    var key := Key(server, name);
    if key !in s.pinned {
      FirstSightWrites(c, s, server, name, tool, h);
    } else if !Known(s, key, h) {
      NewDefinitionWrites(c, s, server, name, tool, h);
    } else if s.pinned[key].defHash == h {
      SameDefinitionWrites(c, s, server, name, tool, h);
    } else {
      SameChangeWrites(c, s, server, name, tool, h);
    }
  }

  /** A rejected definition is denied at once and written down as a block. */
  lemma RejectionsAreWritten(pinned: Pinned, server: string, name: string, reason: string)
    requires reason != ""
    ensures Prepare(Reject(pinned, server, name, reason), server, name) == Denied("TOOL_SCHEMA_INVALID")
    ensures RejectBody(server, name, reason)
         == PolicyDecision(server, name, "block", "TOOL_SCHEMA_INVALID: " + reason)
  {
  }
}
