/**
 How the gateway drives a session through one tools/list response, and why a list it exposes can be
 called.  Between any two tools of the list other goroutines may use the same session: verdicts of
 earlier reports arrive, and a background re-listing may observe or reject definitions.
 */
module Gateway {
  import opened Wrappers
  import opened Json
  import opened Events
  import opened Pins
  import opened Protocol
  import opened EventLog
  import Session

  /** The canonical hash with its error text, schema compilation, and the quarantine snapshot read when
      the i-th tool of the list is checked. */
  datatype Env = Env(toolHash: Json -> Option<Hash>, hashError: Json -> string, compile: Compiler,
                     quarantined: nat -> bool)

  /** Why a list is withheld. */
  datatype Block = ListInvalid | SchemaInvalid(tool: string) | Quarantined(tool: string) | ContractChanged(tool: string)

  /** A decoded tools/list answer. */
  datatype Response = Undecodable | UpstreamError | Tools(tools: seq<Json>)

  function NameOf(tool: Json): string {
    if tool.Obj? && Get(tool, "name").Str? then Get(tool, "name").s else ""
  }

  predicate HasObjectSchema(tool: Json) {
    tool.Obj? && Get(tool, "inputSchema").Obj?
  }

  const DUPLICATE := "duplicate tool name in tools/list"
  const NO_OBJECT := "inputSchema must be a JSON object"

  function HashReason(env: Env, tool: Json): string {
    "definition cannot be hashed: " + env.hashError(tool)
  }

  /** What `observeTool` does to the session, as a step of the protocol (none for a nameless tool). */
  function ToolStep(env: Env, server: string, tool: Json): Option<Step> {
    var name := NameOf(tool);
    if name == "" then None
    else if env.toolHash(tool).None? then Some(RejectStep(server, name, HashReason(env, tool)))
    else if !HasObjectSchema(tool) then Some(RejectStep(server, name, NO_OBJECT))
    else Some(ObserveStep(server, name, tool, env.toolHash(tool).value))
  }

  /** The outcome `observeTool` returns. */
  function ToolOutcome(env: Env, s: State, server: string, tool: Json): Outcome {
    var step := ToolStep(env, server, tool);
    if step.Some? && step.value.ObserveStep? then
      var h := step.value.defHash;
      Observe(s.pinned, s.nextChange, server, NameOf(tool), tool, h, env.compile(h).schema,
              env.compile(h).error).outcome
    else Outcome(ActInvalid, 0, "", "")
  }

  /** The change reports `observeTool` hands to a background goroutine: one or none. */
  function ReportsFor(server: string, name: string, o: Outcome): seq<Report> {
    if o.action == ActMismatch || o.action == ActRetry then
      [Report(Key(server, name), o.revision, o.oldHash, o.newHash)]
    else []
  }

  function BlockFor(a: Action, name: string): Option<Block> {
    match a
    case ActInvalid => Some(SchemaInvalid(name))
    case ActMismatch => Some(ContractChanged(name))
    case ActPending => Some(ContractChanged(name))
    case ActRetry => Some(ContractChanged(name))
    case _ => None
  }

  /** The loop variables of `observeListResponse`. */
  datatype Scan = Scan(state: State, seen: set<string>, blocked: Option<Block>, reports: seq<Report>)

  /** One turn of the loop over the listed tools. */
  function ScanTool(env: Env, server: string, sc: Scan, i: nat, tool: Json): Scan {
    var name := NameOf(tool);
    if name in sc.seen then
      Scan(Next(env.compile, sc.state, RejectStep(server, name, DUPLICATE)), sc.seen, Some(ListInvalid), sc.reports)
    else if name != "" && env.quarantined(i) then
      Scan(sc.state, sc.seen + {name}, Some(Quarantined(name)), sc.reports)
    else
      var step := ToolStep(env, server, tool);
      Scan(if step.Some? then Next(env.compile, sc.state, step.value) else sc.state,
           sc.seen + {name},
           if sc.blocked.Some? then sc.blocked else BlockFor(ToolOutcome(env, sc.state, server, tool).action, name),
           sc.reports + ReportsFor(server, name, ToolOutcome(env, sc.state, server, tool)))
  }

  /** The scan of the first `n` tools, with what others do to the session after each of them. */
  function ScanList(env: Env, server: string, s: State, tools: seq<Json>, late: nat -> seq<Step>, n: nat): Scan
    requires n <= |tools|
    decreases n
  {
    if n == 0 then Scan(s, {}, None, [])
    else
      var sc := ScanTool(env, server, ScanList(env, server, s, tools, late, n - 1), n - 1, tools[n - 1]);
      sc.(state := Run(env.compile, sc.state, late(n - 1)))
  }

  /** The session key a step is about. */
  function StepKey(step: Step): string {
    match step
    case ObserveStep(server, name, _, _) => Key(server, name)
    case RejectStep(server, name, _) => Key(server, name)
    case DeliverStep(server, name, _, _, _, _) => Key(server, name)
  }

  /** A step that leaves the first `n` listed tools as they were listed: a verdict, a definition of
      another tool, or the listed definition again. */
  predicate Harmless(env: Env, server: string, tools: seq<Json>, n: nat, step: Step)
    requires n <= |tools|
  {
    step.DeliverStep? ||
    forall j: nat | j < n && StepKey(step) == Key(server, NameOf(tools[j])) ::
      step.ObserveStep? && env.toolHash(tools[j]) == Some(step.defHash)
  }

  /** After tool `n`, others take possible steps that are harmless to the tools listed so far. */
  ghost predicate LateOk(env: Env, server: string, s: State, tools: seq<Json>, late: nat -> seq<Step>, n: nat)
    requires n < |tools|
  {
    && (forall i | 0 <= i < |late(n)| :: Harmless(env, server, tools, n + 1, late(n)[i]))
    && Possible(env.compile, ScanTool(env, server, ScanList(env, server, s, tools, late, n), n, tools[n]).state,
                late(n))
  }

  ghost predicate HarmlessLate(env: Env, server: string, s: State, tools: seq<Json>, late: nat -> seq<Step>) {
    forall n: nat | n < |tools| :: LateOk(env, server, s, tools, late, n)
  }

  /** How many steps others take during the scan of the first `n` tools. */
  function LateCount(late: nat -> seq<Step>, n: nat): nat {
    if n == 0 then 0 else LateCount(late, n - 1) + |late(n - 1)|
  }

  lemma {:induction false} LateCountGrows(late: nat -> seq<Step>, m: nat, n: nat)
    requires m <= n
    ensures LateCount(late, m) <= LateCount(late, n)
  {
    if m < n {
      LateCountGrows(late, m, n - 1);
    }
  }

  // ----- a callable pin survives harmless steps -----

  /** The tool is pinned to `h`, with nothing outstanding. */
  predicate Callable(s: State, key: string, h: Hash) {
    && key in s.pinned && s.pinned[key].defHash == h
    && !s.pinned[key].suspended && s.pinned[key].pending.None?
  }

  lemma DeliveryKeepsCallable(c: Compiler, s: State, step: Step, key: string, h: Hash)
    requires step.DeliverStep? && Callable(s, key, h)
    ensures Callable(Next(c, s, step), key, h)
    ensures Next(c, s, step).nextChange == s.nextChange && Next(c, s, step).lastSeen == s.lastSeen
  {
  }

  /** Tool `j` was last seen as listed. */
  predicate SeenAsListed(env: Env, server: string, s: State, tool: Json) {
    var key := Key(server, NameOf(tool));
    key in s.lastSeen && env.toolHash(tool).Some? && s.lastSeen[key] == Some(env.toolHash(tool).value)
  }

  predicate CallableAsListed(env: Env, server: string, s: State, tool: Json) {
    env.toolHash(tool).Some? && Callable(s, Key(server, NameOf(tool)), env.toolHash(tool).value)
  }

  lemma SameAgainKeepsCallable(c: Compiler, s: State, step: Step, h: Hash)
    requires step.ObserveStep? && step.defHash == h && Callable(s, StepKey(step), h)
    ensures Callable(Next(c, s, step), StepKey(step), h)
  {
  }

  lemma HarmlessKeeps(env: Env, server: string, tools: seq<Json>, n: nat, s: State, step: Step, j: nat)
    requires j < n <= |tools| && Harmless(env, server, tools, n, step)
    ensures var t := Next(env.compile, s, step);
      && (CallableAsListed(env, server, s, tools[j]) ==> CallableAsListed(env, server, t, tools[j]))
      && (SeenAsListed(env, server, s, tools[j]) ==> SeenAsListed(env, server, t, tools[j]))
  {
    var key := Key(server, NameOf(tools[j]));
    if env.toolHash(tools[j]).Some? {
      var h := env.toolHash(tools[j]).value;
      if step.DeliverStep? {
        if Callable(s, key, h) {
          DeliveryKeepsCallable(env.compile, s, step, key, h);
        }
      } else if StepKey(step) != key {
        OtherToolsKeep(env.compile, s, step, key, h);
      } else if Callable(s, key, h) {
        SameAgainKeepsCallable(env.compile, s, step, h);
      }
    }
  }

  /** What the steps taken between two tools leave alone. */
  lemma {:induction false} LateKeeps(env: Env, server: string, tools: seq<Json>, n: nat, s: State, steps: seq<Step>)
    requires n <= |tools| && Inv(env.compile, s) && s.nextChange + |steps| + 1 < REVISIONS
    requires Possible(env.compile, s, steps)
    requires forall i | 0 <= i < |steps| :: Harmless(env, server, tools, n, steps[i])
    ensures var t := Run(env.compile, s, steps);
      && Inv(env.compile, t) && t.nextChange <= s.nextChange + |steps|
      && (forall j: nat | j < n ::
            && (CallableAsListed(env, server, s, tools[j]) ==> CallableAsListed(env, server, t, tools[j]))
            && (SeenAsListed(env, server, s, tools[j]) ==> SeenAsListed(env, server, t, tools[j])))
  {
    if steps != [] {
      var front, last := steps[..|steps| - 1], steps[|steps| - 1];
      LateKeeps(env, server, tools, n, s, front);
      var m := Run(env.compile, s, front);
      StepKeepsInv(env.compile, m, last);
      RevisionsGrowByOne(env.compile, m, last);
      forall j: nat | j < n
        ensures CallableAsListed(env, server, s, tools[j]) ==>
          CallableAsListed(env, server, Run(env.compile, s, steps), tools[j])
        ensures SeenAsListed(env, server, s, tools[j]) ==>
          SeenAsListed(env, server, Run(env.compile, s, steps), tools[j])
      {
        HarmlessKeeps(env, server, tools, n, m, last, j);
      }
    }
  }

  /** Steps that are not harmless withdraw the tool: it is denied from then on. */
  lemma HarmfulStepWithdraws(c: Compiler, s: State, step: Step, server: string, name: string, h: Hash)
    requires Inv(c, s) && Callable(s, Key(server, name), h)
    requires StepKey(step) == Key(server, name) && Enabled(s, step)
    requires step.RejectStep? || (step.ObserveStep? && step.defHash != h)
    ensures Prepare(Next(c, s, step).pinned, server, name).Denied?
  {
    assert KeyOk(c, s, Key(server, name));
  }

  lemma OtherToolsKeep(c: Compiler, s: State, step: Step, key: string, h: Hash)
    requires step.ObserveStep? ==> Key(step.server, step.name) != key
    requires step.RejectStep? ==> Key(step.rejectServer, step.rejectName) != key
    requires !step.DeliverStep?
    ensures Callable(s, key, h) ==> Callable(Next(c, s, step), key, h)
    ensures key in s.lastSeen ==> key in Next(c, s, step).lastSeen && Next(c, s, step).lastSeen[key] == s.lastSeen[key]
  {
  }

  /** Names on one server have different keys. */
  lemma KeysDiffer(server: string, a: string, b: string)
    requires a != b
    ensures Key(server, a) != Key(server, b)
  {
    assert Key(server, a)[|server| + 1..] == a && Key(server, b)[|server| + 1..] == b;
  }

  /** An observation that does not block the list leaves a pin with that hash, not suspended. */
  lemma UnblockedNotSuspended(pinned: Pinned, n: nat, server: string, name: string, tool: Json,
                              h: Hash, schema: Option<Json>, error: string)
    requires var a := Observe(pinned, n, server, name, tool, h, schema, error).outcome.action;
             a == ActPinned || a == ActUnchanged
    ensures var o, key := Observe(pinned, n, server, name, tool, h, schema, error), Key(server, name);
            key in o.pinned && o.pinned[key].defHash == h && !o.pinned[key].suspended
  {
  }

  lemma UnblockedIsCallable(c: Compiler, s: State, server: string, name: string, tool: Json, h: Hash)
    requires Inv(c, ObserveNext(c, s, server, name, tool, h))
    requires var a := Observe(s.pinned, s.nextChange, server, name, tool, h, c(h).schema, c(h).error).outcome.action;
             a == ActPinned || a == ActUnchanged
    ensures Callable(ObserveNext(c, s, server, name, tool, h), Key(server, name), h)
  {
    UnblockedNotSuspended(s.pinned, s.nextChange, server, name, tool, h, c(h).schema, c(h).error);
    assert KeyOk(c, ObserveNext(c, s, server, name, tool, h), Key(server, name));
  }

  lemma CallableIsAllowed(c: Compiler, s: State, server: string, name: string, h: Hash)
    requires Inv(c, s) && Callable(s, Key(server, name), h)
    ensures Prepare(s.pinned, server, name) == Allowed("", h, c(h).schema)
  {
    assert KeyOk(c, s, Key(server, name));
  }

  // ----- the scan -----

  /** What holds for tool `j` while nothing has blocked the list. */
  ghost predicate Listed(env: Env, server: string, sc: Scan, j: nat, tool: Json) {
    && NameOf(tool) != "" && !env.quarantined(j) && NameOf(tool) in sc.seen
    && CallableAsListed(env, server, sc.state, tool)
  }

  ghost predicate ScanOk(env: Env, server: string, sc: Scan, tools: seq<Json>, n: nat)
    requires n <= |tools|
  {
    && Inv(env.compile, sc.state)
    && (forall j: nat | j < n :: NameOf(tools[j]) in sc.seen)
    && (sc.blocked.None? ==> forall j: nat | j < n :: Listed(env, server, sc, j, tools[j]))
    && (sc.blocked.None? ==> forall i: nat, j: nat | i < j < n :: NameOf(tools[i]) != NameOf(tools[j]))
  }

  ghost predicate GoodHashes(env: Env) {
    forall t: Json :: env.toolHash(t).Some? ==> env.toolHash(t).value != ""
  }

  lemma ToolStepKeepsInv(env: Env, server: string, s: State, tool: Json)
    requires GoodHashes(env) && Inv(env.compile, s) && s.nextChange + 1 < REVISIONS
    ensures var step := ToolStep(env, server, tool);
            step.Some? ==>
              && Inv(env.compile, Next(env.compile, s, step.value))
              && Next(env.compile, s, step.value).nextChange <= s.nextChange + 1
  {
    var step := ToolStep(env, server, tool);
    if step.Some? {
      StepKeepsInv(env.compile, s, step.value);
      RevisionsGrowByOne(env.compile, s, step.value);
    }
  }

  lemma ScanToolInv(env: Env, server: string, sc: Scan, i: nat, tool: Json)
    requires GoodHashes(env) && Inv(env.compile, sc.state) && sc.state.nextChange + 1 < REVISIONS
    ensures Inv(env.compile, ScanTool(env, server, sc, i, tool).state)
    ensures ScanTool(env, server, sc, i, tool).state.nextChange <= sc.state.nextChange + 1
  {
    ToolStepKeepsInv(env, server, sc.state, tool);
    if NameOf(tool) in sc.seen {
      var step := RejectStep(server, NameOf(tool), DUPLICATE);
      StepKeepsInv(env.compile, sc.state, step);
      RevisionsGrowByOne(env.compile, sc.state, step);
    }
  }

  /** A turn that leaves the list unblocked observed its tool. */
  lemma UnblockedTurn(env: Env, server: string, sc: Scan, n: nat, tool: Json)
    requires ScanTool(env, server, sc, n, tool).blocked.None?
    ensures NameOf(tool) != "" && NameOf(tool) !in sc.seen && sc.blocked.None? && !env.quarantined(n)
    ensures env.toolHash(tool).Some? && HasObjectSchema(tool)
    ensures var h := env.toolHash(tool).value;
      var a := Observe(sc.state.pinned, sc.state.nextChange, server, NameOf(tool), tool, h, env.compile(h).schema,
                       env.compile(h).error).outcome.action;
      && (a == ActPinned || a == ActUnchanged)
      && ScanTool(env, server, sc, n, tool)
        == Scan(ObserveNext(env.compile, sc.state, server, NameOf(tool), tool, h), sc.seen + {NameOf(tool)}, None,
                sc.reports)
  {
    var a := ToolOutcome(env, sc.state, server, tool).action;
    assert a == ActPinned || a == ActUnchanged;
    assert sc.reports + [] == sc.reports;
  }

  /** The tool of a turn that leaves the list unblocked. */
  lemma TurnLists(env: Env, server: string, sc: Scan, n: nat, tool: Json)
    requires GoodHashes(env) && Inv(env.compile, sc.state) && sc.state.nextChange + 1 < REVISIONS
    requires ScanTool(env, server, sc, n, tool).blocked.None?
    ensures Listed(env, server, ScanTool(env, server, sc, n, tool), n, tool) && NameOf(tool) !in sc.seen
      && sc.blocked.None?
  {
    ScanToolInv(env, server, sc, n, tool);
    UnblockedTurn(env, server, sc, n, tool);
    UnblockedIsCallable(env.compile, sc.state, server, NameOf(tool), tool, env.toolHash(tool).value);
  }

  /** The tools listed before it. */
  lemma TurnKeepsListed(env: Env, server: string, sc: Scan, n: nat, tool: Json, j: nat, other: Json)
    requires ScanTool(env, server, sc, n, tool).blocked.None?
    requires Listed(env, server, sc, j, other) && NameOf(other) != NameOf(tool)
    ensures Listed(env, server, ScanTool(env, server, sc, n, tool), j, other)
  {
    KeysDiffer(server, NameOf(other), NameOf(tool));
    UnblockedTurn(env, server, sc, n, tool);
    OtherToolsKeep(env.compile, sc.state, ToolStep(env, server, tool).value, Key(server, NameOf(other)),
                   env.toolHash(other).value);
  }

  lemma SeenGrows(env: Env, server: string, sc: Scan, n: nat, tool: Json)
    ensures ScanTool(env, server, sc, n, tool).seen == sc.seen + {NameOf(tool)}
    ensures ScanTool(env, server, sc, n, tool).blocked.None? ==> sc.blocked.None?
  {
  }

  /** A turn that leaves the list unblocked lists its tool and keeps the others callable. */
  lemma ScanToolOk(env: Env, server: string, sc: Scan, tools: seq<Json>, n: nat)
    requires GoodHashes(env) && n < |tools| && ScanOk(env, server, sc, tools, n) && sc.state.nextChange + 1 < REVISIONS
    ensures ScanOk(env, server, ScanTool(env, server, sc, n, tools[n]), tools, n + 1)
  {
    ScanToolInv(env, server, sc, n, tools[n]);
    NamesGrow(env, server, sc, tools, n);
    if ScanTool(env, server, sc, n, tools[n]).blocked.None? {
      ListingGrows(env, server, sc, tools, n);
    }
  }

  lemma NamesGrow(env: Env, server: string, sc: Scan, tools: seq<Json>, n: nat)
    requires n < |tools| && forall j: nat | j < n :: NameOf(tools[j]) in sc.seen
    ensures forall j: nat | j < n + 1 :: NameOf(tools[j]) in ScanTool(env, server, sc, n, tools[n]).seen
  {
    SeenGrows(env, server, sc, n, tools[n]);
  }

  lemma ListingGrows(env: Env, server: string, sc: Scan, tools: seq<Json>, n: nat)
    requires GoodHashes(env) && n < |tools| && ScanOk(env, server, sc, tools, n) && sc.state.nextChange + 1 < REVISIONS
    requires ScanTool(env, server, sc, n, tools[n]).blocked.None?
    ensures forall j: nat | j < n + 1 :: Listed(env, server, ScanTool(env, server, sc, n, tools[n]), j, tools[j])
    ensures forall i: nat, j: nat | i < j < n + 1 :: NameOf(tools[i]) != NameOf(tools[j])
  {
    TurnLists(env, server, sc, n, tools[n]);
    forall j: nat | j < n + 1 ensures Listed(env, server, ScanTool(env, server, sc, n, tools[n]), j, tools[j]) {
      if j < n {
        OtherStaysListed(env, server, sc, tools, n, j);
      }
    }
    NamesStayDistinct(env, server, sc, tools, n);
  }

  lemma NamesStayDistinct(env: Env, server: string, sc: Scan, tools: seq<Json>, n: nat)
    requires n < |tools| && ScanOk(env, server, sc, tools, n) && sc.blocked.None? && NameOf(tools[n]) !in sc.seen
    ensures forall i: nat, j: nat | i < j < n + 1 :: NameOf(tools[i]) != NameOf(tools[j])
  {
  }

  lemma OtherStaysListed(env: Env, server: string, sc: Scan, tools: seq<Json>, n: nat, j: nat)
    requires j < n < |tools| && ScanOk(env, server, sc, tools, n)
    requires ScanTool(env, server, sc, n, tools[n]).blocked.None?
    requires sc.blocked.None? && NameOf(tools[n]) !in sc.seen
    ensures Listed(env, server, ScanTool(env, server, sc, n, tools[n]), j, tools[j])
  {
    assert Listed(env, server, sc, j, tools[j]);
    TurnKeepsListed(env, server, sc, n, tools[n], j, tools[j]);
  }

  lemma LateKeepsScan(env: Env, server: string, sc: Scan, tools: seq<Json>, n: nat, steps: seq<Step>)
    requires n <= |tools| && ScanOk(env, server, sc, tools, n) && sc.state.nextChange + |steps| + 1 < REVISIONS
    requires Possible(env.compile, sc.state, steps)
    requires forall i | 0 <= i < |steps| :: Harmless(env, server, tools, n, steps[i])
    ensures ScanOk(env, server, sc.(state := Run(env.compile, sc.state, steps)), tools, n)
    ensures Run(env.compile, sc.state, steps).nextChange <= sc.state.nextChange + |steps|
  {
    LateKeeps(env, server, tools, n, sc.state, steps);
    var t := sc.(state := Run(env.compile, sc.state, steps));
    if t.blocked.None? {
      forall j: nat | j < n ensures Listed(env, server, t, j, tools[j]) {
        assert Listed(env, server, sc, j, tools[j]);
      }
    }
  }

  /** One turn with the steps after it. */
  lemma TurnOk(env: Env, server: string, s: State, tools: seq<Json>, late: nat -> seq<Step>, n: nat)
    requires GoodHashes(env) && n < |tools| && LateOk(env, server, s, tools, late, n)
    requires var before := ScanList(env, server, s, tools, late, n);
             ScanOk(env, server, before, tools, n) && before.state.nextChange + |late(n)| + 2 < REVISIONS
    ensures ScanOk(env, server, ScanList(env, server, s, tools, late, n + 1), tools, n + 1)
    ensures ScanList(env, server, s, tools, late, n + 1).state.nextChange
         <= ScanList(env, server, s, tools, late, n).state.nextChange + 1 + |late(n)|
  {
    var before := ScanList(env, server, s, tools, late, n);
    ScanToolOk(env, server, before, tools, n);
    ScanToolInv(env, server, before, n, tools[n]);
    LateKeepsScan(env, server, ScanTool(env, server, before, n, tools[n]), tools, n + 1, late(n));
  }

  /** The revision counter does not wrap during the scan. */
  predicate Room(s: State, tools: seq<Json>, late: nat -> seq<Step>) {
    s.nextChange + |tools| + LateCount(late, |tools|) + 1 < REVISIONS
  }

  lemma RoomLeft(s: State, tools: seq<Json>, late: nat -> seq<Step>, n: nat)
    requires Room(s, tools, late) && n < |tools|
    ensures s.nextChange + n + LateCount(late, n) + |late(n)| + 2 < REVISIONS
  {
    LateCountGrows(late, n + 1, |tools|);
    assert LateCount(late, n + 1) == LateCount(late, n) + |late(n)|;
  }

  /** The state of the scan after `n` tools: sound, and with at most a revision a step. */
  ghost predicate ScannedOk(env: Env, server: string, s: State, tools: seq<Json>, late: nat -> seq<Step>, n: nat)
    requires n <= |tools|
  {
    && ScanOk(env, server, ScanList(env, server, s, tools, late, n), tools, n)
    && ScanList(env, server, s, tools, late, n).state.nextChange <= s.nextChange + n + LateCount(late, n)
  }

  lemma ScanStarts(env: Env, server: string, s: State, tools: seq<Json>, late: nat -> seq<Step>)
    requires Inv(env.compile, s)
    ensures ScannedOk(env, server, s, tools, late, 0)
  {
  }

  lemma ScanContinues(env: Env, server: string, s: State, tools: seq<Json>, late: nat -> seq<Step>, n: nat)
    requires GoodHashes(env) && n < |tools| && Room(s, tools, late)
    requires LateOk(env, server, s, tools, late, n) && ScannedOk(env, server, s, tools, late, n)
    ensures ScannedOk(env, server, s, tools, late, n + 1)
  {
    RoomLeft(s, tools, late, n);
    TurnOk(env, server, s, tools, late, n);
  }

  lemma ScanListOk(env: Env, server: string, s: State, tools: seq<Json>, late: nat -> seq<Step>, n: nat)
    requires GoodHashes(env) && Inv(env.compile, s) && Room(s, tools, late)
    requires HarmlessLate(env, server, s, tools, late) && n <= |tools|
    ensures ScannedOk(env, server, s, tools, late, n)
  {
    ScanStarts(env, server, s, tools, late);
    for i := 0 to n
      invariant ScannedOk(env, server, s, tools, late, i)
    {
      assert LateOk(env, server, s, tools, late, i);
      ScanContinues(env, server, s, tools, late, i);
    }
  }

  /** An exposed list is a callable list: its names are distinct and non-empty, no tool was quarantined
      when checked, and each is allowed without a warning under exactly its listed hash, whatever
      verdicts arrived and whatever harmless observations were made during the scan. */
  lemma ExposedListIsCallable(env: Env, server: string, s: State, tools: seq<Json>, late: nat -> seq<Step>)
    requires GoodHashes(env) && Inv(env.compile, s) && Room(s, tools, late)
    requires HarmlessLate(env, server, s, tools, late)
    requires ScanList(env, server, s, tools, late, |tools|).blocked.None?
    ensures var t := ScanList(env, server, s, tools, late, |tools|).state;
            && (forall i: nat, j: nat | i < j < |tools| :: NameOf(tools[i]) != NameOf(tools[j]))
            && (forall j: nat | j < |tools| ::
                  && NameOf(tools[j]) != "" && !env.quarantined(j) && env.toolHash(tools[j]).Some?
                  && var h := env.toolHash(tools[j]).value;
                     Prepare(t.pinned, server, NameOf(tools[j])) == Allowed("", h, env.compile(h).schema))
  {
    ScanListOk(env, server, s, tools, late, |tools|);
    var sc := ScanList(env, server, s, tools, late, |tools|);
    forall j: nat | j < |tools|
      ensures NameOf(tools[j]) != "" && !env.quarantined(j) && env.toolHash(tools[j]).Some?
      ensures var h := env.toolHash(tools[j]).value;
              Prepare(sc.state.pinned, server, NameOf(tools[j])) == Allowed("", h, env.compile(h).schema)
    {
      assert Listed(env, server, sc, j, tools[j]);
      CallableIsAllowed(env.compile, sc.state, server, NameOf(tools[j]), env.toolHash(tools[j]).value);
    }
  }

  // ----- every tool is inspected -----

  /** Tool `j` reaches `ObserveDefinition`: named, hashable, with an object schema, not quarantined. */
  predicate Inspectable(env: Env, tools: seq<Json>, j: nat)
    requires j < |tools|
  {
    && NameOf(tools[j]) != "" && !env.quarantined(j)
    && env.toolHash(tools[j]).Some? && HasObjectSchema(tools[j])
  }

  predicate OnlyOne(tools: seq<Json>, n: nat, j: nat)
    requires j < n <= |tools|
  {
    forall i: nat | i < n && i != j :: NameOf(tools[i]) != NameOf(tools[j])
  }

  lemma TurnSees(env: Env, server: string, sc: Scan, i: nat, tool: Json)
    requires NameOf(tool) !in sc.seen && NameOf(tool) != "" && !env.quarantined(i)
    requires env.toolHash(tool).Some? && HasObjectSchema(tool)
    ensures SeenAsListed(env, server, ScanTool(env, server, sc, i, tool).state, tool)
  {
  }

  lemma TurnKeepsSeen(env: Env, server: string, sc: Scan, i: nat, tool: Json, other: Json)
    requires NameOf(tool) != NameOf(other) && SeenAsListed(env, server, sc.state, other)
    ensures SeenAsListed(env, server, ScanTool(env, server, sc, i, tool).state, other)
  {
    KeysDiffer(server, NameOf(tool), NameOf(other));
  }

  lemma SeenStep(env: Env, server: string, s: State, tools: seq<Json>, late: nat -> seq<Step>, m: nat, n: nat)
    requires m < n == m + 1 <= |tools|
    ensures ScanList(env, server, s, tools, late, n).seen
         == ScanList(env, server, s, tools, late, m).seen + {NameOf(tools[m])}
    ensures ScanList(env, server, s, tools, late, n).blocked
         == ScanTool(env, server, ScanList(env, server, s, tools, late, m), m, tools[m]).blocked
  {
    SeenGrows(env, server, ScanList(env, server, s, tools, late, m), m, tools[m]);
  }

  lemma {:induction false} NamesSeen(env: Env, server: string, s: State, tools: seq<Json>, late: nat -> seq<Step>,
                                     n: nat, name: string)
    requires n <= |tools| && forall i: nat | i < n :: NameOf(tools[i]) != name
    ensures name !in ScanList(env, server, s, tools, late, n).seen
  {
    if n > 0 {
      var m: nat := n - 1;
      NamesSeen(env, server, s, tools, late, m, name);
      SeenStep(env, server, s, tools, late, m, n);
    }
  }

  /** After `n` tools the session has last seen tool `j` under its listed hash. */
  ghost predicate SeenAt(env: Env, server: string, s: State, tools: seq<Json>, late: nat -> seq<Step>, n: nat, j: nat)
    requires j < n <= |tools|
  {
    SeenAsListed(env, server, ScanList(env, server, s, tools, late, n).state, tools[j])
  }

  /** The setting of a scan in which tool `j` can be inspected and has its name to itself. */
  ghost predicate Setting(env: Env, server: string, s: State, tools: seq<Json>, late: nat -> seq<Step>, j: nat) {
    && GoodHashes(env) && Inv(env.compile, s) && Room(s, tools, late)
    && HarmlessLate(env, server, s, tools, late)
    && j < |tools| && Inspectable(env, tools, j) && OnlyOne(tools, |tools|, j)
  }

  lemma SeenFirst(env: Env, server: string, s: State, tools: seq<Json>, late: nat -> seq<Step>, j: nat, next: nat)
    requires Setting(env, server, s, tools, late, j) && next == j + 1
    ensures SeenAt(env, server, s, tools, late, next, j)
  {
    assert LateOk(env, server, s, tools, late, j);
    ScanListOk(env, server, s, tools, late, j);
    NamesSeen(env, server, s, tools, late, j, NameOf(tools[j]));
    TurnSees(env, server, ScanList(env, server, s, tools, late, j), j, tools[j]);
    RoomLeft(s, tools, late, j);
    LateKeepsSeen(env, server, s, tools, late, j, next, j, ScanList(env, server, s, tools, late, j));
  }

  lemma SeenStays(env: Env, server: string, s: State, tools: seq<Json>, late: nat -> seq<Step>, n: nat, next: nat,
                  j: nat)
    requires Setting(env, server, s, tools, late, j) && j < n < next == n + 1 <= |tools|
    requires SeenAt(env, server, s, tools, late, n, j)
    ensures SeenAt(env, server, s, tools, late, next, j)
  {
    assert LateOk(env, server, s, tools, late, n);
    ScanListOk(env, server, s, tools, late, n);
    TurnKeepsSeen(env, server, ScanList(env, server, s, tools, late, n), n, tools[n], tools[j]);
    RoomLeft(s, tools, late, n);
    LateKeepsSeen(env, server, s, tools, late, n, next, j, ScanList(env, server, s, tools, late, n));
  }

  /** A block found earlier in the list never stops the later tools from being inspected: afterwards the
      session has last seen every inspectable tool under its listed hash. */
  lemma EveryToolIsInspected(env: Env, server: string, s: State, tools: seq<Json>, late: nat -> seq<Step>, j: nat)
    requires Setting(env, server, s, tools, late, j)
    ensures SeenAt(env, server, s, tools, late, |tools|, j)
  {
    SeenFrom(env, server, s, tools, late, |tools|, j);
  }

  lemma {:induction false} SeenFrom(env: Env, server: string, s: State, tools: seq<Json>, late: nat -> seq<Step>,
                                    n: nat, j: nat)
    requires Setting(env, server, s, tools, late, j) && j < n <= |tools|
    ensures SeenAt(env, server, s, tools, late, n, j)
  {
    if n == j + 1 {
      SeenFirst(env, server, s, tools, late, j, n);
    } else {
      var m: nat := n - 1;
      SeenFrom(env, server, s, tools, late, m, j);
      SeenStays(env, server, s, tools, late, m, n, j);
    }
  }

  /** The state after the next turn and the steps that follow it. */
  lemma ScanNext(env: Env, server: string, s: State, tools: seq<Json>, late: nat -> seq<Step>, n: nat, next: nat)
    requires n < next == n + 1 <= |tools|
    ensures ScanList(env, server, s, tools, late, next).state
      == Run(env.compile, ScanTool(env, server, ScanList(env, server, s, tools, late, n), n, tools[n]).state, late(n))
  {
  }

  lemma LateKeepsSeen(env: Env, server: string, s: State, tools: seq<Json>, late: nat -> seq<Step>, n: nat, next: nat,
                      j: nat, before: Scan)
    requires GoodHashes(env) && j < next == n + 1 <= |tools| && LateOk(env, server, s, tools, late, n)
    requires before == ScanList(env, server, s, tools, late, n)
    requires Inv(env.compile, before.state) && before.state.nextChange + |late(n)| + 2 < REVISIONS
    requires SeenAsListed(env, server, ScanTool(env, server, before, n, tools[n]).state, tools[j])
    ensures SeenAt(env, server, s, tools, late, next, j)
  {
    ScanToolInv(env, server, before, n, tools[n]);
    StepsKeepSeen(env, server, ScanTool(env, server, before, n, tools[n]).state, tools, late(n), n, j);
    ScanNext(env, server, s, tools, late, n, next);
  }

  lemma StepsKeepSeen(env: Env, server: string, t: State, tools: seq<Json>, steps: seq<Step>, n: nat, j: nat)
    requires j <= n < |tools| && Inv(env.compile, t) && t.nextChange + |steps| + 1 < REVISIONS
    requires forall i | 0 <= i < |steps| :: Harmless(env, server, tools, n + 1, steps[i])
    requires Possible(env.compile, t, steps) && SeenAsListed(env, server, t, tools[j])
    ensures SeenAsListed(env, server, Run(env.compile, t, steps), tools[j])
  {
    LateKeeps(env, server, tools, n + 1, t, steps);
  }

  // ----- the loop -----

  /** What the session holds and what the loop decided, without the protocol's ghost state. */
  predicate Tracks(session: Session.Session, sc: Scan)
    reads session
  {
    session.pinned == sc.state.pinned && session.nextChange == sc.state.nextChange
  }

  /** The reports of one turn. */
  function TurnReports(env: Env, server: string, sc: Scan, i: nat, tool: Json): seq<Report> {
    var name := NameOf(tool);
    if name in sc.seen || (name != "" && env.quarantined(i)) then []
    else ReportsFor(server, name, ToolOutcome(env, sc.state, server, tool))
  }

  /** They are the ones the protocol then has in flight. */
  lemma TurnSendsReports(env: Env, server: string, sc: Scan, i: nat, tool: Json)
    ensures var t, sent := ScanTool(env, server, sc, i, tool), TurnReports(env, server, sc, i, tool);
      t.reports == sc.reports + sent && t.state.inFlight == sc.state.inFlight + multiset(sent)
  {
    var name := NameOf(tool);
    assert sc.reports + [] == sc.reports;
    if !(name in sc.seen || (name != "" && env.quarantined(i))) {
      StepSendsReports(env, server, sc.state, tool);
    }
  }

  lemma StepSendsReports(env: Env, server: string, s: State, tool: Json)
    ensures var step := ToolStep(env, server, tool);
      var t := if step.Some? then Next(env.compile, s, step.value) else s;
      t.inFlight == s.inFlight + multiset(ReportsFor(server, NameOf(tool), ToolOutcome(env, s, server, tool)))
  {
  }

  lemma QuietTurn(env: Env, server: string, s: State, tools: seq<Json>, late: nat -> seq<Step>, n: nat, next: nat)
    requires n < next == n + 1 <= |tools| && late(n) == []
    ensures ScanList(env, server, s, tools, late, next)
      == ScanTool(env, server, ScanList(env, server, s, tools, late, n), n, tools[n])
  {
  }

  /** If nobody else uses the session, what is in flight after the scan is what was before and the reports. */
  lemma {:induction false} ReportsAreInFlight(env: Env, server: string, s: State, tools: seq<Json>,
                                              late: nat -> seq<Step>, n: nat)
    requires n <= |tools| && forall i: nat | i < n :: late(i) == []
    ensures var sc := ScanList(env, server, s, tools, late, n);
      sc.state.inFlight == s.inFlight + multiset(sc.reports)
  {
    if n > 0 {
      var m: nat := n - 1;
      ReportsAreInFlight(env, server, s, tools, late, m);
      TurnSendsReports(env, server, ScanList(env, server, s, tools, late, m), m, tools[m]);
      QuietTurn(env, server, s, tools, late, m, n);
    }
  }

  /** `observeTool`: returns the outcome, and the reports to send in the background. */
  method ObserveTool(env: Env, session: Session.Session, w: Writer, server: string, tool: Json, ghost s: State)
    returns (outcome: Outcome, reports: seq<Report>)
    requires session.Valid() && session.pinned == s.pinned && session.nextChange == s.nextChange
    modifies session, w
    ensures session.Valid()
    ensures outcome == ToolOutcome(env, s, server, tool) && reports == ReportsFor(server, NameOf(tool), outcome)
    ensures var step := ToolStep(env, server, tool);
            var t := if step.Some? then Next(env.compile, s, step.value) else s;
            && session.pinned == t.pinned && session.nextChange == t.nextChange
            && t.inFlight == s.inFlight + multiset(reports)
  {
    var name := NameOf(tool);
    outcome, reports := Outcome(ActInvalid, 0, "", ""), [];
    if name == "" {
      session.EmitEvent(w, PolicyDecision(server, "", "block", "TOOL_SCHEMA_INVALID: tool name is missing"));
      return;
    }
    var defHash := env.toolHash(tool);
    if defHash.None? {
      session.RejectDefinition(w, server, name, HashReason(env, tool));
      return;
    }
    if !HasObjectSchema(tool) {
      session.RejectDefinition(w, server, name, NO_OBJECT);
      return;
    }
    var compiled := env.compile(defHash.value);
    outcome := session.ObserveDefinition(w, server, name, tool, defHash.value, compiled.schema, compiled.error);
    if outcome.action != ActMismatch && outcome.action != ActRetry {
      return;
    }
    reports := [Report(Key(server, name), outcome.revision, outcome.oldHash, outcome.newHash)];
  }

  /** One turn of the loop in `observeListResponse`. */
  method InspectTool(env: Env, session: Session.Session, w: Writer, server: string, i: nat, tool: Json,
                     seen: set<string>, blocked: Option<Block>, ghost sc: Scan)
    returns (seen': set<string>, blocked': Option<Block>, reports: seq<Report>)
    requires session.Valid() && Tracks(session, sc) && seen == sc.seen && blocked == sc.blocked
    modifies session, w
    ensures session.Valid()
    ensures var t := ScanTool(env, server, sc, i, tool);
            && Tracks(session, t) && seen' == t.seen && blocked' == t.blocked
            && t.reports == sc.reports + reports && t.state.inFlight == sc.state.inFlight + multiset(reports)
  {
    var name := NameOf(tool);
    seen', blocked', reports := seen, blocked, [];
    if name in seen {
      session.RejectDefinition(w, server, name, DUPLICATE);
      blocked' := Some(ListInvalid);
      return;
    }
    seen' := seen + {name};
    if name != "" && env.quarantined(i) {
      session.EmitEvent(w, PolicyDecision(server, name, "quarantine", "tool is quarantined for all sessions"));
      blocked' := Some(Quarantined(name));
      return;
    }
    var outcome;
    outcome, reports := ObserveTool(env, session, w, server, tool, sc.state);
    if blocked.None? {
      blocked' := BlockFor(outcome.action, name);
    }
  }

  /** What other goroutines do to the session between two turns: each step is a call of its method. */
  method Interfere(env: Env, session: Session.Session, w: Writer, steps: seq<Step>, ghost s: State)
    requires session.Valid() && session.pinned == s.pinned && session.nextChange == s.nextChange
    modifies session, w
    ensures session.Valid()
    ensures var t := Run(env.compile, s, steps); session.pinned == t.pinned && session.nextChange == t.nextChange
  {
    for i := 0 to |steps|
      invariant session.Valid()
      invariant var t := Run(env.compile, s, steps[..i]);
        session.pinned == t.pinned && session.nextChange == t.nextChange
    {
      assert steps[..i + 1][..i] == steps[..i] && steps[..i + 1][i] == steps[i];
      match steps[i]
      case ObserveStep(server, name, tool, h) =>
        var compiled := env.compile(h);
        var _ := session.ObserveDefinition(w, server, name, tool, h, compiled.schema, compiled.error);
      case RejectStep(server, name, why) => session.RejectDefinition(w, server, name, why);
      case DeliverStep(server, name, r, unreachable, verdict, reason) =>
        session.ApplyVerdict(w, server, name, r.revision, unreachable, verdict, reason);
    }
    assert steps[..|steps|] == steps;
  }

  /** `observeListResponse`, with `late(i)` the steps others take after tool `i`; `reports` are the
      change reports it hands to background goroutines. */
  method ObserveListResponse(env: Env, session: Session.Session, w: Writer, server: string, response: Response,
                             late: nat -> seq<Step>, ghost s: State)
    returns (blocked: Option<Block>, reports: seq<Report>)
    requires session.Valid() && session.pinned == s.pinned && session.nextChange == s.nextChange
    modifies session, w
    ensures session.Valid()
    ensures response.Undecodable? ==> blocked == Some(ListInvalid)
    ensures response.UpstreamError? ==> blocked == None
    ensures !response.Tools? ==> session.pinned == old(session.pinned) && reports == []
    ensures response.Tools? ==>
              var sc := ScanList(env, server, s, response.tools, late, |response.tools|);
              Tracks(session, sc) && blocked == sc.blocked && reports == sc.reports
  {
    reports := [];
    if response.Undecodable? {
      return Some(ListInvalid), reports;
    }
    if response.UpstreamError? {
      return None, reports;
    }
    var tools := response.tools;
    var seen: set<string> := {};
    blocked := None;
    for i := 0 to |tools|
      invariant session.Valid()
      invariant var sc := ScanList(env, server, s, tools, late, i);
                Tracks(session, sc) && blocked == sc.blocked && seen == sc.seen && reports == sc.reports
    {
      ghost var sc := ScanList(env, server, s, tools, late, i);
      var sent;
      seen, blocked, sent := InspectTool(env, session, w, server, i, tools[i], seen, blocked, sc);
      reports := reports + sent;
      Interfere(env, session, w, late(i), ScanTool(env, server, sc, i, tools[i]).state);
    }
  }
}
