/**
 What the gateway answers to a tools/list, without mentioning how the loop decides: a list is exposed
 exactly if every tool in it could be called the moment it was inspected, and otherwise the answer says
 which tool withholds it and why.
 */
module ListAnswers {
  import opened Wrappers
  import opened Json
  import opened Events
  import opened Pins
  import opened Protocol
  import opened Gateway

  // ----- what is wrong with a tool -----

  /** The session right after tool `j` was inspected. */
  function AfterTool(env: Env, server: string, s: State, tools: seq<Json>, late: nat -> seq<Step>, j: nat): State
    requires j < |tools|
  {
    ScanTool(env, server, ScanList(env, server, s, tools, late, j), j, tools[j]).state
  }

  predicate ListedBefore(tools: seq<Json>, n: nat, name: string)
    requires n <= |tools|
  {
    exists i: nat :: i < n && NameOf(tools[i]) == name
  }

  /** An earlier tool of the list has the same name. */
  predicate Repeated(tools: seq<Json>, j: nat)
    requires j < |tools|
  {
    ListedBefore(tools, j, NameOf(tools[j]))
  }

  /** A repeated name or a quarantined tool withholds the list whatever else is wrong with it. */
  function Fatal(env: Env, tools: seq<Json>, j: nat): Option<Block>
    requires j < |tools|
  {
    if Repeated(tools, j) then Some(ListInvalid)
    else if NameOf(tools[j]) != "" && env.quarantined(j) then Some(Quarantined(NameOf(tools[j])))
    else None
  }

  /** What a call meets, if not the definition that is listed. */
  function Met(c: Compiler, pinned: Pinned, server: string, name: string, h: Hash): Option<Block> {
    var call := Prepare(pinned, server, name);
    if call == Allowed("", h, c(h).schema) then None
    else if call == Denied("TOOL_SCHEMA_INVALID") then Some(SchemaInvalid(name))
    else Some(ContractChanged(name))
  }

  /** What keeps a tool from being called under the definition that is listed; None if it can be called. */
  function Obstacle(env: Env, server: string, pinned: Pinned, tool: Json): Option<Block> {
    var name := NameOf(tool);
    if name == "" || env.toolHash(tool).None? || !HasObjectSchema(tool) then Some(SchemaInvalid(name))
    else Met(env.compile, pinned, server, name, env.toolHash(tool).value)
  }

  function ObstacleAt(env: Env, server: string, s: State, tools: seq<Json>, late: nat -> seq<Step>, j: nat):
    Option<Block>
    requires j < |tools|
  {
    Obstacle(env, server, AfterTool(env, server, s, tools, late, j).pinned, tools[j])
  }

  /** What is fatal, tool by tool. */
  function Fatals(env: Env, tools: seq<Json>, n: nat): (r: seq<Option<Block>>)
    requires n <= |tools|
    ensures |r| == n && forall j | 0 <= j < n :: r[j] == Fatal(env, tools, j)
  {
    if n == 0 then [] else Fatals(env, tools, n - 1) + [Fatal(env, tools, n - 1)]
  }

  /** The obstacles, tool by tool. */
  function Obstacles(env: Env, server: string, s: State, tools: seq<Json>, late: nat -> seq<Step>, n: nat):
    (r: seq<Option<Block>>)
    requires n <= |tools|
    ensures |r| == n && forall j | 0 <= j < n :: r[j] == ObstacleAt(env, server, s, tools, late, j)
  {
    if n == 0 then []
    else Obstacles(env, server, s, tools, late, n - 1) + [ObstacleAt(env, server, s, tools, late, n - 1)]
  }

  predicate NoneAt<T>(found: seq<Option<T>>) {
    forall j | 0 <= j < |found| :: found[j].None?
  }

  predicate LastAt<T>(found: seq<Option<T>>, j: int) {
    0 <= j < |found| && found[j].Some? && forall i | j < i < |found| :: found[i].None?
  }

  predicate FirstAt<T>(found: seq<Option<T>>, j: int) {
    0 <= j < |found| && found[j].Some? && forall i | 0 <= i < j :: found[i].None?
  }

  /** The answer: the last fatal tool if there is one, else the first obstacle, else none. */
  ghost predicate Answer(fatals: seq<Option<Block>>, obstacles: seq<Option<Block>>, blocked: Option<Block>) {
    && (forall j | LastAt(fatals, j) :: blocked == fatals[j])
    && (NoneAt(fatals) ==> forall j | FirstAt(obstacles, j) :: blocked == obstacles[j])
    && (blocked.None? <==> NoneAt(fatals) && NoneAt(obstacles))
  }

  /** One more tool. */
  lemma AnswerGrows(fatals: seq<Option<Block>>, obstacles: seq<Option<Block>>, before: Option<Block>,
                    fatal: Option<Block>, obstacle: Option<Block>, after: Option<Block>)
    requires Answer(fatals, obstacles, before)
    requires after == if fatal.Some? then fatal else if before.Some? then before else obstacle
    ensures Answer(fatals + [fatal], obstacles + [obstacle], after)
  {
    var fs, os := fatals + [fatal], obstacles + [obstacle];
    assert NoneAt(fs) <==> NoneAt(fatals) && fatal.None? by {
      assert fs[|fatals|] == fatal && forall j | 0 <= j < |fatals| :: fs[j] == fatals[j];
    }
    assert NoneAt(os) <==> NoneAt(obstacles) && obstacle.None? by {
      assert os[|obstacles|] == obstacle && forall j | 0 <= j < |obstacles| :: os[j] == obstacles[j];
    }
    forall j | LastAt(fs, j) ensures after == fs[j] {
      LastGrows(fatals, fatal, j);
    }
    forall j | NoneAt(fs) && FirstAt(os, j) ensures after == os[j] {
      FirstGrows(obstacles, obstacle, j);
    }
  }

  lemma LastGrows<T>(found: seq<Option<T>>, more: Option<T>, j: int)
    requires LastAt(found + [more], j)
    ensures if more.Some? then j == |found| else LastAt(found, j) && (found + [more])[j] == found[j]
  {
    var all := found + [more];
    assert all[|found|] == more;
    if more.None? {
      forall i | j < i < |found| ensures found[i].None? {
        assert all[i] == found[i];
      }
    }
  }

  lemma FirstGrows<T>(found: seq<Option<T>>, more: Option<T>, j: int)
    requires FirstAt(found + [more], j)
    ensures if j < |found| then FirstAt(found, j) && (found + [more])[j] == found[j] else j == |found| && NoneAt(found)
  {
    var all := found + [more];
    forall i | 0 <= i < |found| ensures all[i] == found[i] {
    }
  }

  // ----- one tool -----

  lemma FirstSightTells(c: Compiler, pinned: Pinned, n: nat, server: string, name: string, tool: Json, h: Hash)
    ensures var o := FirstSight(pinned, n, server, name, tool, h, c(h).schema, c(h).error);
      BlockFor(o.outcome.action, name) == Met(c, o.pinned, server, name, h)
  {
  }

  lemma SameHashTells(c: Compiler, s: State, server: string, name: string, p: PinnedTool)
    requires Inv(c, s) && Key(server, name) in s.pinned && s.pinned[Key(server, name)].defHash != ""
    requires p == s.pinned[Key(server, name)].(invalidDefinition := "")
    ensures var had := s.pinned[Key(server, name)].invalidDefinition != "";
      var o := SameHash(s.pinned, s.nextChange, server, name, p, had, c(p.defHash).error);
      BlockFor(o.outcome.action, name) == Met(c, o.pinned, server, name, p.defHash)
  {
    assert KeyOk(c, s, Key(server, name));
  }

  lemma ChangeAgainTells(c: Compiler, s: State, server: string, name: string, p: PinnedTool)
    requires Inv(c, s) && Key(server, name) in s.pinned && s.pinned[Key(server, name)].pending.Some?
    requires p == s.pinned[Key(server, name)].(invalidDefinition := "") && p.pending.value.newHash != p.defHash
    requires p.schemaError == "" || p.pending.value.schemaError != ""
    ensures var o := ChangeAgain(s.pinned, s.nextChange, server, name, p);
      BlockFor(o.outcome.action, name) == Met(c, o.pinned, server, name, p.pending.value.newHash)
  {
    assert KeyOk(c, s, Key(server, name));
  }

  lemma NewChangeTells(c: Compiler, pinned: Pinned, n: nat, server: string, name: string, p: PinnedTool, tool: Json,
                       h: Hash)
    requires p.invalidDefinition == "" && (p.schemaError != "" ==> c(h).error != "")
    ensures var o := NewChange(pinned, n, server, name, p, tool, h, c(h).schema, c(h).error);
      BlockFor(o.outcome.action, name) == Met(c, o.pinned, server, name, h)
  {
  }

  /** An action lets the list through exactly if the tool can be called then, and names the obstacle if not. */
  lemma ActionTells(c: Compiler, s: State, server: string, name: string, tool: Json, h: Hash)
    requires Inv(c, s) && h != ""
    ensures var o := Observe(s.pinned, s.nextChange, server, name, tool, h, c(h).schema, c(h).error);
      BlockFor(o.outcome.action, name) == Met(c, o.pinned, server, name, h)
  {
    var key := Key(server, name);
    if key !in s.pinned {
      FirstSightTells(c, s.pinned, s.nextChange, server, name, tool, h);
    } else {
      assert KeyOk(c, s, key);
      var p := s.pinned[key].(invalidDefinition := "");
      if p.defHash == h {
        SameHashTells(c, s, server, name, p);
      } else if p.schemaError != "" && c(h).error == "" {
        assert Observe(s.pinned, s.nextChange, server, name, tool, h, c(h).schema, c(h).error).pinned
            == s.pinned[key := FreshPin(tool, h, c(h).schema, "")];
      } else if p.pending.Some? && p.pending.value.newHash == h {
        ChangeAgainTells(c, s, server, name, p);
      } else {
        NewChangeTells(c, s.pinned, s.nextChange, server, name, p, tool, h);
      }
    }
  }

  /** What a tool meets once it was inspected is what its outcome says. */
  lemma OutcomeTells(env: Env, server: string, s: State, tool: Json)
    requires GoodHashes(env) && Inv(env.compile, s)
    ensures var step := ToolStep(env, server, tool);
      var t := if step.Some? then Next(env.compile, s, step.value) else s;
      BlockFor(ToolOutcome(env, s, server, tool).action, NameOf(tool)) == Obstacle(env, server, t.pinned, tool)
  {
    var step := ToolStep(env, server, tool);
    if step.Some? && step.value.ObserveStep? {
      ActionTells(env.compile, s, server, NameOf(tool), tool, step.value.defHash);
    }
  }

  /** One turn: a repeated or quarantined tool overrides, an obstacle counts only if nothing did before. */
  lemma TurnTells(env: Env, server: string, sc: Scan, i: nat, tool: Json)
    requires GoodHashes(env) && Inv(env.compile, sc.state)
    ensures var t := ScanTool(env, server, sc, i, tool);
      t.blocked
      == if NameOf(tool) in sc.seen then Some(ListInvalid)
         else if NameOf(tool) != "" && env.quarantined(i) then Some(Quarantined(NameOf(tool)))
         else if sc.blocked.Some? then sc.blocked
         else Obstacle(env, server, t.state.pinned, tool)
  {
    OutcomeTells(env, server, sc.state, tool);
  }

  // ----- the scan -----

  lemma {:induction false} LateInv(c: Compiler, s: State, steps: seq<Step>)
    requires Inv(c, s) && Possible(c, s, steps) && s.nextChange + |steps| + 1 < REVISIONS
    ensures Inv(c, Run(c, s, steps)) && Run(c, s, steps).nextChange <= s.nextChange + |steps|
  {
    if steps != [] {
      var front, last := steps[..|steps| - 1], steps[|steps| - 1];
      LateInv(c, s, front);
      StepKeepsInv(c, Run(c, s, front), last);
      RevisionsGrowByOne(c, Run(c, s, front), last);
    }
  }

  /** Whatever others do to the session between two tools is possible. */
  ghost predicate PossibleLate(env: Env, server: string, s: State, tools: seq<Json>, late: nat -> seq<Step>) {
    forall j: nat | j < |tools| :: Possible(env.compile, AfterTool(env, server, s, tools, late, j), late(j))
  }

  /** After `n` tools the session is sound, with at most a revision a step. */
  ghost predicate SoundAfter(env: Env, server: string, s: State, tools: seq<Json>, late: nat -> seq<Step>, n: nat)
    requires n <= |tools|
  {
    var t := ScanList(env, server, s, tools, late, n).state;
    Inv(env.compile, t) && t.nextChange <= s.nextChange + n + LateCount(late, n)
  }

  lemma TurnIsSound(env: Env, server: string, sc: Scan, i: nat, tool: Json, steps: seq<Step>)
    requires GoodHashes(env) && Inv(env.compile, sc.state) && sc.state.nextChange + |steps| + 2 < REVISIONS
    requires Possible(env.compile, ScanTool(env, server, sc, i, tool).state, steps)
    ensures var t := Run(env.compile, ScanTool(env, server, sc, i, tool).state, steps);
      Inv(env.compile, t) && t.nextChange <= sc.state.nextChange + 1 + |steps|
  {
    ScanToolInv(env, server, sc, i, tool);
    LateInv(env.compile, ScanTool(env, server, sc, i, tool).state, steps);
  }

  lemma LateCountNext(late: nat -> seq<Step>, m: nat, n: nat)
    requires n == m + 1
    ensures LateCount(late, n) == LateCount(late, m) + |late(m)|
  {
  }

  lemma SoundNext(env: Env, server: string, s: State, tools: seq<Json>, late: nat -> seq<Step>, m: nat, n: nat,
                  sc: Scan, after: State)
    requires GoodHashes(env) && Room(s, tools, late) && m < n == m + 1 <= |tools|
    requires sc == ScanList(env, server, s, tools, late, m) && after == ScanTool(env, server, sc, m, tools[m]).state
    requires Possible(env.compile, after, late(m)) && SoundAfter(env, server, s, tools, late, m)
    ensures SoundAfter(env, server, s, tools, late, n)
  {
    RoomLeft(s, tools, late, m);
    TurnIsSound(env, server, sc, m, tools[m], late(m));
    ScanNext(env, server, s, tools, late, m, n);
    LateCountNext(late, m, n);
  }

  lemma ScanInv(env: Env, server: string, s: State, tools: seq<Json>, late: nat -> seq<Step>, n: nat)
    requires GoodHashes(env) && Inv(env.compile, s) && Room(s, tools, late) && n <= |tools|
    requires PossibleLate(env, server, s, tools, late)
    ensures SoundAfter(env, server, s, tools, late, n)
  {
    assert SoundAfter(env, server, s, tools, late, 0);
    for i := 0 to n
      invariant SoundAfter(env, server, s, tools, late, i)
    {
      assert Possible(env.compile, AfterTool(env, server, s, tools, late, i), late(i));
      SoundNext(env, server, s, tools, late, i, i + 1, ScanList(env, server, s, tools, late, i),
                AfterTool(env, server, s, tools, late, i));
    }
  }

  lemma ListedBeforeNext(tools: seq<Json>, m: nat, n: nat, name: string)
    requires m < n == m + 1 <= |tools|
    ensures ListedBefore(tools, n, name) <==> ListedBefore(tools, m, name) || NameOf(tools[m]) == name
  {
  }

  lemma {:induction false} SeenIffListed(env: Env, server: string, s: State, tools: seq<Json>, late: nat -> seq<Step>,
                                         n: nat, name: string)
    requires n <= |tools|
    ensures name in ScanList(env, server, s, tools, late, n).seen <==> ListedBefore(tools, n, name)
    decreases n
  {
    if n > 0 {
      var m: nat := n - 1;
      SeenIffListed(env, server, s, tools, late, m, name);
      SeenStep(env, server, s, tools, late, m, n);
      ListedBeforeNext(tools, m, n, name);
    }
  }

  /** The block after one more tool. */
  lemma NextBlock(env: Env, server: string, s: State, tools: seq<Json>, late: nat -> seq<Step>, m: nat, n: nat,
                  sc: Scan)
    requires GoodHashes(env) && m < n == m + 1 <= |tools| && sc == ScanList(env, server, s, tools, late, m)
    requires Inv(env.compile, sc.state)
    ensures ScanList(env, server, s, tools, late, n).blocked
         == if Fatal(env, tools, m).Some? then Fatal(env, tools, m)
            else if sc.blocked.Some? then sc.blocked
            else ObstacleAt(env, server, s, tools, late, m)
  {
    SeenStep(env, server, s, tools, late, m, n);
    SeenIffListed(env, server, s, tools, late, m, NameOf(tools[m]));
    TurnTells(env, server, sc, m, tools[m]);
  }

  ghost predicate AnsweredAfter(env: Env, server: string, s: State, tools: seq<Json>, late: nat -> seq<Step>, n: nat)
    requires n <= |tools|
  {
    Answer(Fatals(env, tools, n), Obstacles(env, server, s, tools, late, n),
           ScanList(env, server, s, tools, late, n).blocked)
  }

  lemma AnswerNext(env: Env, server: string, s: State, tools: seq<Json>, late: nat -> seq<Step>, m: nat, n: nat,
                   sc: Scan)
    requires GoodHashes(env) && m < n == m + 1 <= |tools| && sc == ScanList(env, server, s, tools, late, m)
    requires Inv(env.compile, sc.state) && AnsweredAfter(env, server, s, tools, late, m)
    ensures AnsweredAfter(env, server, s, tools, late, n)
  {
    NextBlock(env, server, s, tools, late, m, n, sc);
    AnswerGrows(Fatals(env, tools, m), Obstacles(env, server, s, tools, late, m), sc.blocked, Fatal(env, tools, m),
                ObstacleAt(env, server, s, tools, late, m), ScanList(env, server, s, tools, late, n).blocked);
  }

  lemma ScanAnswers(env: Env, server: string, s: State, tools: seq<Json>, late: nat -> seq<Step>, n: nat)
    requires GoodHashes(env) && Inv(env.compile, s) && Room(s, tools, late) && n <= |tools|
    requires PossibleLate(env, server, s, tools, late)
    ensures AnsweredAfter(env, server, s, tools, late, n)
  {
    assert AnsweredAfter(env, server, s, tools, late, 0);
    for i := 0 to n
      invariant AnsweredAfter(env, server, s, tools, late, i)
    {
      ScanInv(env, server, s, tools, late, i);
      AnswerNext(env, server, s, tools, late, i, i + 1, ScanList(env, server, s, tools, late, i));
    }
  }

  /**
   A list is exposed exactly if no tool repeats a name or is quarantined and each can be called, without a
   warning, under its listed definition the moment it was inspected; otherwise the answer is that of the
   last repeated or quarantined tool, or else of the first that cannot be called.
   */
  lemma ListIsExposedExactly(env: Env, server: string, s: State, tools: seq<Json>, late: nat -> seq<Step>)
    requires GoodHashes(env) && Inv(env.compile, s) && Room(s, tools, late)
    requires PossibleLate(env, server, s, tools, late)
    ensures var blocked := ScanList(env, server, s, tools, late, |tools|).blocked;
      && Answer(Fatals(env, tools, |tools|), Obstacles(env, server, s, tools, late, |tools|), blocked)
      && (blocked.None? <==> forall j: nat | j < |tools| ::
            Fatal(env, tools, j).None? && ObstacleAt(env, server, s, tools, late, j).None?)
  {
    ScanAnswers(env, server, s, tools, late, |tools|);
    var fatals, obstacles := Fatals(env, tools, |tools|), Obstacles(env, server, s, tools, late, |tools|);
    forall j: nat | j < |tools|
      ensures fatals[j] == Fatal(env, tools, j) && obstacles[j] == ObstacleAt(env, server, s, tools, late, j)
    {
    }
  }
}
