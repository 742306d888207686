/**
 The session protocol as a transition system.  Definitions are observed or rejected in any order,
 reports of changes are in flight for arbitrarily long, and their verdicts arrive in any order.
 Ghost state remembers what was last observed, what was ever trusted, and which revisions were
 decided or found unreachable.
 */
module Protocol {
  import opened Wrappers
  import opened Json
  import opened Events
  import opened Pins

  /** What compiling the `inputSchema` of a definition yields, as a function of its hash.  The schema
      cache keeps successes by def_hash, so a hash that compiled once compiles ever after.  A hash that
      failed is compiled again, under the same resource URL: that it fails again rests on the compiler
      refusing a second resource at that URL, and the text of the error may then differ, which the
      model leaves out; it shows in the reasons of events only. */
  datatype Compiled = Compiled(schema: Option<Json>, error: string)
  type Compiler = Hash -> Compiled

  /** A change report on its way to the control plane and back. */
  datatype Report = Report(key: string, revision: nat, oldHash: Hash, newHash: Hash)

  datatype State = State(
    pinned: Pinned,
    nextChange: nat,
    lastSeen: map<string, Option<Hash>>,
    trusted: set<(string, Hash)>,
    inFlight: multiset<Report>,
    unreached: set<nat>,
    decided: set<nat>)

  datatype Step =
    | ObserveStep(server: string, name: string, tool: Json, defHash: Hash)
    | RejectStep(rejectServer: string, rejectName: string, why: string)
    | DeliverStep(deliverServer: string, deliverName: string, report: Report, unreachable: bool, verdict: string,
                  reason: string)

  const INIT := State(map[], 0, map[], {}, multiset{}, {}, {})

  predicate Enabled(s: State, step: Step) {
    match step
    case ObserveStep(_, _, _, h) => h != ""
    case RejectStep(_, _, why) => why != ""
    case DeliverStep(server, name, r, _, _, _) => r in s.inFlight && r.key == Key(server, name)
  }

  function ObserveNext(c: Compiler, s: State, server: string, name: string, tool: Json, h: Hash): State {
    var key := Key(server, name);
    var o := Observe(s.pinned, s.nextChange, server, name, tool, h, c(h).schema, c(h).error);
    var a := o.outcome.action;
    s.(pinned := o.pinned,
       nextChange := o.nextChange,
       lastSeen := s.lastSeen[key := Some(h)],
       trusted := if a == ActPinned then s.trusted + {(key, h)} else s.trusted,
       inFlight := if a == ActMismatch || a == ActRetry then
                     s.inFlight + multiset{Report(key, o.outcome.revision, o.outcome.oldHash, o.outcome.newHash)}
                   else s.inFlight)
  }

  function RejectNext(s: State, server: string, name: string, why: string): State {
    s.(pinned := Reject(s.pinned, server, name, why),
       lastSeen := s.lastSeen[Key(server, name) := None])
  }

  function DeliverNext(s: State, server: string, name: string, r: Report, unreachable: bool, verdict: string,
                       reason: string): State
  {
    var a := Apply(s.pinned, server, name, r.revision, unreachable, verdict, reason);
    s.(pinned := a.pinned,
       inFlight := s.inFlight - multiset{r},
       trusted := if a.effect == Resumed then s.trusted + {(r.key, r.newHash)} else s.trusted,
       unreached := if a.effect == MarkedUnreachable then s.unreached + {r.revision} else s.unreached,
       decided := if a.effect == Resumed || a.effect == StaysBlocked then s.decided + {r.revision} else s.decided)
  }

  function Next(c: Compiler, s: State, step: Step): State {
    match step
    case ObserveStep(server, name, tool, h) => ObserveNext(c, s, server, name, tool, h)
    case RejectStep(server, name, why) => RejectNext(s, server, name, why)
    case DeliverStep(server, name, r, unreachable, verdict, reason) =>
      DeliverNext(s, server, name, r, unreachable, verdict, reason)
  }

  function Run(c: Compiler, s: State, steps: seq<Step>): State {
    if steps == [] then s else Next(c, Run(c, s, steps[..|steps| - 1]), steps[|steps| - 1])
  }

  predicate Possible(c: Compiler, s: State, steps: seq<Step>) {
    steps == []
    || (Possible(c, s, steps[..|steps| - 1]) && Enabled(Run(c, s, steps[..|steps| - 1]), steps[|steps| - 1]))
  }

  // ----- the invariant -----

  /** A pin is what its hash says it is: compiled from it, and trusted if it compiles. */
  ghost predicate PinOk(c: Compiler, s: State, key: string, p: PinnedTool) {
    && key in s.lastSeen
    && (if p.defHash == "" then p.schemaError != ""
        else p.schema == c(p.defHash).schema && p.schemaError == c(p.defHash).error && p.risk == RiskClass(p.tool))
    && (p.schemaError == "" ==> (key, p.defHash) in s.trusted)
    && (s.lastSeen[key].None? <==> p.invalidDefinition != "")
    && (p.invalidDefinition != "" ==> p.suspended && p.pending.None?)
    && (!p.suspended ==> p.pending.None? && p.schemaError == "" && s.lastSeen[key] == Some(p.defHash))
    && (p.suspended && p.pending.None? && p.invalidDefinition == "" ==> p.schemaError != "")
  }

  /** A pending change is the definition last seen (unless the pin never compiled), and its marks
      agree with what was delivered. */
  ghost predicate PendingOk(c: Compiler, s: State, key: string, p: PinnedTool, d: PendingChange) {
    && p.suspended
    && d.newHash != p.defHash && d.newHash != ""
    && d.newSchema == c(d.newHash).schema && d.schemaError == c(d.newHash).error && d.risk == RiskClass(d.newTool)
    && 0 < d.revision <= s.nextChange
    && (p.schemaError == "" ==> key in s.lastSeen && s.lastSeen[key] == Some(d.newHash))
    && (p.schemaError != "" ==> d.schemaError != "")
    && (d.verdictApplied <==> d.revision in s.decided)
    && (d.unreachable ==> d.revision in s.unreached)
  }

  function ReportOf(key: string, p: PinnedTool, d: PendingChange): Report {
    Report(key, d.revision, p.defHash, d.newHash)
  }

  /** Exactly one report of a valid undecided change is in flight, unless it is marked unreachable. */
  ghost predicate ReportsOk(s: State, key: string, p: PinnedTool, d: PendingChange) {
    && (forall r | r in s.inFlight && r.revision == d.revision :: r == ReportOf(key, p, d))
    && s.inFlight[ReportOf(key, p, d)]
       == if d.schemaError == "" && !d.unreachable && !d.verdictApplied then 1 else 0
  }

  ghost predicate KeyOk(c: Compiler, s: State, k: string)
    requires k in s.pinned
  {
    && PinOk(c, s, k, s.pinned[k])
    && (s.pinned[k].pending.Some? ==>
          && PendingOk(c, s, k, s.pinned[k], s.pinned[k].pending.value)
          && ReportsOk(s, k, s.pinned[k], s.pinned[k].pending.value))
  }

  /** The revision of the change pending under `k`, or 0, which is never a revision. */
  function RevisionAt(pinned: Pinned, k: string): nat {
    if k in pinned && pinned[k].pending.Some? then pinned[k].pending.value.revision else 0
  }

  ghost predicate RevisionsOk(s: State) {
    && (forall j, k | j in s.pinned && k in s.pinned && j != k && s.pinned[j].pending.Some? ::
          RevisionAt(s.pinned, j) != RevisionAt(s.pinned, k))
    && (forall r | r in s.inFlight :: 0 < r.revision <= s.nextChange && r.key in s.pinned)
    && (forall n | n in s.decided :: n <= s.nextChange)
    && (forall n | n in s.unreached :: n <= s.nextChange)
  }

  ghost predicate Inv(c: Compiler, s: State) {
    && s.lastSeen.Keys == s.pinned.Keys
    && (forall k | k in s.pinned :: KeyOk(c, s, k))
    && RevisionsOk(s)
  }

  // ----- one step touches one key and one revision -----

  /** `t` differs from `s` only at `key` and in the marks and reports of revision `rev`. */
  ghost predicate Touches(s: State, t: State, key: string, rev: nat) {
    && t.pinned.Keys == s.pinned.Keys + {key}
    && t.lastSeen.Keys == t.pinned.Keys
    && (forall k | k in s.pinned && k != key ::
          t.pinned[k] == s.pinned[k] && k in s.lastSeen && t.lastSeen[k] == s.lastSeen[k])
    && s.trusted <= t.trusted
    && s.nextChange <= t.nextChange
    && (forall n | n != rev :: (n in t.decided <==> n in s.decided) && (n in t.unreached <==> n in s.unreached))
    && (forall r: Report | r.revision != rev :: t.inFlight[r] == s.inFlight[r])
    && (forall k | k in s.pinned && k != key && s.pinned[k].pending.Some? :: RevisionAt(s.pinned, k) != rev)
  }

  lemma OthersKeepOk(c: Compiler, s: State, t: State, key: string, rev: nat, k: string)
    requires Inv(c, s) && Touches(s, t, key, rev) && k in s.pinned && k != key
    ensures KeyOk(c, t, k)
  {
    assert KeyOk(c, s, k);
    if s.pinned[k].pending.Some? {
      var d := s.pinned[k].pending.value;
      assert RevisionAt(s.pinned, k) == d.revision != rev;
      forall r | r in t.inFlight && r.revision == d.revision ensures r == ReportOf(k, t.pinned[k], d) {
        assert s.inFlight[r] == t.inFlight[r];
      }
    }
  }

  /** The invariant survives a step once it holds at the touched key. */
  lemma TouchKeepsInv(c: Compiler, s: State, t: State, key: string, rev: nat)
    requires Inv(c, s) && Touches(s, t, key, rev) && KeyOk(c, t, key)
    requires rev <= t.nextChange
    requires forall r | r in t.inFlight && r.revision == rev :: rev > 0 && r.key in t.pinned
    requires t.pinned[key].pending.Some? ==>
               RevisionAt(t.pinned, key) == rev || RevisionAt(t.pinned, key) == RevisionAt(s.pinned, key)
    ensures Inv(c, t)
  {
    TouchKeepsKeys(c, s, t, key, rev);
    PendingRevisionsPositive(c, t);
    TouchKeepsRevisions(c, s, t, key, rev);
    assert t.lastSeen.Keys == t.pinned.Keys;
  }

  lemma PendingRevisionsPositive(c: Compiler, t: State)
    requires forall k | k in t.pinned :: KeyOk(c, t, k)
    ensures forall k | k in t.pinned && t.pinned[k].pending.Some? :: RevisionAt(t.pinned, k) > 0
  {
    forall k | k in t.pinned && t.pinned[k].pending.Some? ensures RevisionAt(t.pinned, k) > 0 {
      assert KeyOk(c, t, k);
    }
  }

  lemma TouchKeepsKeys(c: Compiler, s: State, t: State, key: string, rev: nat)
    requires Inv(c, s) && Touches(s, t, key, rev) && KeyOk(c, t, key)
    ensures forall k | k in t.pinned :: KeyOk(c, t, k)
  {
    forall k | k in t.pinned ensures KeyOk(c, t, k) {
      if k != key {
        OthersKeepOk(c, s, t, key, rev, k);
      }
    }
  }

  lemma TouchKeepsRevisions(c: Compiler, s: State, t: State, key: string, rev: nat)
    requires RevisionsOk(s) && Touches(s, t, key, rev)
    requires rev <= t.nextChange
    requires forall r | r in t.inFlight && r.revision == rev :: rev > 0 && r.key in t.pinned
    requires t.pinned[key].pending.Some? ==>
               RevisionAt(t.pinned, key) == rev || RevisionAt(t.pinned, key) == RevisionAt(s.pinned, key)
    requires forall k | k in t.pinned && t.pinned[k].pending.Some? :: RevisionAt(t.pinned, k) > 0
    ensures RevisionsOk(t)
  {
    forall k | k in t.pinned && k != key && t.pinned[key].pending.Some?
      ensures RevisionAt(t.pinned, k) != RevisionAt(t.pinned, key)
    {
      assert RevisionAt(t.pinned, k) == RevisionAt(s.pinned, k);
    }
    forall k | k in t.pinned && k != key && t.pinned[k].pending.Some?
      ensures RevisionAt(t.pinned, k) != RevisionAt(t.pinned, key)
    {
      assert RevisionAt(t.pinned, k) == RevisionAt(s.pinned, k);
    }
    forall j, k | j in t.pinned && k in t.pinned && j != k && t.pinned[j].pending.Some?
      ensures RevisionAt(t.pinned, j) != RevisionAt(t.pinned, k)
    {
      if j != key && k != key {
        assert RevisionAt(s.pinned, j) != RevisionAt(s.pinned, k);
      }
    }
    forall r | r in t.inFlight ensures 0 < r.revision <= t.nextChange && r.key in t.pinned {
      if r.revision != rev {
        assert s.inFlight[r] == t.inFlight[r];
      }
    }
  }

  lemma FreshRevision(c: Compiler, s: State, k: string)
    requires Inv(c, s) && k in s.pinned
    ensures RevisionAt(s.pinned, k) <= s.nextChange
    ensures s.pinned[k].pending.Some? ==> RevisionAt(s.pinned, k) > 0
  {
    assert KeyOk(c, s, k);
  }

  lemma RevisionsArePositive(c: Compiler, s: State)
    requires Inv(c, s)
    ensures forall k | k in s.pinned ::
              RevisionAt(s.pinned, k) <= s.nextChange && (s.pinned[k].pending.Some? ==> RevisionAt(s.pinned, k) > 0)
  {
    forall k | k in s.pinned
      ensures RevisionAt(s.pinned, k) <= s.nextChange && (s.pinned[k].pending.Some? ==> RevisionAt(s.pinned, k) > 0)
    {
      FreshRevision(c, s, k);
    }
  }

  /** Pinning a definition that compiles, or one that does not, under a key without a pending change. */
  lemma FreshPinKeepsInv(c: Compiler, s: State, key: string, tool: Json, h: Hash)
    requires Inv(c, s) && h != ""
    ensures Inv(c, s.(pinned := s.pinned[key := FreshPin(tool, h, c(h).schema, c(h).error)],
                      lastSeen := s.lastSeen[key := Some(h)],
                      trusted := if c(h).error == "" then s.trusted + {(key, h)} else s.trusted))
  {
    RevisionsArePositive(c, s);
    var t := s.(pinned := s.pinned[key := FreshPin(tool, h, c(h).schema, c(h).error)],
                lastSeen := s.lastSeen[key := Some(h)],
                trusted := if c(h).error == "" then s.trusted + {(key, h)} else s.trusted);
    assert Touches(s, t, key, 0);
    assert KeyOk(c, t, key);
    TouchKeepsInv(c, s, t, key, 0);
  }

  lemma SameHashKeepsInv(c: Compiler, s: State, server: string, name: string, tool: Json, h: Hash)
    requires Inv(c, s) && h != "" && s.nextChange + 1 < REVISIONS
    requires Key(server, name) in s.pinned && s.pinned[Key(server, name)].defHash == h
    ensures Inv(c, ObserveNext(c, s, server, name, tool, h))
  {
    var key := Key(server, name);
    RevisionsArePositive(c, s);
    assert KeyOk(c, s, key);
    SameHashShape(c, s, server, name, tool, h);
    TouchKeepsInv(c, s, ObserveNext(c, s, server, name, tool, h), key, 0);
  }

  lemma SameHashShape(c: Compiler, s: State, server: string, name: string, tool: Json, h: Hash)
    requires h != "" && Key(server, name) in s.pinned && s.pinned[Key(server, name)].defHash == h
    requires s.lastSeen.Keys == s.pinned.Keys && KeyOk(c, s, Key(server, name))
    requires forall k | k in s.pinned && s.pinned[k].pending.Some? :: RevisionAt(s.pinned, k) > 0
    ensures var t := ObserveNext(c, s, server, name, tool, h);
      && Touches(s, t, Key(server, name), 0) && KeyOk(c, t, Key(server, name)) && t.inFlight == s.inFlight
      && (t.pinned[Key(server, name)].pending.Some? ==>
            RevisionAt(t.pinned, Key(server, name)) == RevisionAt(s.pinned, Key(server, name)))
  {
  }

  /** Marking the pending change reachable again comes with exactly one new report. */
  lemma RetryKeepsInv(c: Compiler, s: State, key: string)
    requires Inv(c, s) && key in s.pinned && s.pinned[key].pending.Some?
    requires s.pinned[key].schemaError == "" && s.pinned[key].invalidDefinition == ""
    requires var d := s.pinned[key].pending.value; d.schemaError == "" && d.unreachable && !d.verdictApplied
    ensures var p, d := s.pinned[key], s.pinned[key].pending.value;
            Inv(c, s.(pinned := s.pinned[key := p.(pending := Some(d.(unreachable := false)))],
                      lastSeen := s.lastSeen[key := Some(d.newHash)],
                      inFlight := s.inFlight + multiset{ReportOf(key, p, d)}))
  {
    assert KeyOk(c, s, key);
    RevisionsArePositive(c, s);
    var p, d := s.pinned[key], s.pinned[key].pending.value;
    var p' := p.(pending := Some(d.(unreachable := false)));
    var t := s.(pinned := s.pinned[key := p'],
                lastSeen := s.lastSeen[key := Some(d.newHash)],
                inFlight := s.inFlight + multiset{ReportOf(key, p, d)});
    assert RevisionAt(s.pinned, key) == d.revision;
    assert Touches(s, t, key, d.revision);
    assert ReportOf(key, p', p'.pending.value) == ReportOf(key, p, d);
    assert ReportsOk(t, key, p', p'.pending.value);
    TouchKeepsInv(c, s, t, key, d.revision);
  }

  /** Seeing the pending change again, with its report still out or its verdict known. */
  lemma SeenAgainQuietly(c: Compiler, s: State, key: string)
    requires Inv(c, s) && key in s.pinned && s.pinned[key].pending.Some?
    requires s.pinned[key].invalidDefinition == ""
    ensures Inv(c, s.(lastSeen := s.lastSeen[key := Some(s.pinned[key].pending.value.newHash)]))
  {
    assert KeyOk(c, s, key);
    RevisionsArePositive(c, s);
    var t := s.(lastSeen := s.lastSeen[key := Some(s.pinned[key].pending.value.newHash)]);
    assert Touches(s, t, key, 0);
    TouchKeepsInv(c, s, t, key, 0);
  }

  /** A new change takes a revision no report carries yet. */
  lemma NewChangeKeepsInv(c: Compiler, s: State, key: string, tool: Json, h: Hash)
    requires Inv(c, s) && key in s.pinned && h != "" && s.pinned[key].defHash != h
    requires !(s.pinned[key].schemaError != "" && c(h).error == "")
    ensures var p := s.pinned[key].(invalidDefinition := "");
            var d := PendingChange(s.nextChange + 1, h, tool, c(h).schema, c(h).error, RiskClass(tool), false, false);
            Inv(c, s.(pinned := s.pinned[key := p.(suspended := true, pending := Some(d))],
                      nextChange := s.nextChange + 1,
                      lastSeen := s.lastSeen[key := Some(h)],
                      inFlight := if d.schemaError == "" then s.inFlight + multiset{ReportOf(key, p, d)}
                        else s.inFlight))
  {
    assert KeyOk(c, s, key);
    RevisionsArePositive(c, s);
    var rev := s.nextChange + 1;
    var p := s.pinned[key].(invalidDefinition := "");
    var d := PendingChange(rev, h, tool, c(h).schema, c(h).error, RiskClass(tool), false, false);
    var p' := p.(suspended := true, pending := Some(d));
    var t := s.(pinned := s.pinned[key := p'], nextChange := rev, lastSeen := s.lastSeen[key := Some(h)],
                inFlight := if d.schemaError == "" then s.inFlight + multiset{ReportOf(key, p, d)} else s.inFlight);
    assert Touches(s, t, key, rev);
    assert ReportOf(key, p', d) == ReportOf(key, p, d);
    assert PendingOk(c, t, key, p', d);
    NewReportIsAlone(c, s, t, key, p', d);
    TouchKeepsInv(c, s, t, key, rev);
  }

  /** A report under a new revision is the only one of that revision. */
  lemma NewReportIsAlone(c: Compiler, s: State, t: State, key: string, p: PinnedTool, d: PendingChange)
    requires Inv(c, s) && d.revision == s.nextChange + 1 && !d.unreachable && !d.verdictApplied
    requires t.inFlight == if d.schemaError == "" then s.inFlight + multiset{ReportOf(key, p, d)} else s.inFlight
    ensures ReportsOk(t, key, p, d)
  {
    RevisionsArePositive(c, s);
    forall r | r in s.inFlight ensures r.revision != d.revision {}
    assert ReportOf(key, p, d) !in s.inFlight;
  }

  /** The five cases of an observation, each written as the state it leads to. */
  lemma PinShape(c: Compiler, s: State, server: string, name: string, tool: Json, h: Hash)
    requires var k := Key(server, name);
             k !in s.pinned || (s.pinned[k].defHash != h && s.pinned[k].schemaError != "" && c(h).error == "")
    ensures var k := Key(server, name);
            ObserveNext(c, s, server, name, tool, h)
            == s.(pinned := s.pinned[k := FreshPin(tool, h, c(h).schema, c(h).error)],
                  lastSeen := s.lastSeen[k := Some(h)],
                  trusted := if c(h).error == "" then s.trusted + {(k, h)} else s.trusted)
  {
  }

  predicate SeenAgain(c: Compiler, s: State, k: string, h: Hash) {
    && k in s.pinned && s.pinned[k].defHash != h
    && !(s.pinned[k].schemaError != "" && c(h).error == "")
    && s.pinned[k].pending.Some? && s.pinned[k].pending.value.newHash == h
    && s.pinned[k].invalidDefinition == ""
  }

  predicate NeedsRetry(d: PendingChange) {
    d.schemaError == "" && d.unreachable && !d.verdictApplied
  }

  lemma QuietShape(c: Compiler, s: State, server: string, name: string, tool: Json, h: Hash)
    requires SeenAgain(c, s, Key(server, name), h) && !NeedsRetry(s.pinned[Key(server, name)].pending.value)
    ensures ObserveNext(c, s, server, name, tool, h) == s.(lastSeen := s.lastSeen[Key(server, name) := Some(h)])
  {
    var k := Key(server, name);
    var p := s.pinned[k];
    assert p.(invalidDefinition := "") == p;
    assert s.pinned[k := p] == s.pinned;
  }

  lemma RetryShape(c: Compiler, s: State, server: string, name: string, tool: Json, h: Hash)
    requires SeenAgain(c, s, Key(server, name), h) && NeedsRetry(s.pinned[Key(server, name)].pending.value)
    ensures var k := Key(server, name);
            var p, d := s.pinned[k], s.pinned[k].pending.value;
            ObserveNext(c, s, server, name, tool, h)
            == s.(pinned := s.pinned[k := p.(pending := Some(d.(unreachable := false)))],
                  lastSeen := s.lastSeen[k := Some(h)],
                  inFlight := s.inFlight + multiset{ReportOf(k, p, d)})
  {
    var p := s.pinned[Key(server, name)];
    assert p.(invalidDefinition := "") == p;
  }

  lemma MismatchShape(c: Compiler, s: State, server: string, name: string, tool: Json, h: Hash)
    requires var k := Key(server, name);
             && k in s.pinned && s.pinned[k].defHash != h
             && !(s.pinned[k].schemaError != "" && c(h).error == "")
             && !(s.pinned[k].pending.Some? && s.pinned[k].pending.value.newHash == h)
    requires s.nextChange + 1 < REVISIONS
    ensures var k := Key(server, name);
            var p := s.pinned[k].(invalidDefinition := "");
            var d := PendingChange(s.nextChange + 1, h, tool, c(h).schema, c(h).error, RiskClass(tool), false, false);
            ObserveNext(c, s, server, name, tool, h)
            == s.(pinned := s.pinned[k := p.(suspended := true, pending := Some(d))],
                  nextChange := s.nextChange + 1,
                  lastSeen := s.lastSeen[k := Some(h)],
                  inFlight := if d.schemaError == "" then s.inFlight + multiset{ReportOf(k, p, d)} else s.inFlight)
  {
  }

  lemma ObserveKeepsInv(c: Compiler, s: State, server: string, name: string, tool: Json, h: Hash)
    requires Inv(c, s) && h != "" && s.nextChange + 1 < REVISIONS
    ensures Inv(c, ObserveNext(c, s, server, name, tool, h))
  {
    var key := Key(server, name);
    if key in s.pinned {
      assert KeyOk(c, s, key);
    }
    if key in s.pinned && s.pinned[key].defHash == h {
      SameHashKeepsInv(c, s, server, name, tool, h);
    } else if key !in s.pinned || (s.pinned[key].schemaError != "" && c(h).error == "") {
      PinShape(c, s, server, name, tool, h);
      FreshPinKeepsInv(c, s, key, tool, h);
    } else if s.pinned[key].pending.Some? && s.pinned[key].pending.value.newHash == h {
      assert SeenAgain(c, s, key, h);
      if NeedsRetry(s.pinned[key].pending.value) {
        RetryShape(c, s, server, name, tool, h);
        RetryKeepsInv(c, s, key);
      } else {
        QuietShape(c, s, server, name, tool, h);
        SeenAgainQuietly(c, s, key);
      }
    } else {
      MismatchShape(c, s, server, name, tool, h);
      NewChangeKeepsInv(c, s, key, tool, h);
    }
  }

  lemma RejectKeepsInv(c: Compiler, s: State, server: string, name: string, why: string)
    requires Inv(c, s) && why != ""
    ensures Inv(c, RejectNext(s, server, name, why))
  {
    var key := Key(server, name);
    var t := RejectNext(s, server, name, why);
    forall k | k in s.pinned && s.pinned[k].pending.Some? ensures RevisionAt(s.pinned, k) > 0 {
      FreshRevision(c, s, k);
    }
    if key in s.pinned {
      assert KeyOk(c, s, key);
    }
    TouchKeepsInv(c, s, t, key, 0);
  }

  /** A report that matches a pending change belongs to that change's key. */
  lemma MatchingReport(c: Compiler, s: State, r: Report, k: string)
    requires Inv(c, s) && r in s.inFlight && k in s.pinned && s.pinned[k].pending.Some?
    requires s.pinned[k].pending.value.revision == r.revision
    ensures r == ReportOf(k, s.pinned[k], s.pinned[k].pending.value) && r.key == k
    ensures s.inFlight[r] == 1
    ensures !s.pinned[k].pending.value.verdictApplied && !s.pinned[k].pending.value.unreachable
    ensures s.pinned[k].pending.value.schemaError == ""
  {
    assert KeyOk(c, s, k);
    assert s.inFlight[r] > 0;
  }

  /** Only the reported key and revision are touched by a verdict. */
  lemma DeliverTouches(c: Compiler, s: State, t: State, r: Report)
    requires Inv(c, s) && r in s.inFlight
    requires t.pinned.Keys == s.pinned.Keys && forall k | k in s.pinned && k != r.key :: t.pinned[k] == s.pinned[k]
    requires t.lastSeen == s.lastSeen && t.nextChange == s.nextChange && s.trusted <= t.trusted
    requires t.inFlight == s.inFlight - multiset{r}
    requires s.unreached <= t.unreached <= s.unreached + {r.revision}
    requires s.decided <= t.decided <= s.decided + {r.revision}
    ensures Touches(s, t, r.key, r.revision)
  {
    forall k | k in s.pinned && k != r.key && s.pinned[k].pending.Some? ensures RevisionAt(s.pinned, k) != r.revision {
      if s.pinned[k].pending.value.revision == r.revision {
        MatchingReport(c, s, r, k);
      }
    }
  }

  /** `t` follows `s` by delivering the report of the pending change: unreachable, kept blocked, or resumed. */
  ghost predicate Delivered(s: State, t: State, r: Report)
    requires r.key in s.pinned && s.pinned[r.key].pending.Some?
  {
    var p, d := s.pinned[r.key], s.pinned[r.key].pending.value;
    && (|| (t.pinned == s.pinned[r.key := p.(pending := Some(d.(unreachable := true)))]
            && t.trusted == s.trusted && t.unreached == s.unreached + {r.revision} && t.decided == s.decided)
        || (t.pinned == s.pinned[r.key := p.(pending := Some(d.(verdictApplied := true)))]
            && t.trusted == s.trusted && t.unreached == s.unreached && t.decided == s.decided + {r.revision})
        || (t.pinned == s.pinned[r.key := PinnedTool(d.newHash, d.newTool, d.newSchema, "", "", d.risk, false, None)]
            && t.trusted == s.trusted + {(r.key, r.newHash)} && t.unreached == s.unreached
            && t.decided == s.decided + {r.revision}))
    && t.lastSeen == s.lastSeen && t.nextChange == s.nextChange && t.inFlight == s.inFlight - multiset{r}
  }

  /** A verdict for the current change: marked, kept blocked, or made the new pin. */
  lemma MatchedDelivery(c: Compiler, s: State, t: State, r: Report)
    requires Inv(c, s) && r in s.inFlight && r.key in s.pinned && s.pinned[r.key].pending.Some?
    requires s.pinned[r.key].pending.value.revision == r.revision
    requires Delivered(s, t, r)
    ensures Inv(c, t)
  {
    MatchedKeyOk(c, s, t, r);
    DeliverTouches(c, s, t, r);
    TouchKeepsInv(c, s, t, r.key, r.revision);
  }

  lemma MatchedKeyOk(c: Compiler, s: State, t: State, r: Report)
    requires Inv(c, s) && r in s.inFlight && r.key in s.pinned && s.pinned[r.key].pending.Some?
    requires s.pinned[r.key].pending.value.revision == r.revision
    requires Delivered(s, t, r)
    ensures KeyOk(c, t, r.key)
  {
    MatchingReport(c, s, r, r.key);
    assert KeyOk(c, s, r.key);
  }

  /** A report whose revision is not the pending one changes nothing but the reports in flight. */
  lemma StaleDelivery(c: Compiler, s: State, t: State, r: Report)
    requires Inv(c, s) && r in s.inFlight && r.key in s.pinned
    requires s.pinned[r.key].pending.Some? ==> s.pinned[r.key].pending.value.revision != r.revision
    requires t == s.(inFlight := s.inFlight - multiset{r})
    ensures Inv(c, t)
  {
    assert KeyOk(c, s, r.key);
    DeliverTouches(c, s, t, r);
    assert KeyOk(c, t, r.key) by {
      if s.pinned[r.key].pending.Some? {
        var d := s.pinned[r.key].pending.value;
        assert forall q: Report | q.revision == d.revision :: t.inFlight[q] == s.inFlight[q];
      }
    }
    TouchKeepsInv(c, s, t, r.key, r.revision);
  }

  lemma DeliverKeepsInv(c: Compiler, s: State, server: string, name: string, r: Report,
                        unreachable: bool, verdict: string, reason: string)
    requires Inv(c, s) && r in s.inFlight && r.key == Key(server, name)
    ensures Inv(c, DeliverNext(s, server, name, r, unreachable, verdict, reason))
  {
    var t := DeliverNext(s, server, name, r, unreachable, verdict, reason);
    var p := s.pinned[r.key];
    if p.pending.Some? && p.pending.value.revision == r.revision {
      MatchingReport(c, s, r, r.key);
      MatchedDelivery(c, s, t, r);
    } else {
      StaleDelivery(c, s, t, r);
    }
  }

  // ----- runs -----

  lemma StepKeepsInv(c: Compiler, s: State, step: Step)
    requires Inv(c, s) && Enabled(s, step) && s.nextChange + 1 < REVISIONS
    ensures Inv(c, Next(c, s, step))
  {
    match step
    case ObserveStep(server, name, tool, h) =>
      ObserveKeepsInv(c, s, server, name, tool, h);
    case RejectStep(server, name, why) =>
      RejectKeepsInv(c, s, server, name, why);
    case DeliverStep(server, name, r, unreachable, verdict, reason) =>
      DeliverKeepsInv(c, s, server, name, r, unreachable, verdict, reason);
  }

  lemma RevisionsGrowByOne(c: Compiler, s: State, step: Step)
    requires s.nextChange + 1 < REVISIONS
    ensures Next(c, s, step).nextChange <= s.nextChange + 1
  {
  }

  /** Every reachable state meets the invariant, as long as the revision counter has not wrapped. */
  lemma {:induction false} RunKeepsInv(c: Compiler, steps: seq<Step>)
    requires Possible(c, INIT, steps) && |steps| < REVISIONS
    ensures Inv(c, Run(c, INIT, steps)) && Run(c, INIT, steps).nextChange <= |steps|
  {
    if steps != [] {
      var front, last := steps[..|steps| - 1], steps[|steps| - 1];
      RunKeepsInv(c, front);
      StepKeepsInv(c, Run(c, INIT, front), last);
      RevisionsGrowByOne(c, Run(c, INIT, front), last);
    } else {
      InitInv(c);
    }
  }

  lemma InitInv(c: Compiler)
    ensures Inv(c, INIT)
  {
  }

  /** A step concerns the pair stored under `key`. */
  predicate Observes(step: Step, key: string) {
    step.ObserveStep? && Key(step.server, step.name) == key
  }

  /** `h` is the first definition observed for `key` whose schema compiles, at step `i`. */
  predicate FirstValid(c: Compiler, steps: seq<Step>, i: nat, key: string, h: Hash)
    requires i < |steps|
  {
    && Observes(steps[i], key) && steps[i].defHash == h && c(h).error == ""
    && forall j | 0 <= j < i :: Observes(steps[j], key) ==> c(steps[j].defHash).error != ""
  }

  /** The report is the one of the change that is pending. */
  predicate Current(s: State, r: Report) {
    && r.key in s.pinned && s.pinned[r.key].pending.Some?
    && ReportOf(r.key, s.pinned[r.key], s.pinned[r.key].pending.value) == r
  }

  /** The step delivers a resume or warn verdict on the change of `key` to `h` that is pending. */
  predicate Clears(s: State, step: Step, key: string, h: Hash) {
    && step.DeliverStep? && step.report.key == key && step.report.newHash == h
    && !step.unreachable && (step.verdict == "resume" || step.verdict == "warn")
    && Current(s, step.report)
  }

  predicate Cleared(c: Compiler, steps: seq<Step>, i: nat, key: string, h: Hash)
    requires i < |steps|
  {
    Clears(Run(c, INIT, steps[..i]), steps[i], key, h)
  }

  predicate TrustEarned(c: Compiler, steps: seq<Step>, key: string, h: Hash) {
    exists i | 0 <= i < |steps| :: FirstValid(c, steps, i, key, h) || Cleared(c, steps, i, key, h)
  }

  /** A key without a compiling pin has seen no compiling definition. */
  lemma {:induction false} NoValidYet(c: Compiler, steps: seq<Step>, key: string)
    requires Possible(c, INIT, steps) && |steps| < REVISIONS
    requires Unpinned(Run(c, INIT, steps).pinned, key)
    ensures SawNoValid(c, steps, key)
  {
    if steps != [] {
      var front := steps[..|steps| - 1];
      RunKeepsInv(c, front);
      LastPin(c, steps, key);
      NoValidYet(c, front, key);
      SawNoneStill(c, steps, key);
    }
  }

  predicate SawNoValid(c: Compiler, steps: seq<Step>, key: string) {
    forall i | 0 <= i < |steps| :: Observes(steps[i], key) ==> c(steps[i].defHash).error != ""
  }

  lemma SawNoneStill(c: Compiler, steps: seq<Step>, key: string)
    requires steps != [] && SawNoValid(c, steps[..|steps| - 1], key)
    requires Observes(steps[|steps| - 1], key) ==> c(steps[|steps| - 1].defHash).error != ""
    ensures SawNoValid(c, steps, key)
  {
    forall i | 0 <= i < |steps| && Observes(steps[i], key) ensures c(steps[i].defHash).error != "" {
      assert i < |steps| - 1 ==> steps[..|steps| - 1][i] == steps[i];
    }
  }

  lemma LastPin(c: Compiler, steps: seq<Step>, key: string)
    requires steps != [] && Possible(c, INIT, steps) && Inv(c, Run(c, INIT, steps[..|steps| - 1]))
    requires Unpinned(Run(c, INIT, steps).pinned, key)
    ensures Unpinned(Run(c, INIT, steps[..|steps| - 1]).pinned, key)
    ensures Observes(steps[|steps| - 1], key) ==> c(steps[|steps| - 1].defHash).error != ""
  {
    PinsStayCompiled(c, Run(c, INIT, steps[..|steps| - 1]), steps[|steps| - 1], key);
  }

  /** No pin that compiles is held under `key`. */
  predicate Unpinned(pinned: Pinned, key: string) {
    key !in pinned || pinned[key].schemaError != ""
  }

  /** Once a pin compiles it stays so, and a compiling definition leaves a compiling pin. */
  lemma ObserveKeepsCompiled(pinned: Pinned, n: nat, server: string, name: string, tool: Json,
                             h: Hash, schema: Option<Json>, error: string, key: string)
    requires Unpinned(Observe(pinned, n, server, name, tool, h, schema, error).pinned, key)
    ensures Unpinned(pinned, key)
    ensures Key(server, name) == key ==> error != "" || (key in pinned && pinned[key].defHash == h)
  {
  }

  /** A definition is pinned exactly when it compiles and no compiling pin was there. */
  lemma ObservePins(pinned: Pinned, n: nat, server: string, name: string, tool: Json,
                    h: Hash, schema: Option<Json>, error: string)
    ensures var key := Key(server, name);
            Observe(pinned, n, server, name, tool, h, schema, error).outcome.action == ActPinned
            <==> error == "" && Unpinned(pinned, key) && (key in pinned ==> pinned[key].defHash != h)
  {
  }

  lemma OthersKeepCompiled(c: Compiler, s: State, step: Step, key: string)
    requires !step.ObserveStep? && Unpinned(Next(c, s, step).pinned, key)
    ensures Unpinned(s.pinned, key)
  {
  }

  lemma PinsStayCompiled(c: Compiler, s: State, step: Step, key: string)
    requires Inv(c, s) && Enabled(s, step) && Unpinned(Next(c, s, step).pinned, key)
    ensures Unpinned(s.pinned, key)
    ensures Observes(step, key) ==> c(step.defHash).error != ""
  {
    if step.ObserveStep? {
      var h := step.defHash;
      ObserveKeepsCompiled(s.pinned, s.nextChange, step.server, step.name, step.tool, h, c(h).schema, c(h).error, key);
      if Observes(step, key) && key in s.pinned {
        assert KeyOk(c, s, key);
      }
    } else {
      OthersKeepCompiled(c, s, step, key);
    }
  }

  /** An observation adds what it pins, and that is the first definition that compiles. */
  lemma ObserveEarnsTrust(c: Compiler, front: seq<Step>, s: State, last: Step, key: string, h: Hash)
    requires Possible(c, INIT, front) && |front| < REVISIONS && s == Run(c, INIT, front) && last.ObserveStep?
    requires (key, h) in Next(c, s, last).trusted && (key, h) !in s.trusted
    ensures Observes(last, key) && last.defHash == h && c(h).error == ""
    ensures forall j | 0 <= j < |front| :: Observes(front[j], key) ==> c(front[j].defHash).error != ""
  {
    ObservePins(s.pinned, s.nextChange, last.server, last.name, last.tool, last.defHash, c(last.defHash).schema,
                c(last.defHash).error);
    assert Observes(last, key) && last.defHash == h;
    assert Unpinned(s.pinned, key) && c(h).error == "";
    NoValidYet(c, front, key);
  }

  /** What one step adds to the trusted set, it earns. */
  lemma StepEarnsTrust(c: Compiler, steps: seq<Step>, key: string, h: Hash)
    requires Possible(c, INIT, steps) && 0 < |steps| < REVISIONS
    requires (key, h) in Run(c, INIT, steps).trusted
    requires (key, h) !in Run(c, INIT, steps[..|steps| - 1]).trusted
    ensures TrustEarned(c, steps, key, h)
  {
    var n := |steps| - 1;
    var front, last := steps[..n], steps[n];
    var s := Run(c, INIT, front);
    if last.ObserveStep? {
      ObserveEarnsTrust(c, front, s, last, key, h);
      assert forall j | 0 <= j < n :: front[j] == steps[j];
      assert FirstValid(c, steps, n, key, h);
    } else {
      RunKeepsInv(c, front);
      ResumeIsCleared(c, s, last, key, h);
      assert Cleared(c, steps, n, key, h);
    }
  }

  lemma ResumeIsCleared(c: Compiler, s: State, step: Step, key: string, h: Hash)
    requires Inv(c, s) && Enabled(s, step)
    requires !step.ObserveStep? && (key, h) !in s.trusted && (key, h) in Next(c, s, step).trusted
    ensures Clears(s, step, key, h)
  {
    MatchingReport(c, s, step.report, key);
  }

  lemma TrustStays(c: Compiler, steps: seq<Step>, front: seq<Step>, key: string, h: Hash)
    requires steps != [] && front == steps[..|steps| - 1] && TrustEarned(c, front, key, h)
    ensures TrustEarned(c, steps, key, h)
  {
    var i :| 0 <= i < |front| && (FirstValid(c, front, i, key, h) || Cleared(c, front, i, key, h));
    assert steps[..i] == front[..i];
    assert forall j | 0 <= j <= i :: steps[j] == front[j];
    assert FirstValid(c, steps, i, key, h) || Cleared(c, steps, i, key, h);
  }

  /** Trusted hashes are first valid pins or targets of an applied resume or warn verdict. */
  lemma {:induction false} TrustIsEarned(c: Compiler, steps: seq<Step>, key: string, h: Hash)
    requires Possible(c, INIT, steps) && |steps| < REVISIONS
    requires (key, h) in Run(c, INIT, steps).trusted
    ensures TrustEarned(c, steps, key, h)
  {
    if steps != [] {
      var front := steps[..|steps| - 1];
      if (key, h) in Run(c, INIT, front).trusted {
        TrustIsEarned(c, front, key, h);
        TrustStays(c, steps, front, key, h);
      } else {
        StepEarnsTrust(c, steps, key, h);
      }
    }
  }

  // ----- what the protocol promises -----

  /** Whatever the interleaving, an allowed call runs under the definition last observed for the tool,
      with that definition's compiled schema.  Without a warning the definition was the first valid
      one or was cleared by a verdict; with it, both risk classes are read-only, the control plane was
      found unreachable for this change and no verdict on it was applied. */
  lemma AllowedCallsAreSafe(c: Compiler, steps: seq<Step>, server: string, name: string)
    requires Possible(c, INIT, steps) && |steps| < REVISIONS
    ensures var s, key := Run(c, INIT, steps), Key(server, name);
            var d := Prepare(s.pinned, server, name);
            d.Allowed? ==>
              && key in s.lastSeen && s.lastSeen[key] == Some(d.defHash)
              && d.schema == c(d.defHash).schema && c(d.defHash).error == ""
              && (d.code == "" ==> TrustEarned(c, steps, key, d.defHash))
              && (d.code != "" ==>
                    && d.code == UNREACHABLE_CODE
                    && RiskClass(s.pinned[key].tool) == READ_ONLY
                    && s.pinned[key].pending.Some?
                    && var p := s.pinned[key].pending.value;
                       && p.newHash == d.defHash && RiskClass(p.newTool) == READ_ONLY
                       && p.revision in s.unreached && p.revision !in s.decided)
  {
    RunKeepsInv(c, steps);
    var s, key := Run(c, INIT, steps), Key(server, name);
    var d := Prepare(s.pinned, server, name);
    if d.Allowed? {
      assert KeyOk(c, s, key);
      if d.code == "" {
        assert (key, d.defHash) in s.trusted;
        TrustIsEarned(c, steps, key, d.defHash);
      }
    }
  }

  /** A valid undecided change has exactly one report in flight unless the control plane was found
      unreachable for it; every report with its revision carries the current pin and change. */
  lemma ReportsAreAccounted(c: Compiler, steps: seq<Step>, key: string)
    requires Possible(c, INIT, steps) && |steps| < REVISIONS
    requires var p := Run(c, INIT, steps).pinned; key in p && p[key].pending.Some?
    ensures var s := Run(c, INIT, steps);
            var p, d := s.pinned[key], s.pinned[key].pending.value;
            && s.inFlight[ReportOf(key, p, d)]
              == (if d.schemaError == "" && !d.unreachable && !d.verdictApplied then 1 else 0)
            && (forall r | r in s.inFlight && r.revision == d.revision :: r == ReportOf(key, p, d))
  {
    RunKeepsInv(c, steps);
    assert KeyOk(c, Run(c, INIT, steps), key);
  }

  /** A report overtaken by a later observation changes no pin, even when the tool has since returned
      to the very definition the report is about. */
  lemma StaleVerdictIsIgnored(c: Compiler, steps: seq<Step>, server: string, name: string, r: Report,
                              unreachable: bool, verdict: string, reason: string)
    requires Possible(c, INIT, steps) && |steps| < REVISIONS
    requires r in Run(c, INIT, steps).inFlight && r.key == Key(server, name)
    ensures var s := Run(c, INIT, steps);
            var applied := Apply(s.pinned, server, name, r.revision, unreachable, verdict, reason);
            !Current(s, r) <==> applied == Applied(s.pinned, Ignored, [])
  {
    RunKeepsInv(c, steps);
    var s := Run(c, INIT, steps);
    assert KeyOk(c, s, r.key);
    if s.pinned[r.key].pending.Some? && s.pinned[r.key].pending.value.revision == r.revision {
      MatchingReport(c, s, r, r.key);
    }
  }

  /** No undecided change is lost: observing it again sends a report when none is on its way. */
  lemma UndecidedChangesAreRetried(c: Compiler, steps: seq<Step>, server: string, name: string, tool: Json)
    requires Possible(c, INIT, steps) && |steps| + 1 < REVISIONS
    requires var p, key := Run(c, INIT, steps).pinned, Key(server, name);
             && key in p && p[key].pending.Some? && p[key].schemaError == ""
             && p[key].pending.value.schemaError == "" && !p[key].pending.value.verdictApplied
    ensures var s, key := Run(c, INIT, steps), Key(server, name);
            var p, d := s.pinned[key], s.pinned[key].pending.value;
            ObserveNext(c, s, server, name, tool, d.newHash).inFlight[ReportOf(key, p, d)] == 1
  {
    RunKeepsInv(c, steps);
    var s, key := Run(c, INIT, steps), Key(server, name);
    assert KeyOk(c, s, key);
    var d := s.pinned[key].pending.value;
    assert SeenAgain(c, s, key, d.newHash);
    if NeedsRetry(d) {
      RetryShape(c, s, server, name, tool, d.newHash);
    } else {
      QuietShape(c, s, server, name, tool, d.newHash);
    }
  }

  /** A counterfactual: why the compiled schema must be a function of the hash.  If a pinned definition
      could come back and fail to compile this time, which the cache's memory of successes rules out,
      the pending change would survive, and its late approval would allow a definition that is no
      longer the one last observed. */
  lemma UnstableCompilationIsUnsafe(server: string, name: string, tool: Json)
    ensures var a := Observe(map[], 0, server, name, tool, "h1", None, "");
            var b := Observe(a.pinned, a.nextChange, server, name, tool, "h2", None, "");
            var last := Observe(b.pinned, b.nextChange, server, name, tool, "h1", None, "broken");
            var v := Apply(last.pinned, server, name, b.outcome.revision, false, "resume", "");
            Prepare(v.pinned, server, name) == Allowed("", "h2", None)
  {
  }
}
