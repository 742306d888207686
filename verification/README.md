# Verified models of the caching and trust packages

Dafny models of the repository's stateful and recursive core, with proofs about whole runs.  Check them
with `dafny verify dfyconfig.toml`.

## What is modelled

**Schema differ** (`Json`, `Schema`, `Findings`, `Differ`, `Reported`, `Renames`, `RenameMeaning`, `Refs`,
`RefMeaning`, `RefAcceptance`, `Compatibility`, `Acceptance`, `DiffGuarantees`).  JSON values are trees whose
objects list their members in dict order.  `Findings` says what each comparison reports (None where Python raises);
the loops of `Differ` are proved to report exactly that.  `Reported` says the same finding by finding, without those
functions, as `RenameMeaning` does for renames and `RefMeaning` for `$ref`s; `RefAcceptance` gives schemas with
`$ref`s a meaning of their own.  `Compatibility` is a second, independent relation on schemas, equivalent to "only
INFO findings" and, at a laxer level, to "no BREAKING finding".  `Acceptance` gives the compared keywords a meaning
on instances, where a node that states no type accepts every type.  The difflib ratios, `repr`, lower-casing and
percent-decoding are functions in a `Library` record.

**Session protocol** (`Events`, `Pins`, `Protocol`, `ProtocolHistory`, `Session`, `Gateway`, `ListAnswers`).  `Pins`
are the pin rules, `Session` is the object whose methods carry them out and emit chained events, `Protocol` is the
transition system with reports in flight as a multiset, and `Gateway` drives a session through one listing while
others use it.  `ProtocolHistory` reads calls, verdicts and audit events off the history of steps.  The compiled
schema is a function of the definition hash: the schema cache keeps successes, and a failed hash, which is compiled
again under the same resource URL, is taken to fail again with the same text.  The counterfactual
`UnstableCompilationIsUnsafe` shows what rests on that.

**Event log and recordings** (`EventLog`, `Audit`, `AuditLosses`, `Recording`, `Recorder`, `RecorderGuarantees`,
`RecorderHistory`, `RecordingSchema`, `EventText`, `CanonicalChain`).  The hash is a function that may raise,
injective where a result needs it; `EventText` spells it out on canonical text, where equal hashes mean events equal
as JSON (`CanonicalChain`), for any reading of JSON numbers that keeps their value (`HashingExists` gives one).
What JSON-Schema validation finds in an event is a number of errors; `RecordingSchema` says which of the events a
recorder writes pass the recording schema.

**Canonical form** (`Utf16`, `Numbers`, `Canonical`, `CanonicalForm`, `Decoder`, `Unambiguous`, `Normalize`,
`ToolText`, `ContractMeaning`), after RFC 8785, sections 3.2.2.2, 3.2.2.3 and 3.2.3.  Text is a sequence of code
points, surrogates included; a float is its shortest decimal.  `Meaning` maps a Python value to a JSON value with
numbers by value and objects as maps, `Decoder` reads canonical text back, and `ContractMeaning` says what equal
texts mean for callers.

**LRU cache with TTL** (`Lru`, `LruHistory`, `LruInclusion`, `LinkedLru`, `OrderedLru`).  `Lru` is the naive list
model with the counters; the linked list with sentinels and the ordered dict are proved against it.  `put` reads the
clock twice when it evicts, and both readings are parameters.

**Control service** (`Control`, `ControlProtocol`, `ControlGuarantees`, `ControlHistory`).  The lock sections are
methods; requests and operators interleave between them, diffs fail or finish at any time, and futures are shared.
The differ sees the hash pair only.

**Semantic cache** (`VectorIndex`, `Partitions`, `PartitionLookup`, `PartitionObject`, `CacheOperations`,
`CacheGuarantees`, `SemanticHits`, `CacheHistory`, `CacheRecency`, `SemanticCache`).  Scores are real dot products;
numpy's choice among ties is left open.  The embedding, the cacheability policy, the guards and the verifier are
parameters, and each operation sees one clock reading.

## Where code and promise part

- An enum introduced on a free string, a `required` name without a property, a type stated where it was only
  implied, extra fields refused where nothing looks like an object schema, and an enum value replaced by one that
  Python's sets take for the same (1 for true) are reported as INFO or not at all, and a type stated on an
  untyped node only as a WARN, although each rejects instances the old schema accepts.
  `ReportPreservesAcceptance` gives the exact residue of a report, and `InfoOnlyKeepsOldCalls` a condition under
  which INFO-only is safe.
- A recursive `$ref` is expanded once and then stands for the empty schema, so the expanded schema accepts more
  (`CutAcceptsMore`); the pointer `#/` finds the root, not the member with the empty name.
- A `$ref` next to sibling keys keeps the `$ref`s inside those siblings; `ExpansionIsComplete` says exactly when.
- Session keys join server and tool with NUL, which a name may contain (`KeysCanCollide`).
- The recorder remembers a definition before it records it.  A definition whose hash ignores a field that cannot
  be printed leaks (`OversizedDefinitionLeaks`); `WhatIsRecordedVerifies` and `UnrecordableDefinitionLeaks` say what
  holds without and with such a definition.
- The recorder takes definitions the recording schema rejects, such as one with a name only; the log then fails
  `verify`, and every call of the tool counts as one of an unknown definition (`RejectedDefinitionIsUnknown`).
- The normalisers drop a parameter named `$comment` as if it were a comment, and normalise the dicts an enum lists
  as if they were schemas; `SameTextSameInstances` gives the exact residue.
- The Python and Go tool normalisations differ for a tool without `inputSchema` (an empty object against null) and
  without `name`; `ToolNormalisersAgree` is an equivalence.
- A semantic lookup can answer "no live candidates" although a live entry exists; `NothingJudgedIffAllDead` and
  `FewDeadMeansJudged` bound it.

## Model

| member | source | states |
|---|---|---|
| Differ.HashableSet | q3_tool_harness/harness/diff/schema_diff.py:91-94 | the set comprehension over an enum (list, string or dict), None where it raises |
| Differ.DiffEnum | q3_tool_harness/harness/diff/schema_diff.py:176-208 | removed enum values are BREAKING, added ones INFO, raising as the code does |
| Differ.DiffBounds | q3_tool_harness/harness/diff/schema_diff.py:211-256 | the bound loops report exactly the introduced or tightened numeric bounds, in order |
| Differ.DiffConstraints | q3_tool_harness/harness/diff/schema_diff.py:211-256 | bounds, pattern and format findings together |
| Differ.SplitNames | q3_tool_harness/harness/diff/schema_diff.py:302-311 | removed, added and common names, each in dict order |
| Differ.ReportNames | q3_tool_harness/harness/diff/schema_diff.py:312-362 | findings for renamed, removed and added names; a new required name is BREAKING |
| Differ.DiffCommon | q3_tool_harness/harness/diff/schema_diff.py:363-390 | required-ness changes and the recursive diff of each common property |
| Differ.DiffProperties | q3_tool_harness/harness/diff/schema_diff.py:302-390 | the whole property diff equals the specification in module Findings |
| Differ.DiffNode | q3_tool_harness/harness/diff/schema_diff.py:393-413 | the recursive comparison equals the specification, terminating on the combined size |
| Compatibility.AtMostIffCompatible | q3_tool_harness/harness/diff/schema_diff.py:158-413 | a report has only INFO findings, or has no BREAKING finding, exactly when an independent, recursive compatibility relation of that level holds of the two schemas |
| Acceptance.CompatiblePreservesAcceptance | q3_tool_harness/harness/diff/schema_diff.py:158-413 | for compatible schemas, typed or not, an instance the old one accepts is accepted by the new one exactly when it meets the residual conditions: newly stated types and enums, enum values for which others pass, undeclared required names, added properties, what no comparison covers, and at the warning level the new bounds, patterns and formats |
| DiffGuarantees.ReportPreservesAcceptance | q3_tool_harness/harness/diff/schema_diff.py:158-413 | on the compared keywords the diff never raises, and a report with only INFO, or with no BREAKING, means that old instances stay accepted exactly under the residual conditions of that level |
| DiffGuarantees.InfoOnlyKeepsOldCalls | q3_tool_harness/harness/diff/schema_diff.py:158-413 | when the new side alone states no enum, no enum value that passes for another, no type that was implied before and no `items` without a type, and required names are declared, an INFO-only change keeps every old call whose objects carry declared properties only |
| DiffGuarantees.TypedInfoOnlyKeepsOldCalls | q3_tool_harness/harness/diff/schema_diff.py:158-413 | so it does for ordinary schemas: every node typed, enums of strings, numbers and nulls and none where there was none, required names declared |
| DiffGuarantees.UnchangedIsSilent | q3_tool_harness/harness/diff/schema_diff.py:393-413 | comparing a schema with itself reports nothing |
| DiffGuarantees.IntroducedEnumIsInfoOnly | q3_tool_harness/harness/diff/schema_diff.py:176-208 | an enum added to a free string is reported as INFO only |
| DiffGuarantees.IntroducedEnumRejects | q3_tool_harness/harness/diff/schema_diff.py:176-208 | and rejects instances the old schema accepts |
| DiffGuarantees.NumberForBoolIsSilent | q3_tool_harness/harness/diff/schema_diff.py:91-94 | an enum that lists 1 instead of true goes unreported |
| DiffGuarantees.NumberForBoolRejects | q3_tool_harness/harness/diff/schema_diff.py:91-94 | and rejects true, which the old schema accepts |
| DiffGuarantees.UndeclaredRequiredIsSilent | q3_tool_harness/harness/diff/schema_diff.py:302-390 | a required name without a property goes unreported |
| DiffGuarantees.UndeclaredRequiredRejects | q3_tool_harness/harness/diff/schema_diff.py:302-390 | and rejects instances the old schema accepts |
| DiffGuarantees.ImpliedTypeIsSilent | q3_tool_harness/harness/diff/schema_diff.py:68-88 | a type stated where `properties` implied it goes unreported |
| DiffGuarantees.ImpliedTypeRejects | q3_tool_harness/harness/diff/schema_diff.py:68-88 | and rejects every non-object, all of which the old schema accepts |
| DiffGuarantees.StatedTypeIsOnlyWarned | q3_tool_harness/harness/diff/schema_diff.py:79-88 | a type stated where there was none is reported as a widening, a WARN |
| DiffGuarantees.StatedTypeRejects | q3_tool_harness/harness/diff/schema_diff.py:79-88 | and rejects every instance of another type, all of which the old schema accepts |
| DiffGuarantees.UncomparedExtraIsSilent | q3_tool_harness/harness/diff/schema_diff.py:393-413 | extra fields refused on a node that does not look like an object schema go unreported |
| DiffGuarantees.UncomparedExtraRejects | q3_tool_harness/harness/diff/schema_diff.py:279-299 | and every object with a field is rejected, although the old schema accepts it |
| Reported.ReportIsExact | q3_tool_harness/harness/diff/schema_diff.py:158-413 | a finding is in the report exactly if, at a pair of nodes the comparison gets to through properties and items, the rule speaks with that severity and path; pairs and rules are defined on the types, keys, properties and required names of the two nodes |
| Reported.RaisesExactly | q3_tool_harness/harness/diff/schema_diff.py:158-413 | the comparison raises exactly if it gets to a pair it cannot read: a truthy `enum`, `properties` or `required` of the wrong kind, or a new bound against a value that is no number |
| Reported.SeverityByRule | q3_tool_harness/harness/diff/schema_diff.py:79-413 | a report has no SECURITY finding; each rule has its one severity, but for type changes |
| Reported.BreakingTypeChange | q3_tool_harness/harness/diff/schema_diff.py:79-88 | a type change at a path is BREAKING exactly if the new types there do not include the old ones and it is not integer to number |
| Reported.GoneIsReported | q3_tool_harness/harness/diff/schema_diff.py:302-362 | a parameter that is gone is reported as removed exactly if no rename took it, and otherwise as renamed |
| Reported.ComparedProperties | q3_tool_harness/harness/diff/schema_diff.py:302-311 | the properties compared are the dict-valued ones, under their own names |
| Renames.SortIsStableDescending | q3_tool_harness/harness/diff/schema_diff.py:138 | sorting by negated confidence is a stable, descending permutation |
| Renames.MatchRenames | q3_tool_harness/harness/diff/schema_diff.py:123-152 | the loops compute the greedy matching |
| Renames.RenamesAreOneToOne | q3_tool_harness/harness/diff/schema_diff.py:140-148 | accepted renames are one-to-one qualifying candidates |
| Renames.RenamesAreMaximal | q3_tool_harness/harness/diff/schema_diff.py:132-148 | a qualifying pair is left out only if a pair at least as confident uses one of its names |
| Renames.RenamesAreHalfOptimal | q3_tool_harness/harness/diff/schema_diff.py:138-148 | total confidence is at least half that of any one-to-one choice of qualifying pairs |
| Renames.RenamesLoseNoName | q3_tool_harness/harness/diff/schema_diff.py:150-152 | every removed and added name is renamed or left over, never both, with its multiplicity |
| RenameMeaning.RenamesAreDetermined | q3_tool_harness/harness/diff/schema_diff.py:100-152 | the accepted renames are, in order, exactly the pairs that keep the type and are alike enough in name or description and on the whole, taken by confidence and then by position unless an earlier one took a name |
| Refs.JsonPointerGet | q3_tool_harness/harness/diff/schema_diff.py:27-41 | the pointer walk, with escapes, list indices from either end, and the raising cases |
| Refs.ExpansionIsComplete | q3_tool_harness/harness/diff/schema_diff.py:44-62 | expanding a schema against itself leaves a resolvable local `$ref` exactly when some local `$ref` has a sibling that holds one |
| Refs.ExpandedIsFixed | q3_tool_harness/harness/diff/schema_diff.py:44-62 | expanding a fully expanded schema changes nothing |
| Refs.SiblingRefSurvives | q3_tool_harness/harness/diff/schema_diff.py:53-58 | the smallest schema whose expansion keeps a resolvable `$ref` |
| RefMeaning.TargetStandsForRef | q3_tool_harness/harness/diff/schema_diff.py:44-62 | where a `$ref` leads to a value and is not being expanded, each key has the sibling's own value, or else what the expanded target has there |
| RefMeaning.CycleIsCut | q3_tool_harness/harness/diff/schema_diff.py:44-58 | a pointer that is being expanded already stands for the empty schema |
| RefMeaning.DanglingIsKept | q3_tool_harness/harness/diff/schema_diff.py:47-62 | a local `$ref` that leads nowhere, or to null, leaves its dict as it is |
| RefMeaning.KeysAreKept | q3_tool_harness/harness/diff/schema_diff.py:59-60 | a dict without a local `$ref` keeps its keys in order, each value expanded |
| RefMeaning.ItemsAreKept | q3_tool_harness/harness/diff/schema_diff.py:61-62 | a list keeps its items in order, each expanded, and other values stay |
| RefMeaning.PlacesAreFound | q3_tool_harness/harness/diff/schema_diff.py:27-41 | the pointer of a place, escaped as in RFC 6901, section 3, finds the value at that place |
| RefMeaning.EmptyKeyIsTheRoot | q3_tool_harness/harness/diff/schema_diff.py:28-29 | but the pointer of an empty key at the root finds the root itself |
| RefMeaning.NegativeIndex | q3_tool_harness/harness/diff/schema_diff.py:37-38 | a negative index counts from the end of a list |
| RefAcceptance.ExpansionKeepsMeaning | q3_tool_harness/harness/diff/schema_diff.py:44-62 | where `$ref`s stand alone and lead to schemas, the expanded schema accepts every instance accepted by following them through the root, and no other if none leads back to itself |
| RefAcceptance.RecursionIsCut | q3_tool_harness/harness/diff/schema_diff.py:44-58 | a `$ref` back to where it stands is expanded once and then cut |
| RefAcceptance.CutAcceptsMore | q3_tool_harness/harness/diff/schema_diff.py:44-58 | so the expansion accepts an instance that following the `$ref` rejects |
| Session.Session.EnsureStarted | q4_trust_layer/proxy/internal/session/session.go:139-152 | emits session_start exactly once |
| Session.Session.EmitEvent | q4_trust_layer/proxy/internal/session/session.go:101-136 | one event is numbered, chained and offered to the log; a failed hash or full queue marks the audit incomplete |
| Session.Session.ObserveDefinition | q4_trust_layer/proxy/internal/session/session.go:203-319 | the five observation cases change pins, revision counter and emitted events as the specification says |
| Session.Session.RejectDefinition | q4_trust_layer/proxy/internal/session/session.go:386-408 | a rejected definition blocks or withdraws the pin |
| Session.Session.ApplyVerdict | q4_trust_layer/proxy/internal/session/session.go:332-380 | a verdict acts only on the pending change with its revision |
| Session.Session.PrepareCall | q4_trust_layer/proxy/internal/session/session.go:415-448 | the call decision, with the read-only exception when control is unreachable |
| Protocol.RunKeepsInv | q4_trust_layer/proxy/internal/session/session.go:203-408 | the protocol invariant over every interleaving of observations, rejections and verdicts, while the 64-bit revision has not wrapped |
| Protocol.AllowedCallsAreSafe | q4_trust_layer/proxy/internal/session/session.go:203-448 | an allowed call runs under the definition last observed; without a warning that was first valid or became the pin by a resume or warn verdict that took effect, with it both sides are read-only, control was unreachable and nothing was decided |
| Protocol.ReportsAreAccounted | q4_trust_layer/proxy/internal/session/session.go:270-313 | a pending change has one report in flight when valid, reachable and undecided, none otherwise, and every report with its revision carries the current hashes |
| Protocol.StaleVerdictIsIgnored | q4_trust_layer/proxy/internal/session/session.go:332-345 | a verdict changes nothing exactly when its report is not the current one, A-B-A included |
| Protocol.UndecidedChangesAreRetried | q4_trust_layer/proxy/internal/session/session.go:270-288 | observing an undecided change again leaves exactly one report in flight |
| Protocol.TrustIsEarned | q4_trust_layer/proxy/internal/session/session.go:203-380 | a trusted hash was the first valid definition, or a resume or warn delivered while it was pending took effect and pinned it |
| Protocol.UnstableCompilationIsUnsafe | q4_trust_layer/proxy/internal/session/session.go:234-257 | a counterfactual: if compiling the same hash could fail the second time, a late approval would allow a definition that is not the last observed |
| ProtocolHistory.CallsAreDecidedByHistory | q4_trust_layer/proxy/internal/session/session.go:203-448 | over every run, how a call is decided follows from the definition advertised last, whether it compiles, whether it is the contract in force, and if not, whether both claim to be read-only and control was last found unreachable about it |
| ProtocolHistory.VerdictsTakeEffect | q4_trust_layer/proxy/internal/session/session.go:332-380 | over every run, resume and warn on the current report make calls allowed under the new definition, any other verdict leaves them denied, and each writes its action |
| ProtocolHistory.UnreachableLetsReadersThrough | q4_trust_layer/proxy/internal/session/session.go:346-351 | an unreachable control plane lets calls through with a warning exactly if both definitions claim to be read-only, and writes nothing |
| ProtocolHistory.ObservationsAreWritten | q4_trust_layer/proxy/internal/session/session.go:203-319 | an observation writes a definition exactly if it is new, then a block exactly if calls are denied, and a resume exactly if the contract is back in force |
| ProtocolHistory.RejectionsAreWritten | q4_trust_layer/proxy/internal/session/session.go:386-408 | a rejection denies the tool and writes a block |
| ProtocolHistory.RiskByClaims | q4_trust_layer/proxy/internal/session/session.go:54-64 | the risk class by the annotations: read-only if claimed, else destructive if claimed, else side-effecting |
| ProtocolHistory.KeysAreOneToOne | q4_trust_layer/proxy/internal/session/session.go:22 | servers without NUL in their names share no session key |
| ProtocolHistory.KeysCanCollide | q4_trust_layer/proxy/internal/session/session.go:22 | with NUL in a name two tools can share one |
| Gateway.ObserveTool | q4_trust_layer/proxy/internal/gateway/gateway.go:276-308 | one listed tool drives the session as one protocol step, and the reports it hands on are the ones then in flight |
| Gateway.InspectTool | q4_trust_layer/proxy/internal/gateway/gateway.go:225-251 | one turn of the list loop: duplicates, quarantine, blocking, and the reports it adds in flight |
| Gateway.ObserveListResponse | q4_trust_layer/proxy/internal/gateway/gateway.go:210-253 | the loop over a tools/list response, with any other use of the session between two tools, equals the scan of the specification, reports included |
| Gateway.ExposedListIsCallable | q4_trust_layer/proxy/internal/gateway/gateway.go:210-253 | an exposed list has distinct non-empty unquarantined names, each allowed without warning under its listed hash, whatever verdicts arrive and whatever a second listing does meanwhile that is harmless to the tools listed so far |
| Gateway.HarmfulStepWithdraws | q4_trust_layer/proxy/internal/session/session.go:203-319 | any other observation or rejection of a listed tool makes it denied |
| Gateway.ReportsAreInFlight | q4_trust_layer/proxy/internal/gateway/gateway.go:276-308 | if nobody else uses the session, the scan leaves in flight what was there and exactly its reports |
| Gateway.EveryToolIsInspected | q4_trust_layer/proxy/internal/gateway/gateway.go:225-251 | a block found earlier never stops later tools from being inspected |
| ListAnswers.ListIsExposedExactly | q4_trust_layer/proxy/internal/gateway/gateway.go:210-253 | whatever others do meanwhile, a list is exposed exactly if no tool repeats a name or is quarantined and each could be called under its listed definition when it was inspected; otherwise the answer is that of the last repeated or quarantined tool, or else of the first obstacle |
| EventLog.Writer.Enqueue | q4_trust_layer/proxy/internal/eventlog/eventlog.go:121-136 | accept in order or count a drop; refused when closed, full or badly named |
| EventLog.Writer.DrainOne | q4_trust_layer/proxy/internal/eventlog/eventlog.go:72-99 | the oldest record is written to its session's file or lost |
| Audit.DropsAreVisible | q4_trust_layer/proxy/internal/eventlog/eventlog.go:72-136 | each file is an ordered part of what was emitted, and numbered 0,1,2,... exactly when it is a beginning of it |
| Audit.VerifiedFileIsPrefix | q3_tool_harness/harness/recording.py:134-137 | a session file that passes `verify` is a beginning of what the session emitted |
| Audit.EventsAreConserved | q4_trust_layer/proxy/internal/eventlog/eventlog.go:121-139 | every event offered is dropped, written or queued; without drops a drained file is complete |
| Audit.FlaggedIffRefused | q4_trust_layer/proxy/internal/session/session.go:101-135 | a session is marked audit-incomplete exactly when one of its events could not be hashed or was refused |
| Audit.UnflaggedLosesOnlyInDrain | q4_trust_layer/proxy/internal/eventlog/eventlog.go:72-136 | a session without the mark misses only records lost while draining, one line for each |
| AuditLosses.DropsAreExplained | q4_trust_layer/proxy/internal/eventlog/eventlog.go:72-139 | over every run the drops counted are the events turned away from a closed or full log or for a bad session name, and those taken out and not written |
| AuditLosses.NothingElseIsLost | q4_trust_layer/proxy/internal/eventlog/eventlog.go:72-139 | without such a loss, what a session emitted is in its file or waits for it |
| Events.BuildExtendsChain | q4_trust_layer/proxy/internal/session/session.go:101-126 | the next built event extends the hash chain |
| Events.HeadFixesLog | q3_tool_harness/harness/recording.py:109-175 | with an injective hash, chains that end in the same hash are equal event by event |
| Recording.Verify | q3_tool_harness/harness/recording.py:109-175 | the sequential check computes exactly the specified problems |
| Recording.VerifyIffSound | q3_tool_harness/harness/recording.py:109-175 | no problem is found exactly in a non-empty sound recording that begins with session_start |
| Recording.ViolationReported | q3_tool_harness/harness/recording.py:124-126 | a schema violation is reported exactly at the events the validator rejects |
| Recording.UnknownReported | q3_tool_harness/harness/recording.py:153-165 | an unknown definition is reported exactly at the accepted calls whose definition is on record in no earlier accepted event |
| Recording.PrefixesPass | q3_tool_harness/harness/recording.py:109-175 | every non-empty prefix of a passing recording passes |
| Recording.PassingLogsWithEqualHeads | q3_tool_harness/harness/recording.py:109-175 | two passing recordings with the same final hash are the same |
| CanonicalChain.HashingExists | schema/canonical.py:75-99 | the two assumptions made of the hashing, a faithful reading of numbers and no collisions, can hold together |
| CanonicalChain.HeadFixesCanonicalLog | schema/canonical.py:136-138 | over canonical text and a hash that never collides, logs that end in the same hash are equal as JSON, event by event |
| CanonicalChain.PassingLogsSaySame | q3_tool_harness/harness/recording.py:109-175 | so are two recordings that pass `verify` and end in the same hash |
| Recorder.Recorder.EmitEvent | q3_tool_harness/harness/recorder.py:98-116 | numbering, chaining and writing one event; an exception leaves the chain unmoved |
| Recorder.Recorder.RecordDefinitions | q3_tool_harness/harness/recorder.py:118-134 | new or changed definitions are remembered and recorded |
| Recorder.Recorder.DefHash | q3_tool_harness/harness/recorder.py:136-146 | the hash in force, defining the tool if needed |
| Recorder.Recorder.RecordCall | q3_tool_harness/harness/recorder.py:163-184 | call event, then response, under the hash in force |
| RecorderGuarantees.WhatIsRecordedVerifies | q3_tool_harness/harness/recorder.py:76-184 | for any schema check, a session whose definitions each fail to hash or have a recordable event verifies, before and after its end, exactly if every event it wrote passes that check; each call carries the hash of the latest preceding definition |
| RecorderGuarantees.UnrecordableDefinitionLeaks | q3_tool_harness/harness/recorder.py:118-134 | a session then offered a hashable but unrecordable definition whose tool is called carries a hash that is not the latest on record, and verifies exactly if that hash was on record for the tool before and every event it wrote passes the schema check |
| RecorderHistory.OperationsAreRecorded | q3_tool_harness/harness/recorder.py:118-217 | after any session, one more operation adds to the recording exactly its new or changed definitions, and for a call the missing definition, the call with redacted arguments under the hash on record, and the response, with a new id |
| RecordingSchema.ConformingSessionsVerify | schema/recording.schema.json:7-103 | under the recording schema a closed session verifies exactly if every body it wrote conforms, which it does if it was given conforming definitions, arguments, results and actions |
| RecordingSchema.RejectedDefinitionIsUnknown | q3_tool_harness/harness/recording.py:124-165 | whatever a session did before, a new recordable definition that does not conform is reported as a violation, and the next call of its tool, which carries the right hash, as a call of an unknown definition |
| RecordingSchema.CheckerExists | q3_tool_harness/harness/recording.py:47-53 | a checker that follows the schema exists for every recorder with unique ids |
| EventText.HashesEncode | schema/canonical.py:136-138 | with the canonical-text hashes, an event among the first 2^53 has a hash exactly if its body is portable |
| EventText.RecordableIffPortable | schema/canonical.py:114-138 | a definition is recordable exactly if it has no hash or is portable as a whole |
| EventText.UnportableFieldLeaks | q3_tool_harness/harness/recorder.py:118-134 | a named tool with an unprintable value in a field its hash ignores is hashable and unrecordable |
| EventText.OversizedDefinitionLeaks | schema/canonical.py:48-50 | an integer beyond 2^53 is such a value |
| EventText.BareDefinitionIsTaken | q3_tool_harness/harness/recorder.py:118-134 | the definition that has a name only is hashed and recorded, although the schema asks for an `inputSchema` |
| Utf16.KeyLessByUnits | schema/canonical.py:93 | ordering by big-endian UTF-16 bytes is ordering by code units |
| Utf16.Utf16Less | q4_trust_layer/proxy/internal/canonical/canonical.go:115-128 | the index loop decides that order |
| Utf16.KeyLessIsStrictTotal | schema/canonical.py:93 | the order is a strict total order on well-formed text |
| Utf16.SortedUnique | schema/canonical.py:107 | a strictly sorted list is fixed by its members |
| Numbers.NumberRoundTrip | schema/canonical.py:45-72 | reading the text of a normal decimal, up to any delimiter, gives back exactly that number, whichever layout is chosen |
| Numbers.IntRoundTrip | schema/canonical.py:48-51 | the same for integers |
| Numbers.EqualByValue | schema/canonical.py:57 | normal decimals are equal exactly when they are the same real number |
| Numbers.NumTextInjective | schema/canonical.py:45-72 | number texts are equal exactly when the numbers are |
| Numbers.IntTextIsNumText | schema/canonical.py:48-63 | within the safe range an int prints like the float of the same value |
| Canonical.EncodeString | schema/canonical.py:30-42 | the loop produces the escaped string or raises on a surrogate |
| Canonical.SortIsSorted | schema/canonical.py:93 | members come out in strictly increasing key order, none lost |
| Canonical.PrintsExactlyAccepted | schema/canonical.py:75-95 | the printer raises exactly outside the portable values |
| CanonicalForm.CanonicalIsShortest | schema/canonical.py:27-42 | a string is printed as the shortest text that spells it (RFC 8259, section 7), with lower-case digits where a code is needed, and no other such text is as short |
| CanonicalForm.LayoutByMagnitude | schema/canonical.py:45-72 | a number is printed plainly exactly if its size is from a millionth up to below 10^21, and else with an exponent after one digit, never with a superfluous zero |
| Decoder.ReadsBack | schema/canonical.py:75-95 | a decoder recovers the JSON value from its text followed by any delimiter |
| Unambiguous.SameTextIffSameJson | schema/canonical.py:75-95 | two portable values print alike exactly when they are equal as JSON: numbers by value, objects as maps |
| Unambiguous.NumbersPrintByValue | schema/canonical.py:45-72 | ints and floats print alike exactly when they are the same real number |
| Unambiguous.InsertionOrderIsInvisible | schema/canonical.py:89-94 | reordering a dict leaves its text unchanged |
| Normalize.SortDedupe | q4_trust_layer/proxy/internal/canonical/canonical.go:98-113 | dedupe loop and sort give the sorted set of strings |
| Normalize.SortedSetForgetsOrder | q4_trust_layer/proxy/internal/canonical/canonical.go:96-113 | sorted sets are equal exactly when the strings are the same up to order and repetition |
| Normalize.NormalizeSchema | q4_trust_layer/proxy/internal/canonical/canonical.go:55-82 | the loops over maps and slices compute the normal form |
| Normalize.NormalizeForgets | q4_trust_layer/proxy/internal/canonical/canonical.go:55-82 | two schemas normalise alike exactly when they differ only in `$comment` entries and the order or repetition of `required` |
| Normalize.NormalizeIsIdempotent | q4_trust_layer/proxy/internal/canonical/canonical.go:55-82 | normalising twice is normalising once |
| ToolText.NormalisersAgree | schema/canonical.py:102-111 | Python's normal form is portable and has the JSON value Go computes |
| ToolText.SameTextIffSameContract | schema/canonical.py:98-111 | normalised texts are equal exactly for equal contracts |
| ToolText.ToolNormalisersAgree | q4_trust_layer/proxy/internal/canonical/canonical.go:134-149 | whatever the fields neither side reads hold, both tool normalisations agree exactly when the tool has a name and an input schema |
| ToolText.SameToolTextIffSameTool | schema/canonical.py:114-133 | the hashed text of a definition and its contract determine each other, whatever the fields it ignores hold |
| ContractMeaning.ReadingIsFaithful | schema/canonical.py:45-72 | reading safe integers as ints and other decimals as floats is a faithful reading, under which every decimal is portable |
| ContractMeaning.SameTextSameInstances | schema/canonical.py:102-111 | of two schemas with the same normalised text, the second accepts an instance the first accepts exactly when it accepts the `$comment` fields inside it and lists the dicts inside it where it has an enum |
| ContractMeaning.SameTextSameCalls | schema/canonical.py:102-111 | if their enums list no dicts they accept the same calls, among those without a `$comment` field whatever parameters they declare, and altogether if neither declares a parameter of that name |
| ContractMeaning.CommentParameterIsForgotten | schema/canonical.py:102-104 | two schemas of one contract that differ in such a parameter |
| ContractMeaning.CommentParameterMatters | schema/canonical.py:102-104 | of which only one accepts the argument |
| ContractMeaning.CommentInEnumIsForgotten | schema/canonical.py:102-111 | two schemas of one contract whose enums list different dicts |
| ContractMeaning.CommentInEnumMatters | schema/canonical.py:102-111 | each of which accepts a value the other rejects |
| LinkedLru.Create | q1_lru_ttl/lru_ttl/cache.py:117-136 | construction refuses a capacity below 1 or a default TTL that is not finite or not positive |
| LinkedLru.LruTtlCache.Unlink | q1_lru_ttl/lru_ttl/cache.py:140-145 | removing a node keeps `prev` and `next` inverse along the chain |
| LinkedLru.LruTtlCache.PushFront | q1_lru_ttl/lru_ttl/cache.py:147-154 | inserting after the head keeps the chain |
| LinkedLru.LruTtlCache.MoveToFront | q1_lru_ttl/lru_ttl/cache.py:156-158 | moving a node to the front of the chain |
| LinkedLru.LruTtlCache.RemoveNode | q1_lru_ttl/lru_ttl/cache.py:165-167 | index and list lose the same entry |
| LinkedLru.LruTtlCache.Get | q1_lru_ttl/lru_ttl/cache.py:171-188 | result, contents, order and counters equal the list model |
| LinkedLru.LruTtlCache.Put | q1_lru_ttl/lru_ttl/cache.py:190-212 | the same for put, with its TTL validation and both clock readings |
| LinkedLru.LruTtlCache.EvictOne | q1_lru_ttl/lru_ttl/cache.py:214-237 | the tail goes, counted as expiration or eviction |
| LinkedLru.LruTtlCache.Delete | q1_lru_ttl/lru_ttl/cache.py:239-245 | the same for delete |
| LinkedLru.LruTtlCache.Contains | q1_lru_ttl/lru_ttl/cache.py:253-258 | the peek answers as the model and changes nothing |
| LinkedLru.IndexCount | q1_lru_ttl/lru_ttl/cache.py:247-251 | the index has exactly one key per list entry |
| OrderedLru.OrderedDictCache.Get | q1_lru_ttl/lru_ttl/ordered_dict_impl.py:49-61 | the ordered-dict cache refines the same model with equal counters |
| OrderedLru.OrderedDictCache.Put | q1_lru_ttl/lru_ttl/ordered_dict_impl.py:63-77 | the same for put |
| OrderedLru.OrderedDictCache.Delete | q1_lru_ttl/lru_ttl/ordered_dict_impl.py:79-80 | the same for delete |
| Lru.RunKeepsInvariant | q1_lru_ttl/tests/reference_model.py:40-74 | keys stay distinct and within capacity over every run |
| Lru.EntriesAreConserved | q1_lru_ttl/lru_ttl/cache.py:171-245 | fresh inserts = entries + evictions + expirations + deletions, and gets = hits + misses |
| Lru.HitReturnsLastWrite | q1_lru_ttl/tests/reference_model.py:40-64 | a hit returns the value of the last successful put, not deleted and not expired |
| Lru.OrderIsLastUse | q1_lru_ttl/lru_ttl/cache.py:190-237 | entries stand in the order of last use, so the victim is the least recently used |
| LruInclusion.LargerCachesNeverDoWorse | q1_lru_ttl/lru_ttl/cache.py:171-245 | the smaller cache's entries are a subsequence of the larger one's, and it hits no more often |
| LruHistory.GetsAreDecidedByHistory | q1_lru_ttl/lru_ttl/cache.py:171-258 | over every run, a get hits exactly if the key was put and since then not deleted, found expired, or unused for longest when a new key came to a full cache, and has not expired; and answers what was last put |
| LruHistory.PutsAndDeletesByHistory | q1_lru_ttl/lru_ttl/cache.py:190-251 | a put is refused exactly if its time to live is not a positive number, a delete finds exactly a held key, and the size is the number of keys held |
| LruHistory.CountersByHistory | q1_lru_ttl/lru_ttl/cache.py:171-237 | the four counters count what that history says was found |
| Control.ControlService.AdmitChange | q4_trust_layer/control/control/service.py:124-130 | the first lock section: counting and the approved short cut |
| Control.ControlService.ReserveFuture | q4_trust_layer/control/control/service.py:194-205 | find or make the future of a key, evicting beyond the bound |
| Control.ControlService.ClaimFuture | q4_trust_layer/control/control/service.py:197-202 | the eviction loop keeps the most recently used slots |
| Control.ControlService.ForgetKey | q4_trust_layer/control/control/service.py:210-212 | a failure leaves no slot for its key |
| Control.ControlService.ConcludeChange | q4_trust_layer/control/control/service.py:137-144 | the second approval check wins over a late quarantine |
| Control.ControlService.ApproveHash | q4_trust_layer/control/control/service.py:262-270 | approval replaces the baseline and clears the quarantine |
| ControlGuarantees.QuarantineRespectsApproval | q4_trust_layer/control/control/service.py:137-144 | a subject is quarantined exactly when some step since its last approval quarantined it, and none did so for the hash now approved |
| ControlGuarantees.MemoStaysBounded | q4_trust_layer/control/control/service.py:201-202 | the memo stays within its bound with one slot per key |
| ControlGuarantees.AnswersAreSound | q4_trust_layer/control/control/service.py:117-165 | every answer was given by one step: approved exactly when its hash was the approved one at that step, otherwise the policy applied to a fresh diff of the request's own pair |
| ControlGuarantees.OneDiffPerKey | q4_trust_layer/control/control/service.py:191-215 | two diffs of one pair run at once only if one lost its slot |
| ControlGuarantees.NobodyWaitsForNothing | q4_trust_layer/control/control/service.py:206-215 | a waiter on a pending future has an owner at work, and a failed future has no slot |
| ControlHistory.MemoIsInOrderOfUse | q4_trust_layer/control/control/service.py:191-205 | the memo stands in the order in which its hash pairs were last asked for |
| ControlHistory.OldestSlotMakesRoom | q4_trust_layer/control/control/service.py:197-202 | a request drops a slot only from a full memo, and only of the pair asked for longest ago |
| ControlHistory.CountersTellTheRun | q4_trust_layer/control/control/service.py:117-205 | the counters count, over any run, what became of the requests |
| VectorIndex.NumpyIndex.Add | q2_semantic_cache/semantic_cache/index.py:52-61 | validation, replacement and append |
| VectorIndex.NumpyIndex.Remove | q2_semantic_cache/semantic_cache/index.py:76-82 | removes the row of the id, if any |
| VectorIndex.NumpyIndex.Search | q2_semantic_cache/semantic_cache/index.py:63-74 | returns the k best rows by dot product, best first, nothing outside beating them |
| Partitions.RemoveKeepsCoherent | q2_semantic_cache/semantic_cache/cache.py:421-428 | removal keeps entries, order, exact map and rows in agreement |
| Partitions.UpsertKeepsCoherent | q2_semantic_cache/semantic_cache/cache.py:359-368 | so does refreshing an entry |
| Partitions.InsertKeepsCoherent | q2_semantic_cache/semantic_cache/cache.py:370-387 | so does indexing, evicting and installing a new one |
| PartitionObject.Partition.Remove | q2_semantic_cache/semantic_cache/cache.py:421-428 | the object's fields change as the function says |
| PartitionObject.Partition.FirstLive | q2_semantic_cache/semantic_cache/cache.py:263-272 | the candidate loop purges expired entries up to the first live one |
| PartitionObject.Partition.Lookup | q2_semantic_cache/semantic_cache/cache.py:244-316 | the whole lookup under the partition's lock |
| PartitionObject.Partition.Install | q2_semantic_cache/semantic_cache/cache.py:370-387 | index first, then evict, then install; nothing changes if the index refuses |
| PartitionLookup.JudgedIsBest | q2_semantic_cache/semantic_cache/cache.py:261-279 | the judged candidate scores highest of all live entries, not just of the top k |
| PartitionLookup.NothingJudgedIffAllDead | q2_semantic_cache/semantic_cache/cache.py:264-276 | no candidate is judged exactly when all of the top k are expired |
| PartitionLookup.FewDeadMeansJudged | q2_semantic_cache/semantic_cache/cache.py:261-276 | with fewer expired entries than k, a live entry is judged whenever there is one |
| PartitionLookup.HitIsSound | q2_semantic_cache/semantic_cache/cache.py:244-316 | a hit serves a live entry's stored response: the exact match, or past threshold, guards and verifier |
| PartitionLookup.SemanticHitIsBest | q2_semantic_cache/semantic_cache/cache.py:261-314 | a semantic hit beats every live entry of the partition |
| CacheGuarantees.ExpiredCrowdOutLive | q2_semantic_cache/semantic_cache/cache.py:262-276 | with unit vectors, expired entries that fill the top k hide a live one that passes every threshold |
| CacheGuarantees.RunStaysCoherent | q2_semantic_cache/semantic_cache/cache.py:320-439 | after any run every partition is coherent within capacity and the owner map is the inverse of the partitions |
| CacheGuarantees.PartitionsAreIsolated | q2_semantic_cache/semantic_cache/cache.py:181-186 | a hit comes from the partition asked, and no entry is in two partitions |
| CacheGuarantees.EntryStays | q2_semantic_cache/semantic_cache/cache.py:320-439 | an entry keeps query, response and expiry through any steps that neither overwrite, evict, invalidate nor censure it, nor find it expired |
| CacheGuarantees.StoredIsServed | q2_semantic_cache/semantic_cache/cache.py:320-439 | what was stored after any run is served by exact match until it expires, whatever such steps come between |
| CacheHistory.EntriesAreAsStored | q2_semantic_cache/semantic_cache/cache.py:320-439 | whatever an entry holds after any run is what the last store that answered with its id was told: query, response, expiry and embedding |
| CacheHistory.LookupByHistory | q2_semantic_cache/semantic_cache/cache.py:199-316 | after any run, a lookup answers with the unexpired record of the very query, or else the most similar unexpired record decides, by thresholds, guards and verifier, and the reason says how; it is found if fewer records have expired than the search returns |
| CacheHistory.SemanticHitExactly | q2_semantic_cache/semantic_cache/cache.py:261-314 | then a strictly most similar record is served exactly if it meets the thresholds, the guards and in the grey zone the verifier, as `semantic` or `semantic+verified` |
| CacheHistory.StoreAnswers | q2_semantic_cache/semantic_cache/cache.py:320-387 | a store is refused by the policy, invalid by time to live or embedding, or stores under the id of the record of the very query, or else under a new one |
| CacheHistory.RemovedIsGone | q2_semantic_cache/semantic_cache/cache.py:389-414 | an entry invalidated or heard to be bad is in no partition, and invalidating says whether it was in one |
| CacheRecency.OrderIsLastUse | q2_semantic_cache/semantic_cache/cache.py:244-387 | after any run the entries of a partition stand in the order in which they were last stored or served |
| CacheRecency.OldestMakesRoom | q2_semantic_cache/semantic_cache/cache.py:370-387 | a store drops an entry only from a full partition, and only the one unused for longest |
| SemanticCache.SemanticCache.Lookup | q2_semantic_cache/semantic_cache/cache.py:199-316 | the cache goes where the function on values says and stays coherent, whether or not the partition exists; refusals and shadow mode serve nothing, and shadow lookups are logged |
| SemanticCache.SemanticCache.Store | q2_semantic_cache/semantic_cache/cache.py:320-387 | the same for store: policy, TTL validation, partition creation, refresh or install |
| SemanticCache.SemanticCache.Invalidate | q2_semantic_cache/semantic_cache/cache.py:389-395 | the same for removal by id through the owner map |
| SemanticCache.SemanticCache.Feedback | q2_semantic_cache/semantic_cache/cache.py:397-414 | the same for feedback: good is counted, bad evicts |

## Left out

- `diff_tool`, annotation and description diffs, and the message, before and after texts of findings: composition
  and formatting around the structural diff.
- `oneOf`, `anyOf`, `allOf` and other keywords the differ does not compare: instances are judged by the compared
  keywords only.
- difflib, `repr`, SHA-256, jsonschema, numpy, `jcs`, embedders, guards, policy tables: foreign or table look-ups,
  entered as functions.
- Protocol.RunKeepsInv: holds while fewer than 2^64 revisions were handed out; wrap-around of the counter is not
  covered.
- Session: a pinned tool is a value in the map, not a shared pointer; re-listing intervals and the session store
  are left out.
- Gateway.ObserveListResponse: HTTP, the report call and its timeout are steps of the protocol, not code; the call path
  beyond `PrepareCall` is left out.
- EventLog.Writer.DrainOne: one file per session as a sequence of events; file handles and appending to a file of an
  earlier process are left out, and so is a failing write that leaves a part of a line: it counts as a lost record.
- Recorder.Recorder.RecordCall: a latency is a real number; `meta` of a session and `call_id` and `findings` of a policy
  decision are left out.
- Recording.Verify: the texts of schema errors and Python's equality of int and float sequence numbers are left out.
- Refs.JsonPointerGet: decimal digits are ASCII; Python's other Unicode digits are left out.
- Canonical.PrintsExactlyAccepted: dicts with non-string keys and objects of other types are one refused value.
- EventText.HashesEncode: a JSON number is whatever Python number `Hashing.number` says it was read as.
- ContractMeaning.SameTextSameInstances: for the fragment of JSON Schema of module `Acceptance`.
- ToolText.ToolNormalisersAgree: Go's own printing is `jcs`, taken to be a function of the JSON value.
- LinkedLru.LruTtlCache.Put: time is real; rounding of float sums is left out, as are capacities that are not
  integers and the reference model's acceptance of infinite TTLs.
- Control: response texts, logging, the hash-mismatch report and HTTP are left out; the memo size is not negative.
- SemanticCache.SemanticCache.Lookup: the metrics counters are left out, and shadow-log entries carry the partition
  key instead of the request context.
- CacheOperations: an entry id is the tenant and the number, not their concatenation, which is one-to-one because the
  number has no colon; threads racing for one partition are serialised by its lock.
- `threadsafe.py`, `client.py`, `quarantine.go`, `schemacache.go`, the regex layers and reports: finite or easy.
