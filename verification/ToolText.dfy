/**
 Python's normalisation of tool definitions, its agreement with the Go port, and what the hashed text of
 a definition says about its contract.
 */
module ToolText {
  import opened Wrappers
  import opened Utf16
  import opened Canonical
  import opened Decoder
  import opened Normalize
  import opened Unambiguous

  // ----- Python: on values -----

  predicate AllStr(items: seq<Value>) {
    forall i | 0 <= i < |items| :: items[i].Str?
  }

  function StringsOf(items: seq<Value>): seq<Text>
    requires AllStr(items)
  {
    seq(|items|, i requires 0 <= i < |items| => items[i].s)
  }

  function Strs(strings: seq<Text>): seq<Value> {
    seq(|strings|, i requires 0 <= i < |strings| => Str(strings[i]))
  }

  /** Replace the value under `required`, where it is; sorting raises on text without an encoding. */
  function SortRequired(out: seq<Member>): Option<seq<Member>> {
    if out == [] then Some([])
    else if out[0].key == REQUIRED then
      if out[0].value.Arr? && AllStr(out[0].value.items) then
        var strings := StringsOf(out[0].value.items);
        if AllWellFormed(strings) then Some([Member(REQUIRED, Arr(Strs(SortedSet(strings))))] + out[1..]) else None
      else Some(out)
    else
      var tail :- SortRequired(out[1..]);
      Some([out[0]] + tail)
  }

  /** `_normalize_schema`; None where Python raises. */
  function PyNormalize(v: Value): Option<Value> {
    match v
    case Arr(items) =>
      var out :- PyNormalizeItems(items);
      Some(Arr(out))
    case Obj(members) =>
      var out :- PyNormalizeMembers(members);
      var fixed :- SortRequired(out);
      Some(Obj(fixed))
    case _ => Some(v)
  }

  function PyNormalizeItems(items: seq<Value>): Option<seq<Value>> {
    if items == [] then Some([])
    else
      var head :- PyNormalize(items[0]);
      var tail :- PyNormalizeItems(items[1..]);
      Some([head] + tail)
  }

  function PyNormalizeMembers(members: seq<Member>): Option<seq<Member>> {
    if members == [] then Some([])
    else if members[0].key == COMMENT then PyNormalizeMembers(members[1..])
    else
      var head :- PyNormalize(members[0].value);
      var tail :- PyNormalizeMembers(members[1..]);
      Some([Member(members[0].key, head)] + tail)
  }

  // ----- agreement with the Go port -----

  /** The JSON value of an accepted Python value is clean. */
  lemma {:induction false} MeaningIsClean(v: Value)
    requires Accepted(v)
    ensures Clean(Meaning(v))
    decreases v, 1, 0
  {
    match v
    case Arr(items) => ItemsAreClean(v, items);
    case Obj(members) => MembersAreClean(v, members);
    case _ =>
  }

  lemma {:induction false} ItemsAreClean(parent: Value, items: seq<Value>)
    requires parent.Arr? && forall x | x in items :: x in parent.items
    requires forall i | 0 <= i < |items| :: Accepted(items[i])
    ensures forall i | 0 <= i < |MeaningOfItems(items)| :: Clean(MeaningOfItems(items)[i])
    decreases parent, 0, |items|
  {
    if items != [] {
      assert items[0] in items;
      MeaningIsClean(items[0]);
      ItemsAreClean(parent, items[1..]);
    }
  }

  lemma {:induction false} MembersAreClean(parent: Value, members: seq<Member>)
    requires parent.Obj? && forall m | m in members :: m in parent.members
    requires AcceptedMembers(members)
    ensures forall k | k in MeaningOfMembers(members) :: WellFormed(k) && Clean(MeaningOfMembers(members)[k])
    decreases parent, 0, |members|
  {
    if members != [] {
      assert members[0] in members;
      MeaningIsClean(members[0].value);
      MembersAreClean(parent, members[1..]);
    }
  }

  function KeySet(members: seq<Member>): set<Text> {
    if members == [] then {} else {members[0].key} + KeySet(members[1..])
  }

  lemma {:induction false} KeySetHas(members: seq<Member>, k: Text)
    ensures k in KeySet(members) <==> exists i :: 0 <= i < |members| && members[i].key == k
  {
    if members != [] {
      KeySetHas(members[1..], k);
      if k in KeySet(members[1..]) {
        var i :| 0 <= i < |members[1..]| && members[1..][i].key == k;
        assert members[i + 1].key == k;
      } else if k == members[0].key {
        assert members[0].key == k;
      } else {
        forall i | 0 <= i < |members| ensures members[i].key != k {
          assert i > 0 ==> members[i] == members[1..][i - 1];
        }
      }
    }
  }

  /** Keys that survive normalising came from the dict. */
  predicate KeysFrom(out: seq<Member>, members: seq<Member>) {
    KeySet(out) <= KeySet(members)
  }

  lemma StringItemsMean(items: seq<Value>)
    requires forall i | 0 <= i < |items| :: Accepted(items[i])
    ensures forall i | 0 <= i < |items| :: MeaningOfItems(items)[i] == Meaning(items[i])
    ensures AllStr(items) <==> AllJStrings(MeaningOfItems(items))
    ensures AllStr(items) ==> StringsOf(items) == JStringsOf(MeaningOfItems(items)) && AllWellFormed(StringsOf(items))
  {
    MeaningAt(items);
    forall i | 0 <= i < |items| ensures items[i].Str? <==> MeaningOfItems(items)[i].JStr? {
      assert MeaningOfItems(items)[i] == Meaning(items[i]);
    }
    if AllStr(items) {
      assert StringsOf(items) == JStringsOf(MeaningOfItems(items));
    }
  }

  lemma {:induction false} MeaningAt(items: seq<Value>)
    requires forall i | 0 <= i < |items| :: Accepted(items[i])
    ensures forall i | 0 <= i < |items| :: MeaningOfItems(items)[i] == Meaning(items[i])
  {
    if items != [] {
      var tail := items[1..];
      MeaningAt(tail);
      var all, rest := MeaningOfItems(items), MeaningOfItems(tail);
      assert all == [Meaning(items[0])] + rest;
      forall i | 0 <= i < |items| ensures all[i] == Meaning(items[i]) {
        if i > 0 {
          assert all[i] == rest[i - 1] && tail[i - 1] == items[i];
        }
      }
    }
  }

  lemma StrsMean(strings: seq<Text>)
    requires AllWellFormed(strings)
    ensures Accepted(Arr(Strs(strings))) && Proper(Arr(Strs(strings)))
    ensures Meaning(Arr(Strs(strings))) == JArr(JStrings(strings))
  {
    MeaningAt(Strs(strings));
    assert MeaningOfItems(Strs(strings)) == JStrings(strings);
  }

  predicate ProperMembers(members: seq<Member>) {
    DistinctKeys(members) && forall i | 0 <= i < |members| :: Proper(members[i].value)
  }

  lemma TailIsProper(members: seq<Member>)
    requires members != [] && ProperMembers(members) && AcceptedMembers(members)
    ensures ProperMembers(members[1..]) && AcceptedMembers(members[1..])
    ensures members[0].key !in KeySet(members[1..])
  {
    KeySetHas(members[1..], members[0].key);
  }

  lemma ConsIsProper(m: Member, tail: seq<Member>)
    requires ProperMembers(tail) && AcceptedMembers(tail)
    requires WellFormed(m.key) && Accepted(m.value) && Proper(m.value)
    requires m.key !in KeySet(tail)
    ensures KeySet([m] + tail) == {m.key} + KeySet(tail)
    ensures ProperMembers([m] + tail) && AcceptedMembers([m] + tail)
    ensures MeaningOfMembers([m] + tail) == MeaningOfMembers(tail)[m.key := Meaning(m.value)]
  {
    var all := [m] + tail;
    assert all[1..] == tail;
    KeySetHas(tail, m.key);
    forall i, j | 0 <= i < j < |all| ensures all[i].key != all[j].key {
      assert all[j] == tail[j - 1];
      if i > 0 {
        assert all[i] == tail[i - 1];
      }
    }
  }

  /** Replacing the `required` list in the dict is replacing it in the map. */
  lemma {:induction false} SortRequiredAgrees(out: seq<Member>)
    requires ProperMembers(out) && AcceptedMembers(out)
    ensures SortRequired(out).Some?
    ensures var fixed := SortRequired(out).value;
         && ProperMembers(fixed) && AcceptedMembers(fixed) && KeysFrom(fixed, out)
         && MeaningOfMembers(fixed) == FixRequired(MeaningOfMembers(out))
  {
    if out != [] {
      var m, tail := out[0], out[1..];
      TailIsProper(out);
      if m.key == REQUIRED {
        RequiredHere(out);
      } else {
        SortRequiredAgrees(tail);
        var fixed := SortRequired(tail).value;
        ConsIsProper(m, fixed);
        assert out == [m] + tail;
      }
    }
  }

  lemma RequiredHere(out: seq<Member>)
    requires ProperMembers(out) && AcceptedMembers(out) && out != [] && out[0].key == REQUIRED
    ensures SortRequired(out).Some?
    ensures var fixed := SortRequired(out).value;
         && ProperMembers(fixed) && AcceptedMembers(fixed) && KeysFrom(fixed, out)
         && MeaningOfMembers(fixed) == FixRequired(MeaningOfMembers(out))
  {
    var v, tail := out[0].value, out[1..];
    TailIsProper(out);
    assert out == [out[0]] + tail;
    if v.Arr? {
      StringItemsMean(v.items);
      if AllStr(v.items) {
        var sorted := SortedSet(StringsOf(v.items));
        SortedSetIsSorted(StringsOf(v.items));
        StrsMean(sorted);
        var m := Member(REQUIRED, Arr(Strs(sorted)));
        ConsIsProper(m, tail);
      }
    }
  }

  /** What both sides must share after normalising an object's members. */
  ghost predicate MembersAgree(members: seq<Member>)
    requires AcceptedMembers(members)
  {
    && PyNormalizeMembers(members).Some?
    && var out := PyNormalizeMembers(members).value;
    && ProperMembers(out) && AcceptedMembers(out) && KeysFrom(out, members)
    && var before := MeaningOfMembers(members);
    && MeaningOfMembers(out) == map k | k in before && k != COMMENT :: GoNormalize(before[k])
  }

  /**
   The two normalisers agree: on every value the printer accepts, Python's normalisation succeeds, stays
   printable, and its JSON value is what the Go port computes from the JSON value.
   */
  lemma {:induction false} NormalisersAgree(v: Value)
    requires Accepted(v) && Proper(v)
    ensures PyNormalize(v).Some?
    ensures Accepted(PyNormalize(v).value) && Proper(PyNormalize(v).value)
    ensures Meaning(PyNormalize(v).value) == GoNormalize(Meaning(v))
    decreases v, 1, 0
  {
    match v
    case Arr(items) => ItemsNormaliseAlike(v, items);
    case Obj(members) =>
      MembersNormaliseAlike(v, members);
      SortRequiredAgrees(PyNormalizeMembers(members).value);
    case _ =>
  }

  lemma {:induction false} ItemsNormaliseAlike(parent: Value, items: seq<Value>)
    requires parent.Arr? && forall x | x in items :: x in parent.items
    requires forall i | 0 <= i < |items| :: Accepted(items[i]) && Proper(items[i])
    ensures PyNormalizeItems(items).Some?
    ensures var out := PyNormalizeItems(items).value;
         && (forall i | 0 <= i < |out| :: Accepted(out[i]) && Proper(out[i]))
         && Meaning(Arr(out)) == GoNormalize(JArr(MeaningOfItems(items)))
    decreases parent, 0, |items|
  {
    if items != [] {
      assert items[0] in items;
      NormalisersAgree(items[0]);
      ItemsNormaliseAlike(parent, items[1..]);
      var rest := PyNormalizeItems(items[1..]).value;
      assert PyNormalizeItems(items).value == [PyNormalize(items[0]).value] + rest;
      MeaningCons(PyNormalize(items[0]).value, rest);
      NormalizeCons(Meaning(items[0]), MeaningOfItems(items[1..]));
    }
  }

  lemma MeaningCons(x: Value, rest: seq<Value>)
    requires Accepted(x) && forall i | 0 <= i < |rest| :: Accepted(rest[i])
    ensures (forall i | 0 <= i < |[x] + rest| :: Accepted(([x] + rest)[i]))
         && MeaningOfItems([x] + rest) == [Meaning(x)] + MeaningOfItems(rest)
  {
    assert ([x] + rest)[1..] == rest;
  }

  lemma NormalizeCons(x: Jv, xs: seq<Jv>)
    ensures GoNormalize(JArr([x] + xs)) == JArr([GoNormalize(x)] + GoNormalize(JArr(xs)).items)
  {
    var all, rest := GoNormalize(JArr([x] + xs)).items, GoNormalize(JArr(xs)).items;
    forall i | 0 <= i < |all| ensures all[i] == ([GoNormalize(x)] + rest)[i] {
      assert all[i] == GoNormalize(([x] + xs)[i]);
    }
  }

  lemma {:induction false} MembersNormaliseAlike(parent: Value, members: seq<Member>)
    requires parent.Obj? && forall m | m in members :: m in parent.members
    requires ProperMembers(members) && AcceptedMembers(members)
    ensures MembersAgree(members)
    decreases parent, 0, |members|
  {
    if members != [] {
      var m, tail := members[0], members[1..];
      assert m in members;
      TailIsProper(members);
      MembersNormaliseAlike(parent, tail);
      if m.key == COMMENT {
        CommentDropped(members);
      } else {
        NormalisersAgree(m.value);
        MemberNormalised(members);
      }
    }
  }

  lemma CommentDropped(members: seq<Member>)
    requires members != [] && members[0].key == COMMENT && AcceptedMembers(members) && ProperMembers(members)
    requires AcceptedMembers(members[1..]) && MembersAgree(members[1..])
    ensures MembersAgree(members)
  {
  }

  lemma MemberNormalised(members: seq<Member>)
    requires members != [] && members[0].key != COMMENT && AcceptedMembers(members) && ProperMembers(members)
    requires AcceptedMembers(members[1..]) && MembersAgree(members[1..])
    requires PyNormalize(members[0].value).Some?
    requires Accepted(PyNormalize(members[0].value).value) && Proper(PyNormalize(members[0].value).value)
    requires Meaning(PyNormalize(members[0].value).value) == GoNormalize(Meaning(members[0].value))
    ensures MembersAgree(members)
  {
    var m, tail := members[0], members[1..];
    TailIsProper(members);
    var head := Member(m.key, PyNormalize(m.value).value);
    var rest := PyNormalizeMembers(tail).value;
    ConsIsProper(head, rest);
    assert [m] + tail == members;
    var before, inner := MeaningOfMembers(members), MeaningOfMembers(tail);
    assert before == inner[m.key := Meaning(m.value)];
    assert MeaningOfMembers([head] + rest) == map k | k in before && k != COMMENT :: GoNormalize(before[k]);
  }

  /** Two schemas have the same normalised text exactly when they are the same contract. */
  lemma SameTextIffSameContract(a: Value, b: Value)
    requires Accepted(a) && Proper(a) && Accepted(b) && Proper(b)
    ensures PyNormalize(a).Some? && PyNormalize(b).Some?
    ensures Print(PyNormalize(a).value) == Print(PyNormalize(b).value) <==> SameContract(Meaning(a), Meaning(b))
  {
    NormalisersAgree(a);
    NormalisersAgree(b);
    SameTextIffSameJson(PyNormalize(a).value, PyNormalize(b).value);
    MeaningIsClean(a);
    MeaningIsClean(b);
    NormalizeForgets(Meaning(a), Meaning(b));
  }

  // ----- tool definitions -----

  const NAME: Text := Ascii("name")
  const DESCRIPTION: Text := Ascii("description")
  const INPUT_SCHEMA: Text := Ascii("inputSchema")
  const OUTPUT_SCHEMA: Text := Ascii("outputSchema")
  const ANNOTATIONS: Text := Ascii("annotations")

  function Find(members: seq<Member>, k: Text): Option<Value> {
    if members == [] then None
    else if members[0].key == k then Some(members[0].value)
    else Find(members[1..], k)
  }

  function FindOr(members: seq<Member>, k: Text, default: Value): Value {
    match Find(members, k)
    case Some(v) => v
    case None => default
  }

  /** Copy an optional schema, normalised, when the tool has it. */
  function AddOptional(tool: seq<Member>, k: Text, out: seq<Member>): Option<seq<Member>> {
    match Find(tool, k)
    case None => Some(out)
    case Some(v) =>
      var n :- PyNormalize(v);
      Some(out + [Member(k, n)])
  }

  /** `normalize_tool`; None where Python raises, as on a tool without a name. */
  function PyNormalizeTool(tool: seq<Member>): Option<seq<Member>> {
    var name :- Find(tool, NAME);
    var schema :- PyNormalize(FindOr(tool, INPUT_SCHEMA, Obj([])));
    var out := [Member(NAME, name), Member(DESCRIPTION, FindOr(tool, DESCRIPTION, Str([]))),
                Member(INPUT_SCHEMA, schema)];
    var withOutput :- AddOptional(tool, OUTPUT_SCHEMA, out);
    AddOptional(tool, ANNOTATIONS, withOutput)
  }

  function FieldOr(tool: map<Text, Jv>, k: Text, default: Jv): Jv {
    if k in tool then tool[k] else default
  }

  function GoOptional(tool: map<Text, Jv>, k: Text, out: map<Text, Jv>): map<Text, Jv> {
    if k in tool then out[k := GoNormalize(tool[k])] else out
  }

  /** `NormalizeTool`: a missing Go map entry reads as nil. */
  function GoNormalizeTool(tool: map<Text, Jv>): map<Text, Jv> {
    var out := map[
      NAME := FieldOr(tool, NAME, JNull),
      DESCRIPTION := FieldOr(tool, DESCRIPTION, JStr([])),
      INPUT_SCHEMA := GoNormalize(FieldOr(tool, INPUT_SCHEMA, JNull))];
    GoOptional(tool, ANNOTATIONS, GoOptional(tool, OUTPUT_SCHEMA, out))
  }

  lemma ToolKeysAreDistinct()
    ensures DistinctTexts([NAME, DESCRIPTION, INPUT_SCHEMA, OUTPUT_SCHEMA, ANNOTATIONS])
    ensures WellFormed(NAME) && WellFormed(DESCRIPTION) && WellFormed(INPUT_SCHEMA)
    ensures WellFormed(OUTPUT_SCHEMA) && WellFormed(ANNOTATIONS)
  {
    assert |NAME| == 4 && |OUTPUT_SCHEMA| == 12;
    assert |DESCRIPTION| == |INPUT_SCHEMA| == |ANNOTATIONS| == 11;
    assert DESCRIPTION[0] == 'd' as int && INPUT_SCHEMA[0] == 'i' as int && ANNOTATIONS[0] == 'a' as int;
  }

  predicate DistinctTexts(t: seq<Text>) {
    forall i, j | 0 <= i < j < |t| :: t[i] != t[j]
  }

  /** Looking a key up in the dict is looking it up in its JSON value. */
  lemma {:induction false} FindMeans(members: seq<Member>, k: Text)
    requires AcceptedMembers(members) && ProperMembers(members)
    ensures Find(members, k).Some? <==> k in MeaningOfMembers(members)
    ensures Find(members, k).Some? ==>
      && var v := Find(members, k).value;
      && Accepted(v) && Proper(v) && Meaning(v) == MeaningOfMembers(members)[k]
  {
    if members != [] && members[0].key != k {
      TailIsProper(members);
      FindMeans(members[1..], k);
    }
  }

  lemma {:induction false} SnocMeans(out: seq<Member>, m: Member)
    requires AcceptedMembers(out) && ProperMembers(out) && m.key !in KeySet(out)
    requires WellFormed(m.key) && Accepted(m.value) && Proper(m.value)
    ensures AcceptedMembers(out + [m]) && ProperMembers(out + [m])
    ensures KeySet(out + [m]) == KeySet(out) + {m.key}
    ensures MeaningOfMembers(out + [m]) == MeaningOfMembers(out)[m.key := Meaning(m.value)]
  {
    var all := out + [m];
    if out == [] {
      assert all == [m] + [];
      ConsIsProper(m, []);
    } else {
      TailIsProper(out);
      SnocMeans(out[1..], m);
      assert all == [out[0]] + (out[1..] + [m]);
      ConsIsProper(out[0], out[1..] + [m]);
    }
  }

  lemma AddOptionalMeans(tool: seq<Member>, k: Text, out: seq<Member>)
    requires AcceptedMembers(tool) && ProperMembers(tool) && AcceptedMembers(out) && ProperMembers(out)
    requires WellFormed(k) && k !in KeySet(out)
    ensures AddOptional(tool, k, out).Some?
    ensures var r := AddOptional(tool, k, out).value;
         && AcceptedMembers(r) && ProperMembers(r) && KeySet(r) <= KeySet(out) + {k}
         && MeaningOfMembers(r) == GoOptional(MeaningOfMembers(tool), k, MeaningOfMembers(out))
  {
    FindMeans(tool, k);
    var found := Find(tool, k);
    if found.Some? {
      NormalisersAgree(found.value);
      SnocMeans(out, Member(k, PyNormalize(found.value).value));
    }
  }

  lemma ThreeMembers(name: Value, description: Value, schema: Value) returns (out: seq<Member>)
    requires Accepted(name) && Proper(name) && Accepted(description) && Proper(description)
    requires Accepted(schema) && Proper(schema)
    ensures out == [Member(NAME, name), Member(DESCRIPTION, description), Member(INPUT_SCHEMA, schema)]
    ensures AcceptedMembers(out) && ProperMembers(out) && KeySet(out) == {NAME, DESCRIPTION, INPUT_SCHEMA}
    ensures MeaningOfMembers(out)
         == map[NAME := Meaning(name), DESCRIPTION := Meaning(description), INPUT_SCHEMA := Meaning(schema)]
  {
    ToolKeysAreDistinct();
    var texts := [NAME, DESCRIPTION, INPUT_SCHEMA, OUTPUT_SCHEMA, ANNOTATIONS];
    assert texts[0] != texts[1] && texts[0] != texts[2] && texts[1] != texts[2];
    SnocMeans([], Member(NAME, name));
    SnocMeans([] + [Member(NAME, name)], Member(DESCRIPTION, description));
    SnocMeans([] + [Member(NAME, name)] + [Member(DESCRIPTION, description)], Member(INPUT_SCHEMA, schema));
    out := [] + [Member(NAME, name)] + [Member(DESCRIPTION, description)] + [Member(INPUT_SCHEMA, schema)];
    assert out == [Member(NAME, name), Member(DESCRIPTION, description), Member(INPUT_SCHEMA, schema)];
  }

  /** A tool's JSON value with an empty input schema where it has none. */
  function WithSchema(tool: map<Text, Jv>): map<Text, Jv> {
    tool[INPUT_SCHEMA := FieldOr(tool, INPUT_SCHEMA, JObj(map[]))]
  }

  /** The three fields every normalised tool has. */
  function Three(m: map<Text, Jv>): map<Text, Jv>
    requires NAME in m
  {
    map[NAME := m[NAME],
        DESCRIPTION := FieldOr(m, DESCRIPTION, JStr([])),
        INPUT_SCHEMA := GoNormalize(FieldOr(m, INPUT_SCHEMA, JObj(map[])))]
  }

  lemma RequiredParts(tool: seq<Member>) returns (out: seq<Member>)
    requires AcceptedMembers(tool) && ProperMembers(tool) && Find(tool, NAME).Some?
    ensures PyNormalize(FindOr(tool, INPUT_SCHEMA, Obj([]))).Some?
    ensures out == [Member(NAME, Find(tool, NAME).value),
                    Member(DESCRIPTION, FindOr(tool, DESCRIPTION, Str([]))),
                    Member(INPUT_SCHEMA, PyNormalize(FindOr(tool, INPUT_SCHEMA, Obj([]))).value)]
    ensures AcceptedMembers(out) && ProperMembers(out) && KeySet(out) == {NAME, DESCRIPTION, INPUT_SCHEMA}
    ensures var m := MeaningOfMembers(tool);
         NAME in m && MeaningOfMembers(out) == Three(m)
  {
    FindMeans(tool, NAME);
    FindMeans(tool, DESCRIPTION);
    FindMeans(tool, INPUT_SCHEMA);
    var schema := FindOr(tool, INPUT_SCHEMA, Obj([]));
    assert Meaning(Obj([])) == JObj(map[]);
    NormalisersAgree(schema);
    out := ThreeMembers(Find(tool, NAME).value, FindOr(tool, DESCRIPTION, Str([])), PyNormalize(schema).value);
  }

  /** Python's tool is Go's, for the tool with its input schema filled in. */
  lemma PyToolMeans(tool: seq<Member>)
    requires AcceptedMembers(tool) && ProperMembers(tool)
    ensures PyNormalizeTool(tool).Some? <==> NAME in MeaningOfMembers(tool)
    ensures PyNormalizeTool(tool).Some? ==>
      && var out := PyNormalizeTool(tool).value;
      && AcceptedMembers(out) && ProperMembers(out)
      && MeaningOfMembers(out) == GoNormalizeTool(WithSchema(MeaningOfMembers(tool)))
  {
    FindMeans(tool, NAME);
    if NAME in MeaningOfMembers(tool) {
      var out := RequiredParts(tool);
      ToolKeysAreDistinct();
      var texts := [NAME, DESCRIPTION, INPUT_SCHEMA, OUTPUT_SCHEMA, ANNOTATIONS];
      assert texts[3] !in {texts[0], texts[1], texts[2]} && texts[4] !in {texts[0], texts[1], texts[2], texts[3]};
      AddOptionalMeans(tool, OUTPUT_SCHEMA, out);
      AddOptionalMeans(tool, ANNOTATIONS, AddOptional(tool, OUTPUT_SCHEMA, out).value);
      FilledTool(MeaningOfMembers(tool));
    }
  }

  lemma FilledTool(m: map<Text, Jv>)
    requires NAME in m
    ensures GoNormalizeTool(WithSchema(m)) == GoOptional(m, ANNOTATIONS, GoOptional(m, OUTPUT_SCHEMA, Three(m)))
  {
    ToolKeysAreDistinct();
    var texts := [NAME, DESCRIPTION, INPUT_SCHEMA, OUTPUT_SCHEMA, ANNOTATIONS];
    assert texts[2] !in {texts[0], texts[1], texts[3], texts[4]};
  }

  /** The agreement of the two sides on a tool that is portable as a whole. */
  lemma PortableToolsAgree(tool: seq<Member>)
    requires AcceptedMembers(tool) && ProperMembers(tool)
    ensures (PyNormalizeTool(tool).Some? && AcceptedMembers(PyNormalizeTool(tool).value)
             && MeaningOfMembers(PyNormalizeTool(tool).value) == GoNormalizeTool(MeaningOfMembers(tool)))
       <==> NAME in MeaningOfMembers(tool) && INPUT_SCHEMA in MeaningOfMembers(tool)
  {
    PyToolMeans(tool);
    var m := MeaningOfMembers(tool);
    if INPUT_SCHEMA in m {
      assert WithSchema(m) == m;
    } else {
      SchemaOf(m);
      SchemaOf(WithSchema(m));
    }
  }

  lemma SchemaOf(m: map<Text, Jv>)
    ensures INPUT_SCHEMA in GoNormalizeTool(m)
    ensures GoNormalizeTool(m)[INPUT_SCHEMA] == GoNormalize(FieldOr(m, INPUT_SCHEMA, JNull))
  {
    ToolKeysAreDistinct();
    var texts := [NAME, DESCRIPTION, INPUT_SCHEMA, OUTPUT_SCHEMA, ANNOTATIONS];
    assert texts[2] !in {texts[0], texts[1], texts[3], texts[4]};
  }

  predicate SameOptional(a: map<Text, Jv>, b: map<Text, Jv>, k: Text) {
    (k in a <==> k in b) && (k in a && k in b ==> SameContract(a[k], b[k]))
  }

  /** Two tools with names are the same contract. */
  predicate SameTool(a: map<Text, Jv>, b: map<Text, Jv>)
    requires NAME in a && NAME in b
  {
    && a[NAME] == b[NAME]
    && FieldOr(a, DESCRIPTION, JStr([])) == FieldOr(b, DESCRIPTION, JStr([]))
    && SameContract(FieldOr(a, INPUT_SCHEMA, JObj(map[])), FieldOr(b, INPUT_SCHEMA, JObj(map[])))
    && SameOptional(a, b, OUTPUT_SCHEMA)
    && SameOptional(a, b, ANNOTATIONS)
  }

  lemma OptionalAt(m: map<Text, Jv>, k: Text, out: map<Text, Jv>)
    requires k !in out
    ensures k in GoOptional(m, k, out) <==> k in m
    ensures k in m ==> GoOptional(m, k, out)[k] == GoNormalize(m[k])
    ensures forall j | j != k :: j in GoOptional(m, k, out) <==> j in out
    ensures forall j | j in out :: GoOptional(m, k, out)[j] == out[j]
  {
  }

  /** Adding an optional schema to two equal or different results keeps them so, if the schema says the same. */
  lemma OptionalForgets(a: map<Text, Jv>, b: map<Text, Jv>, k: Text, x: map<Text, Jv>, y: map<Text, Jv>)
    requires Clean(JObj(a)) && Clean(JObj(b)) && k !in x && k !in y
    ensures GoOptional(a, k, x) == GoOptional(b, k, y) <==> x == y && SameOptional(a, b, k)
  {
    OptionalAt(a, k, x);
    OptionalAt(b, k, y);
    if k in a && k in b {
      NormalizeForgets(a[k], b[k]);
    }
    var p, q := GoOptional(a, k, x), GoOptional(b, k, y);
    if p == q {
      assert k in p <==> k in q;
      forall j ensures j in x <==> j in y {
        assert j in p <==> j in q;
      }
      forall j | j in x ensures x[j] == y[j] {
        assert p[j] == q[j];
      }
      assert x == y;
    }
  }

  lemma ThreeForgets(a: map<Text, Jv>, b: map<Text, Jv>)
    requires NAME in a && NAME in b && Clean(JObj(a)) && Clean(JObj(b))
    ensures Three(a) == Three(b)
       <==> && a[NAME] == b[NAME]
            && FieldOr(a, DESCRIPTION, JStr([])) == FieldOr(b, DESCRIPTION, JStr([]))
            && SameContract(FieldOr(a, INPUT_SCHEMA, JObj(map[])), FieldOr(b, INPUT_SCHEMA, JObj(map[])))
  {
    ToolKeysAreDistinct();
    var texts := [NAME, DESCRIPTION, INPUT_SCHEMA, OUTPUT_SCHEMA, ANNOTATIONS];
    assert texts[0] != texts[1] && texts[0] != texts[2] && texts[1] != texts[2];
    NormalizeForgets(FieldOr(a, INPUT_SCHEMA, JObj(map[])), FieldOr(b, INPUT_SCHEMA, JObj(map[])));
    var x, y := Three(a), Three(b);
    assert x == y <==> x[NAME] == y[NAME] && x[DESCRIPTION] == y[DESCRIPTION] && x[INPUT_SCHEMA] == y[INPUT_SCHEMA];
  }

  lemma ToolForgets(m: map<Text, Jv>, n: map<Text, Jv>)
    requires NAME in m && NAME in n && Clean(JObj(m)) && Clean(JObj(n))
    ensures GoNormalizeTool(WithSchema(m)) == GoNormalizeTool(WithSchema(n)) <==> SameTool(m, n)
  {
    FilledTool(m);
    FilledTool(n);
    ToolKeysAreDistinct();
    var texts := [NAME, DESCRIPTION, INPUT_SCHEMA, OUTPUT_SCHEMA, ANNOTATIONS];
    assert texts[3] !in {texts[0], texts[1], texts[2]} && texts[4] !in {texts[0], texts[1], texts[2], texts[3]};
    ThreeForgets(m, n);
    OptionalForgets(m, n, OUTPUT_SCHEMA, Three(m), Three(n));
    OptionalForgets(m, n, ANNOTATIONS, GoOptional(m, OUTPUT_SCHEMA, Three(m)), GoOptional(n, OUTPUT_SCHEMA, Three(n)));
  }

  lemma SamePortableToolText(a: seq<Member>, b: seq<Member>)
    requires AcceptedMembers(a) && ProperMembers(a) && AcceptedMembers(b) && ProperMembers(b)
    requires NAME in MeaningOfMembers(a) && NAME in MeaningOfMembers(b)
    ensures PyNormalizeTool(a).Some? && PyNormalizeTool(b).Some?
    ensures Print(Obj(PyNormalizeTool(a).value)) == Print(Obj(PyNormalizeTool(b).value))
       <==> SameTool(MeaningOfMembers(a), MeaningOfMembers(b))
  {
    PyToolMeans(a);
    PyToolMeans(b);
    var x, y := PyNormalizeTool(a).value, PyNormalizeTool(b).value;
    SameTextIffSameJson(Obj(x), Obj(y));
    assert Meaning(Obj(a)) == JObj(MeaningOfMembers(a)) && Meaning(Obj(b)) == JObj(MeaningOfMembers(b));
    MeaningIsClean(Obj(a));
    MeaningIsClean(Obj(b));
    ToolForgets(MeaningOfMembers(a), MeaningOfMembers(b));
  }

  // ----- only five fields are read -----

  const TOOL_KEYS := [NAME, DESCRIPTION, INPUT_SCHEMA, OUTPUT_SCHEMA, ANNOTATIONS]

  /** The fields of a tool that normalising reads; the others need not be portable. */
  function Core(tool: seq<Member>): seq<Member> {
    if tool == [] then []
    else (if tool[0].key in TOOL_KEYS then [tool[0]] else []) + Core(tool[1..])
  }

  lemma {:induction false} CoreFinds(tool: seq<Member>, k: Text)
    requires k in TOOL_KEYS
    ensures Find(Core(tool), k) == Find(tool, k)
  {
    if tool == [] {
      assert Core(tool) == [];
    } else {
      CoreFinds(tool[1..], k);
      if tool[0].key in TOOL_KEYS {
        assert Core(tool) == [tool[0]] + Core(tool[1..]);
        assert Core(tool)[1..] == Core(tool[1..]);
      } else {
        assert Core(tool) == Core(tool[1..]);
      }
    }
  }

  lemma CoreNormalises(tool: seq<Member>)
    ensures PyNormalizeTool(tool) == PyNormalizeTool(Core(tool))
  {
    assert TOOL_KEYS[0] == NAME && TOOL_KEYS[1] == DESCRIPTION && TOOL_KEYS[2] == INPUT_SCHEMA;
    assert TOOL_KEYS[3] == OUTPUT_SCHEMA && TOOL_KEYS[4] == ANNOTATIONS;
    CoreFinds(tool, NAME);
    CoreFinds(tool, DESCRIPTION);
    CoreFinds(tool, INPUT_SCHEMA);
    CoreFinds(tool, OUTPUT_SCHEMA);
    CoreFinds(tool, ANNOTATIONS);
  }

  lemma {:induction false} CoreFrom(tool: seq<Member>)
    ensures forall m | m in Core(tool) :: m in tool
  {
    if tool != [] {
      CoreFrom(tool[1..]);
      forall m | m in Core(tool) ensures m in tool {
        if m in Core(tool[1..]) {
          assert m in tool[1..];
        } else {
          assert m == tool[0];
        }
      }
    }
  }

  lemma {:induction false} CoreIsProper(tool: seq<Member>)
    requires ProperMembers(tool)
    ensures ProperMembers(Core(tool))
  {
    if tool == [] {
      assert Core(tool) == [];
    } else {
      var tail := tool[1..];
      assert ProperMembers(tail);
      CoreIsProper(tail);
      CoreFrom(tail);
      var rest := Core(tail);
      if tool[0].key in TOOL_KEYS {
        forall i | 0 <= i < |rest| ensures rest[i].key != tool[0].key {
          assert rest[i] in tail;
          var j :| 0 <= j < |tail| && tail[j] == rest[i];
          assert tool[j + 1] == rest[i];
        }
        var all := [tool[0]] + rest;
        assert Core(tool) == all;
      } else {
        assert Core(tool) == rest;
      }
    }
  }

  /** The Go side decoded the same five fields, and whatever else. */
  predicate ReadsAs(g: map<Text, Jv>, m: map<Text, Jv>) {
    forall k | k in TOOL_KEYS :: (k in g <==> k in m) && (k in m ==> g[k] == m[k])
  }

  lemma GoReadsFive(g: map<Text, Jv>, m: map<Text, Jv>)
    requires ReadsAs(g, m)
    ensures GoNormalizeTool(g) == GoNormalizeTool(m) && (NAME in g <==> NAME in m)
      && (INPUT_SCHEMA in g <==> INPUT_SCHEMA in m)
  {
    assert TOOL_KEYS[0] == NAME && TOOL_KEYS[1] == DESCRIPTION && TOOL_KEYS[2] == INPUT_SCHEMA;
    assert TOOL_KEYS[3] == OUTPUT_SCHEMA && TOOL_KEYS[4] == ANNOTATIONS;
  }

  /**
   Both sides normalise a tool to the same JSON value exactly when it has a name and an input schema:
   without a name Python raises, without a schema Python hashes `{}` and Go hashes null.  Fields neither
   side reads may hold anything.
   */
  lemma ToolNormalisersAgree(tool: seq<Member>, g: map<Text, Jv>)
    requires ProperMembers(tool) && AcceptedMembers(Core(tool)) && ReadsAs(g, MeaningOfMembers(Core(tool)))
    ensures (PyNormalizeTool(tool).Some? && AcceptedMembers(PyNormalizeTool(tool).value)
             && MeaningOfMembers(PyNormalizeTool(tool).value) == GoNormalizeTool(g))
       <==> NAME in g && INPUT_SCHEMA in g
  {
    CoreNormalises(tool);
    CoreIsProper(tool);
    GoReadsFive(g, MeaningOfMembers(Core(tool)));
    PortableToolsAgree(Core(tool));
  }

  /** The text that is hashed for a definition determines its contract, and is determined by it. */
  lemma SameToolTextIffSameTool(a: seq<Member>, b: seq<Member>)
    requires ProperMembers(a) && AcceptedMembers(Core(a)) && ProperMembers(b) && AcceptedMembers(Core(b))
    requires NAME in MeaningOfMembers(Core(a)) && NAME in MeaningOfMembers(Core(b))
    ensures PyNormalizeTool(a).Some? && PyNormalizeTool(b).Some?
    ensures Print(Obj(PyNormalizeTool(a).value)) == Print(Obj(PyNormalizeTool(b).value))
       <==> SameTool(MeaningOfMembers(Core(a)), MeaningOfMembers(Core(b)))
  {
    CoreNormalises(a);
    CoreNormalises(b);
    CoreIsProper(a);
    CoreIsProper(b);
    SamePortableToolText(Core(a), Core(b));
  }
}
