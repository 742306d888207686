/**
 What the schema differ reports, as functions of the two schemas.  `None` means that the Python
 code raises (a malformed schema reached a comparison or a `.items()` call).
 */
module Findings {
  import opened Wrappers
  import opened Json
  import opened Schema
  import opened Renames

  datatype Severity = Info | Warn | Breaking | Security

  datatype Rule =
    | TypeChanged | EnumValueRemoved | EnumValueAdded | ConstraintTightened | DefaultChanged
    | AdditionalPropertiesRestricted | ParamRenamed | ParamRemoved | ParamAddedRequired
    | ParamAddedOptional | RequiredAdded | RequiredRemoved | AnnotationChanged

  datatype Finding = Finding(severity: Severity, rule: Rule, path: string)

  type Report = Option<seq<Finding>>

  /** Findings already made, followed by those of the rest of the work. */
  function Then(fs: seq<Finding>, rest: Report): Report {
    if rest.Some? then Some(fs + rest.value) else None
  }

  lemma ThenUnits(fs: seq<Finding>, r: Report)
    ensures Then([], r) == r && Then(fs, Some([])) == Some(fs)
  {
    assert fs + [] == fs;
    if r.Some? {
      assert [] + r.value == r.value;
    }
  }

  lemma ThenAssociates(fs: seq<Finding>, gs: seq<Finding>, r: Report)
    ensures Then(fs, Then(gs, r)) == Then(fs + gs, r)
  {
    if r.Some? {
      assert fs + (gs + r.value) == fs + gs + r.value;
    }
  }

  // ----- type -----

  function ClassifyTypeChange(before: set<string>, after: set<string>): Option<Severity> {
    if before == after then None
    else if before == {"integer"} && after == {"number"} then Some(Warn)
    else if before < after then Some(Warn)
    else Some(Breaking)
  }

  function TypeFindings(pointer: string, before: Json, after: Json): seq<Finding>
    requires before.Obj? && after.Obj?
  {
    var c := ClassifyTypeChange(TypeSet(before), TypeSet(after));
    if c.None? then [] else [Finding(c.value, TypeChanged, pointer + "/type")]
  }

  // ----- enum -----

  /** `{_hashable(v) for v in (enum or [])}`: iterating a string gives its characters, iterating a
      dict gives its keys, and iterating a number raises. */
  function EnumKeys(lib: Library, enum: Json): Option<set<HashKey>> {
    if !Truthy(enum) then Some({})
    else
      match enum
      case Arr(items) => Some(set i | 0 <= i < |items| :: Hashable(lib, items[i]))
      case Str(s) => Some(set i | 0 <= i < |s| :: StrKey([s[i]]))
      case Obj(fields) => Some(set i | 0 <= i < |fields| :: StrKey(fields[i].key))
      case _ => None
  }

  function EnumFindings(lib: Library, pointer: string, before: Json, after: Json): Report
    requires before.Obj? && after.Obj?
  {
    var b, a := Get(before, "enum"), Get(after, "enum");
    if b.Null? && a.Null? then Some([])
    else
      var bSet :- EnumKeys(lib, b);
      var aSet :- EnumKeys(lib, a);
      Some((if bSet - aSet != {} then [Finding(Breaking, EnumValueRemoved, pointer + "/enum")] else [])
           + (if aSet - bSet != {} then [Finding(Info, EnumValueAdded, pointer + "/enum")] else []))
  }

  // ----- bounds, pattern, format -----

  const UPPER_BOUNDS := ["maximum", "maxLength", "exclusiveMaximum"]
  const LOWER_BOUNDS := ["minimum", "minLength", "exclusiveMinimum"]
  const TEXT_KEYS := ["pattern", "format"]

  /** One bound: a number that appears, or that moves inward, is a tightening. */
  function BoundFindings(pointer: string, key: string, upper: bool, before: Json, after: Json): Report
    requires before.Obj? && after.Obj?
  {
    var b, a := Get(before, key), Get(after, key);
    var tightened := [Finding(Warn, ConstraintTightened, pointer + "/" + key)];
    if Numeric(a).None? then Some([])
    else if b.Null? then Some(tightened)
    else
      var old_ :- Numeric(b);
      var moved := if upper then Numeric(a).value < old_ else Numeric(a).value > old_;
      Some(if moved then tightened else [])
  }

  function AllBoundFindings(pointer: string, keys: seq<string>, upper: bool, before: Json, after: Json): Report
    requires before.Obj? && after.Obj?
  {
    if keys == [] then Some([])
    else
      var f :- BoundFindings(pointer, keys[0], upper, before, after);
      Then(f, AllBoundFindings(pointer, keys[1..], upper, before, after))
  }

  function TextFindings(pointer: string, keys: seq<string>, before: Json, after: Json): seq<Finding>
    requires before.Obj? && after.Obj?
  {
    if keys == [] then []
    else
      var b, a := Get(before, keys[0]), Get(after, keys[0]);
      (if !a.Null? && !PyEq(a, b) then [Finding(Warn, ConstraintTightened, pointer + "/" + keys[0])] else [])
      + TextFindings(pointer, keys[1..], before, after)
  }

  function ConstraintFindings(pointer: string, before: Json, after: Json): Report
    requires before.Obj? && after.Obj?
  {
    var upper :- AllBoundFindings(pointer, UPPER_BOUNDS, true, before, after);
    var lower :- AllBoundFindings(pointer, LOWER_BOUNDS, false, before, after);
    Some(upper + lower + TextFindings(pointer, TEXT_KEYS, before, after))
  }

  // ----- default, additionalProperties -----

  function DefaultFindings(pointer: string, before: Json, after: Json): seq<Finding>
    requires before.Obj? && after.Obj?
  {
    var b, a := Lookup(before.fields, "default"), Lookup(after.fields, "default");
    if a.None? && b.None? then []
    else if a.Some? && b.Some? && PyEq(a.value, b.value) then []
    else [Finding(Warn, DefaultChanged, pointer + "/default")]
  }

  function AdditionalProperties(schema: Json): Json
    requires schema.Obj?
  {
    var r := Lookup(schema.fields, "additionalProperties");
    if r.Some? then r.value else Bool(true)
  }

  predicate AllowsExtra(schema: Json)
    requires schema.Obj?
  {
    var v := AdditionalProperties(schema);
    v == Bool(true) || v.Obj?
  }

  function AdditionalFindings(pointer: string, before: Json, after: Json): seq<Finding>
    requires before.Obj? && after.Obj?
  {
    if AllowsExtra(before) && AdditionalProperties(after) == Bool(false) then
      [Finding(Breaking, AdditionalPropertiesRestricted, pointer + "/additionalProperties")]
    else []
  }

  // ----- properties -----

  function DictFields(fields: seq<Field>): seq<Field> {
    if fields == [] then []
    else (if fields[0].value.Obj? then [fields[0]] else []) + DictFields(fields[1..])
  }

  /** The dict-valued properties of a schema; a truthy non-dict has no `.items()`. */
  function PropsOf(schema: Json): Option<seq<Field>>
    requires schema.Obj?
  {
    var p := Get(schema, "properties");
    if !Truthy(p) then Some([])
    else if p.Obj? then Some(DictFields(p.fields))
    else None
  }

  /** `set(schema.get("required") or [])` restricted to strings, the only names it is asked about. */
  function RequiredOf(schema: Json): Option<set<string>>
    requires schema.Obj?
  {
    var r := Get(schema, "required");
    if !Truthy(r) then Some({})
    else
      match r
      case Arr(items) =>
        if exists i | 0 <= i < |items| :: items[i].Arr? || items[i].Obj? then None
        else Some(StringsOf(items))
      case Str(s) => Some(set i | 0 <= i < |s| :: [s[i]])
      case Obj(fields) => Some(set i | 0 <= i < |fields| :: fields[i].key)
      case _ => None
  }

  function NamesIn(fields: seq<Field>, others: seq<Field>): seq<string> {
    if fields == [] then []
    else (if Has(others, fields[0].key) then [fields[0].key] else []) + NamesIn(fields[1..], others)
  }

  function NamesNotIn(fields: seq<Field>, others: seq<Field>): seq<string> {
    if fields == [] then []
    else (if Has(others, fields[0].key) then [] else [fields[0].key]) + NamesNotIn(fields[1..], others)
  }

  function PropPath(pointer: string, name: string): string {
    pointer + "/properties/" + name
  }

  function RenamedFindings(pointer: string, pairs: seq<Candidate>): seq<Finding> {
    if pairs == [] then []
    else [Finding(Breaking, ParamRenamed, PropPath(pointer, pairs[0].newName))] + RenamedFindings(pointer, pairs[1..])
  }

  function RemovedFindings(pointer: string, names: seq<string>): seq<Finding> {
    if names == [] then []
    else [Finding(Breaking, ParamRemoved, PropPath(pointer, names[0]))] + RemovedFindings(pointer, names[1..])
  }

  function AddedFinding(pointer: string, name: string, required: set<string>): Finding {
    if name in required then Finding(Breaking, ParamAddedRequired, PropPath(pointer, name))
    else Finding(Info, ParamAddedOptional, PropPath(pointer, name))
  }

  function AddedFindings(pointer: string, names: seq<string>, required: set<string>): seq<Finding> {
    if names == [] then []
    else [AddedFinding(pointer, names[0], required)] + AddedFindings(pointer, names[1..], required)
  }

  function RequiredFindings(pointer: string, name: string, was: bool, is_: bool): seq<Finding> {
    if is_ && !was then [Finding(Breaking, RequiredAdded, PropPath(pointer, name))]
    else if was && !is_ then [Finding(Info, RequiredRemoved, PropPath(pointer, name))]
    else []
  }

  function AsDict(v: Json): (d: Json)
    ensures d.Obj? && Size(d) <= Size(v)
  {
    if v.Obj? then v else EmptyObj
  }

  lemma {:induction false} DictFieldsSize(fields: seq<Field>)
    ensures SizeFields(DictFields(fields)) <= SizeFields(fields)
  {
    if fields != [] {
      DictFieldsSize(fields[1..]);
      var rest := DictFields(fields[1..]);
      if fields[0].value.Obj? {
        assert DictFields(fields) == [fields[0]] + rest;
        assert ([fields[0]] + rest)[1..] == rest;
      } else {
        assert DictFields(fields) == rest;
      }
    }
  }

  lemma GetIsSmaller(d: Json, key: string)
    requires d.Obj?
    ensures Size(Get(d, key)) <= Size(d)
    ensures Has(d.fields, key) ==> Size(Get(d, key)) < Size(d)
  {
    var r := Lookup(d.fields, key);
    if r.Some? {
      FieldIsSmaller(d.fields, Field(key, r.value));
    }
  }

  lemma PropsAreSmaller(schema: Json)
    requires schema.Obj? && PropsOf(schema).Some?
    ensures SizeFields(PropsOf(schema).value) < Size(schema)
  {
    var p := Get(schema, "properties");
    if Truthy(p) {
      DictFieldsSize(p.fields);
      GetIsSmaller(schema, "properties");
    }
  }

  lemma PropIsSmaller(props: seq<Field>, name: string)
    requires Has(props, name)
    ensures Size(Prop(props, name)) <= SizeFields(props)
  {
    FieldIsSmaller(props, Field(name, Lookup(props, name).value));
  }

  /** The properties present on both sides, in the old order. */
  function CommonFindings(lib: Library, pointer: string, names: seq<string>,
                          bProps: seq<Field>, aProps: seq<Field>, bReq: set<string>, aReq: set<string>): Report
    requires forall n | n in names :: Has(bProps, n) && Has(aProps, n)
    decreases SizeFields(bProps) + SizeFields(aProps), 4, |names|
  {
    if names == [] then Some([])
    else
      var n := names[0];
      assert Size(Prop(bProps, n)) + Size(Prop(aProps, n)) <= SizeFields(bProps) + SizeFields(aProps) by {
        PropIsSmaller(bProps, n);
        PropIsSmaller(aProps, n);
      }
      var one :- OneCommon(lib, pointer, n, Prop(bProps, n), Prop(aProps, n), n in bReq, n in aReq);
      Then(one, CommonFindings(lib, pointer, names[1..], bProps, aProps, bReq, aReq))
  }

  /** One common property: whether it became required or optional, then its own schema. */
  function OneCommon(lib: Library, pointer: string, name: string, before: Json, after: Json, was: bool,
                     is_: bool): Report
    decreases Size(before) + Size(after), 3, 0
  {
    var node :- NodeFindings(lib, PropPath(pointer, name), before, after);
    Some(RequiredFindings(pointer, name, was, is_) + node)
  }

  lemma {:induction false} NamesInFacts(fields: seq<Field>, others: seq<Field>, n: string)
    ensures n in NamesIn(fields, others) <==> Has(fields, n) && Has(others, n)
    ensures n in NamesNotIn(fields, others) <==> Has(fields, n) && !Has(others, n)
  {
    if fields != [] {
      NamesInFacts(fields[1..], others, n);
    }
  }

  /** The findings about names present on one side only. */
  function NameFindings(lib: Library, pointer: string, bProps: seq<Field>, aProps: seq<Field>,
                        aReq: set<string>): seq<Finding>
  {
    var m := MatchingOf(lib, NamesNotIn(bProps, aProps), NamesNotIn(aProps, bProps), bProps, aProps);
    RenamedFindings(pointer, m.pairs)
    + RemovedFindings(pointer, m.leftoverRemoved)
    + AddedFindings(pointer, m.leftoverAdded, aReq)
  }

  function PropertyFindings(lib: Library, pointer: string, before: Json, after: Json): Report
    requires before.Obj? && after.Obj?
    decreases Size(before) + Size(after), 1, 0
  {
    var bProps :- PropsOf(before);
    var aProps :- PropsOf(after);
    var bReq :- RequiredOf(before);
    var aReq :- RequiredOf(after);
    assert SizeFields(bProps) + SizeFields(aProps) < Size(before) + Size(after) by {
      PropsAreSmaller(before);
      PropsAreSmaller(after);
    }
    var common := NamesIn(bProps, aProps);
    assert forall n | n in common :: Has(bProps, n) && Has(aProps, n) by {
      forall n | n in common ensures Has(bProps, n) && Has(aProps, n) {
        NamesInFacts(bProps, aProps, n);
      }
    }
    Then(NameFindings(lib, pointer, bProps, aProps, aReq),
         CommonFindings(lib, pointer, common, bProps, aProps, bReq, aReq))
  }

  // ----- one node -----

  predicate ComparesProperties(before: Json, after: Json)
    requires before.Obj? && after.Obj?
  {
    || "object" in TypeSet(before) || "object" in TypeSet(after)
    || Has(before.fields, "properties") || Has(after.fields, "properties")
  }

  predicate ComparesItems(before: Json, after: Json)
    requires before.Obj? && after.Obj?
  {
    && ("array" in TypeSet(before) || "array" in TypeSet(after)
        || Has(before.fields, "items") || Has(after.fields, "items"))
    && (Get(before, "items").Obj? || Get(after, "items").Obj?)
  }

  function ObjectFindings(lib: Library, pointer: string, b: Json, a: Json): Report
    requires b.Obj? && a.Obj?
    decreases Size(b) + Size(a), 2, 0
  {
    if ComparesProperties(b, a) then
      var props :- PropertyFindings(lib, pointer, b, a);
      Some(props + AdditionalFindings(pointer, b, a))
    else Some([])
  }

  function ItemFindings(lib: Library, pointer: string, b: Json, a: Json): Report
    requires b.Obj? && a.Obj?
    decreases Size(b) + Size(a), 2, 0
  {
    if ComparesItems(b, a) then
      assert Size(Get(b, "items")) + Size(Get(a, "items")) < Size(b) + Size(a) by {
        GetIsSmaller(b, "items");
        GetIsSmaller(a, "items");
      }
      NodeFindings(lib, pointer + "/items", Get(b, "items"), Get(a, "items"))
    else Some([])
  }

  /** `_diff_node`. */
  function NodeFindings(lib: Library, pointer: string, before: Json, after: Json): Report
    decreases Size(before) + Size(after), 2, 1
  {
    var b, a := AsDict(before), AsDict(after);
    var enums :- EnumFindings(lib, pointer, b, a);
    var constraints :- ConstraintFindings(pointer, b, a);
    var object_ :- ObjectFindings(lib, pointer, b, a);
    var items :- ItemFindings(lib, pointer, b, a);
    Some(TypeFindings(pointer, b, a) + enums + constraints + DefaultFindings(pointer, b, a) + object_ + items)
  }
}
