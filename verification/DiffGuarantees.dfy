/** What callers may conclude from a report, and inputs that show where the conclusion stops. */
module DiffGuarantees {
  import opened Wrappers
  import opened Json
  import opened Schema
  import opened Renames
  import opened Findings
  import opened Compatibility
  import opened Acceptance

  // ----- when the differ cannot raise -----

  /** The shapes the differ reads without raising: iterable enums, numeric bounds, a dict of
      properties and a list of required names, at every node it visits. */
  ghost predicate Readable(lib: Library, v: Json)
    decreases Size(v)
  {
    v.Obj? ==>
      && EnumKeys(lib, Get(v, "enum")).Some?
      && (forall k | k in UPPER_BOUNDS + LOWER_BOUNDS :: Get(v, k).Null? || Numeric(Get(v, k)).Some?)
      && RequiredOf(v).Some?
      && PropsOf(v).Some?
      && (PropsAreSmaller(v);
          forall n | Has(PropsOf(v).value, n) ::
            PropIsSmaller(PropsOf(v).value, n);
            Readable(lib, Prop(PropsOf(v).value, n)))
      && (if Get(v, "items").Obj? then
            GetIsSmaller(v, "items");
            Readable(lib, Get(v, "items"))
          else true)
  }

  lemma {:induction false} BoundsNeverRaise(pointer: string, keys: seq<string>, upper: bool, before: Json, after: Json)
    requires before.Obj? && after.Obj?
    requires forall k | k in keys :: Get(before, k).Null? || Numeric(Get(before, k)).Some?
    ensures AllBoundFindings(pointer, keys, upper, before, after).Some?
  {
    if keys != [] {
      assert keys[0] in keys;
      BoundsNeverRaise(pointer, keys[1..], upper, before, after);
    }
  }

  lemma ConstraintsNeverRaise(lib: Library, pointer: string, before: Json, after: Json)
    requires before.Obj? && after.Obj? && Readable(lib, before)
    ensures ConstraintFindings(pointer, before, after).Some?
  {
    forall k | k in UPPER_BOUNDS || k in LOWER_BOUNDS ensures k in UPPER_BOUNDS + LOWER_BOUNDS {}
    BoundsNeverRaise(pointer, UPPER_BOUNDS, true, before, after);
    BoundsNeverRaise(pointer, LOWER_BOUNDS, false, before, after);
  }

  lemma {:induction false} CommonNeverRaises(lib: Library, pointer: string, names: seq<string>,
                            bProps: seq<Field>, aProps: seq<Field>, bReq: set<string>, aReq: set<string>)
    requires forall n | n in names :: Has(bProps, n) && Has(aProps, n)
    requires forall n | n in names :: Readable(lib, Prop(bProps, n)) && Readable(lib, Prop(aProps, n))
    ensures CommonFindings(lib, pointer, names, bProps, aProps, bReq, aReq).Some?
    decreases SizeFields(bProps) + SizeFields(aProps), 4, |names|
  {
    if names != [] {
      var n := names[0];
      PropIsSmaller(bProps, n);
      PropIsSmaller(aProps, n);
      ReadableNeverRaises(lib, PropPath(pointer, n), Prop(bProps, n), Prop(aProps, n));
      CommonNeverRaises(lib, pointer, names[1..], bProps, aProps, bReq, aReq);
    }
  }

  lemma {:induction false} ObjectNeverRaises(lib: Library, pointer: string, before: Json, after: Json)
    requires before.Obj? && after.Obj? && Readable(lib, before) && Readable(lib, after)
    ensures ObjectFindings(lib, pointer, before, after).Some?
    decreases Size(before) + Size(after), 1, 0
  {
    var bp, ap := PropsOf(before).value, PropsOf(after).value;
    PropsAreSmaller(before);
    PropsAreSmaller(after);
    var common := NamesIn(bp, ap);
    forall n | n in common
      ensures Has(bp, n) && Has(ap, n) && Readable(lib, Prop(bp, n)) && Readable(lib, Prop(ap, n))
    {
      NamesInFacts(bp, ap, n);
    }
    CommonNeverRaises(lib, pointer, common, bp, ap, RequiredOf(before).value, RequiredOf(after).value);
  }

  lemma {:induction false} ItemsNeverRaise(lib: Library, pointer: string, before: Json, after: Json)
    requires before.Obj? && after.Obj? && Readable(lib, before) && Readable(lib, after)
    ensures ItemFindings(lib, pointer, before, after).Some?
    decreases Size(before) + Size(after), 1, 0
  {
    if ComparesItems(before, after) {
      GetIsSmaller(before, "items");
      GetIsSmaller(after, "items");
      ReadableNeverRaises(lib, pointer + "/items", Get(before, "items"), Get(after, "items"));
    }
  }

  /** Two readable schemas can always be compared. */
  lemma {:induction false} ReadableNeverRaises(lib: Library, pointer: string, before: Json, after: Json)
    requires Readable(lib, before) && Readable(lib, after)
    ensures NodeFindings(lib, pointer, before, after).Some?
    decreases Size(before) + Size(after), 2, 1
  {
    var b, a := AsDict(before), AsDict(after);
    EmptyIsReadable(lib);
    ConstraintsNeverRaise(lib, pointer, b, a);
    ObjectNeverRaises(lib, pointer, b, a);
    ItemsNeverRaise(lib, pointer, b, a);
  }

  lemma EmptyIsReadable(lib: Library)
    ensures Readable(lib, EmptyObj)
  {
  }

  lemma {:induction false} FragmentIsReadable(lib: Library, schema: Json)
    requires Fragment(schema)
    ensures Readable(lib, schema)
    decreases Size(schema)
  {
    FragmentEnum(lib, schema);
    FragmentShape(schema);
    PropsAreSmaller(schema);
    forall n | Has(Declared(schema), n) ensures Readable(lib, Prop(Declared(schema), n)) {
      FragmentProp(schema, n);
      PropIsSmaller(Declared(schema), n);
      FragmentIsReadable(lib, Prop(Declared(schema), n));
    }
    if Get(schema, "items").Obj? {
      GetIsSmaller(schema, "items");
      FragmentIsReadable(lib, Get(schema, "items"));
    }
  }

  // ----- reports at most INFO, or at most WARN -----

  /** On the fragment the diff returns, and when its report stays within the level an instance the old
      schema accepts is accepted by the new one exactly when it meets that level's residual conditions. */
  lemma ReportPreservesAcceptance(warn: bool, lib: Library, check: TextCheck, pointer: string, before: Json,
                                  after: Json, x: Json)
    requires Fragment(before) && Fragment(after)
    ensures NodeFindings(lib, pointer, before, after).Some?
    ensures AtMost(warn, NodeFindings(lib, pointer, before, after).value) && Accepts(check, before, x) ==>
              (Accepts(check, after, x) <==> Residual(warn, lib, check, before, after, x))
  {
    FragmentIsReadable(lib, before);
    FragmentIsReadable(lib, after);
    ReadableNeverRaises(lib, pointer, before, after);
    if AtMost(warn, NodeFindings(lib, pointer, before, after).value) && Accepts(check, before, x) {
      AtMostIffCompatible(warn, lib, pointer, before, after);
      CompatiblePreservesAcceptance(warn, lib, check, before, after, x);
    }
  }

  /** Enum values that the differ takes for the same are the same. */
  ghost predicate KeysTell(lib: Library, before: Json, after: Json)
    requires before.Obj? && after.Obj?
  {
    Get(before, "enum").Arr? && Get(after, "enum").Arr? ==>
      forall v, w | v in Get(before, "enum").items && w in Get(after, "enum").items ::
        Hashable(lib, v) == Hashable(lib, w) ==> v == w
  }

  lemma NothingMistaken(lib: Library, before: Json, after: Json, x: Json)
    requires before.Obj? && after.Obj? && KeysTell(lib, before, after)
    requires Get(before, "enum").Null? ==> Get(after, "enum").Null?
    ensures EnumUntold(lib, before, after, x) ==> EnumAccepts(after, x)
  {
    if Get(before, "enum").Arr? && Get(after, "enum").Arr? {
      var vs, ws := Get(before, "enum").items, Get(after, "enum").items;
      forall i, j | 0 <= i < |vs| && 0 <= j < |ws| && Hashable(lib, vs[i]) == Hashable(lib, ws[j])
        ensures vs[i] == ws[j]
      {
        assert vs[i] in vs && ws[j] in ws;
      }
    }
  }

  /** At every pair of nodes the differ compares, the new side alone states no type where properties or
      items implied one, no enum, no enum value that passes for another, and no `items` without a type. */
  ghost predicate Aligned(lib: Library, before: Json, after: Json)
    requires before.Obj? && after.Obj?
    decreases Size(before)
  {
    && (Stated(after) ==> Stated(before) || TypeSet(before) == {})
    && (Get(before, "enum").Null? ==> Get(after, "enum").Null?)
    && KeysTell(lib, before, after)
    && (Get(after, "items").Obj? ==> Get(before, "items").Obj? || Stated(Get(after, "items")))
    && (forall n | Has(Declared(before), n) && Has(Declared(after), n) ::
          DeclaredIsSmaller(before, n);
          Aligned(lib, Prop(Declared(before), n), Prop(Declared(after), n)))
    && (if Get(before, "items").Obj? && Get(after, "items").Obj? then
          GetIsSmaller(before, "items");
          Aligned(lib, Get(before, "items"), Get(after, "items"))
        else true)
  }

  /** Every required name of the schema, at every depth, is a declared property. */
  ghost predicate RequiredDeclared(schema: Json)
    requires schema.Obj?
    decreases Size(schema)
  {
    && (forall n | n in RequiredNames(schema) :: Has(Declared(schema), n))
    && (forall n | Has(Declared(schema), n) ::
          DeclaredIsSmaller(schema, n);
          RequiredDeclared(Prop(Declared(schema), n)))
    && (if Get(schema, "items").Obj? then
          GetIsSmaller(schema, "items");
          RequiredDeclared(Get(schema, "items"))
        else true)
  }

  /** The objects inside `x` carry only properties the schema declares. */
  ghost predicate OnlyDeclared(schema: Json, x: Json)
    requires schema.Obj?
    decreases Size(schema)
  {
    && (x.Obj? ==> forall f | f in x.fields ::
          && Has(Declared(schema), f.key)
          && (DeclaredIsSmaller(schema, f.key); OnlyDeclared(Prop(Declared(schema), f.key), f.value)))
    && (if x.Arr? && Get(schema, "items").Obj? then
          GetIsSmaller(schema, "items");
          forall i | 0 <= i < |x.items| :: OnlyDeclared(Get(schema, "items"), x.items[i])
        else true)
  }

  /** A type stated where the old schema had none, not even an implied one, is warned about. */
  lemma NewTypeIsReported(lib: Library, before: Json, after: Json)
    requires Fragment(before) && Fragment(after) && Compatible(false, lib, before, after)
    ensures Stated(after) ==> TypeSet(before) != {}
  {
  }

  lemma NewItemsStateNoType(lib: Library, before: Json, after: Json)
    requires Fragment(before) && Fragment(after) && Compatible(false, lib, before, after)
    requires Get(after, "items").Obj? && !Get(before, "items").Obj?
    ensures !Stated(Get(after, "items"))
  {
    ItemsCompared(false, lib, before, after);
    NewTypeIsReported(lib, EmptyObj, Get(after, "items"));
  }

  lemma {:induction false} NothingResidual(lib: Library, check: TextCheck, before: Json, after: Json, x: Json)
    requires Fragment(before) && Fragment(after) && Compatible(false, lib, before, after)
    requires Aligned(lib, before, after) && RequiredDeclared(after) && OnlyDeclared(before, x)
    ensures Residual(false, lib, check, before, after, x)
    decreases Size(before), 2
  {
    NewTypeIsReported(lib, before, after);
    NothingMistaken(lib, before, after, x);
    if x.Obj? {
      if ComparesProperties(before, after) {
        NothingResidualInFields(lib, check, before, after, x);
      } else {
        NothingUncompared(before, after, x);
      }
    }
    if x.Arr? {
      NothingResidualInItems(lib, check, before, after, x);
    }
  }

  lemma {:induction false} NothingResidualInFields(lib: Library, check: TextCheck, before: Json, after: Json, x: Json)
    requires Fragment(before) && Fragment(after) && Compatible(false, lib, before, after)
    requires Aligned(lib, before, after) && RequiredDeclared(after) && OnlyDeclared(before, x)
    requires x.Obj? && ComparesProperties(before, after)
    ensures ObjectResidual(false, lib, check, before, after, x.fields)
    decreases Size(before), 1
  {
    forall f | f in x.fields && Has(Declared(after), f.key)
      ensures FieldResidual(false, lib, check, before, after, f)
    {
      NothingResidualInField(lib, check, before, after, x, f);
    }
  }

  lemma {:induction false} NothingResidualInField(lib: Library, check: TextCheck, before: Json, after: Json, x: Json,
                                                  f: Field)
    requires Fragment(before) && Fragment(after) && Compatible(false, lib, before, after)
    requires Aligned(lib, before, after) && RequiredDeclared(after) && OnlyDeclared(before, x)
    requires x.Obj? && f in x.fields && Has(Declared(after), f.key) && ComparesProperties(before, after)
    ensures FieldResidual(false, lib, check, before, after, f)
    decreases Size(before), 0
  {
    DeclaredIsSmaller(before, f.key);
    PropertyKept(false, lib, before, after, f.key);
    FragmentProp(before, f.key);
    FragmentProp(after, f.key);
    NothingResidual(lib, check, Prop(Declared(before), f.key), Prop(Declared(after), f.key), f.value);
  }

  lemma {:induction false} NothingResidualInItems(lib: Library, check: TextCheck, before: Json, after: Json, x: Json)
    requires Fragment(before) && Fragment(after) && Compatible(false, lib, before, after)
    requires Aligned(lib, before, after) && RequiredDeclared(after) && OnlyDeclared(before, x) && x.Arr?
    ensures ItemsResidual(false, lib, check, before, after, x.items)
    decreases Size(before), 1
  {
    if Get(after, "items").Obj? {
      if !Get(before, "items").Obj? {
        NewItemsStateNoType(lib, before, after);
      }
      GetIsSmaller(before, "items");
      ItemsCompared(false, lib, before, after);
      forall i | 0 <= i < |x.items|
        ensures Residual(false, lib, check, Get(before, "items"), Get(after, "items"), x.items[i])
      {
        NothingResidual(lib, check, Get(before, "items"), Get(after, "items"), x.items[i]);
      }
    }
  }

  lemma NothingUncompared(before: Json, after: Json, x: Json)
    requires before.Obj? && after.Obj? && x.Obj? && !ComparesProperties(before, after)
    requires RequiredDeclared(after) && OnlyDeclared(before, x)
    ensures UncomparedAccepts(after, x.fields)
  {
    NothingDeclaredNoFields(before, x);
  }

  lemma NothingDeclaredNoFields(schema: Json, x: Json)
    requires schema.Obj? && x.Obj?
    ensures OnlyDeclared(schema, x) && Declared(schema) == [] ==> x.fields == []
  {
    if OnlyDeclared(schema, x) && x.fields != [] {
      var f := x.fields[0];
      assert f in x.fields;
      assert Has(Declared(schema), f.key);
    }
  }

  /** The promise callers rely on: old calls keep working after an INFO-only change. */
  lemma InfoOnlyKeepsOldCalls(lib: Library, check: TextCheck, pointer: string, before: Json, after: Json, x: Json)
    requires Fragment(before) && Fragment(after)
    requires NodeFindings(lib, pointer, before, after).Some?
    requires InfoOnly(NodeFindings(lib, pointer, before, after).value)
    requires Aligned(lib, before, after) && RequiredDeclared(after)
    requires Accepts(check, before, x) && OnlyDeclared(before, x)
    ensures Accepts(check, after, x)
  {
    AtMostIffCompatible(false, lib, pointer, before, after);
    ReportPreservesAcceptance(false, lib, check, pointer, before, after, x);
    NothingResidual(lib, check, before, after, x);
  }

  /** Every node of the schema states its type. */
  ghost predicate AllTyped(schema: Json)
    requires schema.Obj?
    decreases Size(schema)
  {
    && Stated(schema)
    && (forall n | Has(Declared(schema), n) ::
          DeclaredIsSmaller(schema, n);
          AllTyped(Prop(Declared(schema), n)))
    && (if Get(schema, "items").Obj? then
          GetIsSmaller(schema, "items");
          AllTyped(Get(schema, "items"))
        else true)
  }

  /** An enum of strings, numbers and nulls. */
  predicate PlainEnum(schema: Json)
    requires schema.Obj?
  {
    Get(schema, "enum").Arr? ==> forall v | v in Get(schema, "enum").items :: v.Str? || v.Num? || v.Null?
  }

  /** Such values pass for themselves only. */
  lemma PlainKeysTell(lib: Library, before: Json, after: Json)
    requires before.Obj? && after.Obj? && PlainEnum(before) && PlainEnum(after)
    ensures KeysTell(lib, before, after)
  {
  }

  /** No enum is stated on the new side alone, and enums are plain, at every pair of nodes the differ
      compares. */
  ghost predicate EnumsAligned(before: Json, after: Json)
    requires before.Obj? && after.Obj?
    decreases Size(before)
  {
    && (Get(before, "enum").Null? ==> Get(after, "enum").Null?)
    && PlainEnum(before) && PlainEnum(after)
    && (forall n | Has(Declared(before), n) && Has(Declared(after), n) ::
          DeclaredIsSmaller(before, n);
          EnumsAligned(Prop(Declared(before), n), Prop(Declared(after), n)))
    && (if Get(before, "items").Obj? && Get(after, "items").Obj? then
          GetIsSmaller(before, "items");
          EnumsAligned(Get(before, "items"), Get(after, "items"))
        else true)
  }

  lemma {:induction false} TypedIsAligned(lib: Library, before: Json, after: Json)
    requires before.Obj? && after.Obj? && AllTyped(before) && AllTyped(after) && EnumsAligned(before, after)
    ensures Aligned(lib, before, after)
    decreases Size(before)
  {
    PlainKeysTell(lib, before, after);
    forall n | Has(Declared(before), n) && Has(Declared(after), n)
      ensures Size(Prop(Declared(before), n)) < Size(before)
      ensures Aligned(lib, Prop(Declared(before), n), Prop(Declared(after), n))
    {
      DeclaredIsSmaller(before, n);
      TypedIsAligned(lib, Prop(Declared(before), n), Prop(Declared(after), n));
    }
    if Get(before, "items").Obj? && Get(after, "items").Obj? {
      GetIsSmaller(before, "items");
      TypedIsAligned(lib, Get(before, "items"), Get(after, "items"));
    }
  }

  /** The same for ordinary schemas: every node typed, plain enums, none of them introduced, and
      required names declared. */
  lemma TypedInfoOnlyKeepsOldCalls(lib: Library, check: TextCheck, pointer: string, before: Json, after: Json, x: Json)
    requires Fragment(before) && Fragment(after)
    requires NodeFindings(lib, pointer, before, after).Some?
    requires InfoOnly(NodeFindings(lib, pointer, before, after).value)
    requires AllTyped(before) && AllTyped(after) && EnumsAligned(before, after) && RequiredDeclared(after)
    requires Accepts(check, before, x) && OnlyDeclared(before, x)
    ensures Accepts(check, after, x)
  {
    TypedIsAligned(lib, before, after);
    InfoOnlyKeepsOldCalls(lib, check, pointer, before, after, x);
  }

  // ----- unchanged schemas are silent -----

  lemma {:induction false} BoundsSilent(pointer: string, keys: seq<string>, upper: bool, s: Json)
    requires s.Obj? && AllBoundFindings(pointer, keys, upper, s, s).Some?
    ensures AllBoundFindings(pointer, keys, upper, s, s) == Some([])
  {
    if keys != [] {
      BoundsSilent(pointer, keys[1..], upper, s);
      assert BoundFindings(pointer, keys[0], upper, s, s) == Some([]);
      ThenUnits([], Some([]));
    }
  }

  lemma {:induction false} TextsSilent(pointer: string, keys: seq<string>, s: Json)
    requires s.Obj? && forall k | k in keys :: PyEq(Get(s, k), Get(s, k))
    ensures TextFindings(pointer, keys, s, s) == []
  {
    if keys != [] {
      assert keys[0] in keys;
      TextsSilent(pointer, keys[1..], s);
    }
  }

  lemma {:induction false} NoNamesMissing(fields: seq<Field>, others: seq<Field>)
    requires forall f | f in fields :: Has(others, f.key)
    ensures NamesNotIn(fields, others) == []
  {
    if fields != [] {
      NoNamesMissing(fields[1..], others);
    }
  }

  lemma WellFormedGet(s: Json, key: string)
    requires s.Obj? && WellFormed(s)
    ensures WellFormed(Get(s, key)) && PyEq(Get(s, key), Get(s, key))
  {
    var r := Lookup(s.fields, key);
    if r.Some? {
      assert Field(key, r.value) in s.fields;
    }
    PyEqReflexive(Get(s, key));
  }

  lemma {:induction false} CommonSilent(lib: Library, pointer: string, names: seq<string>, props: seq<Field>,
                                        req: set<string>)
    requires forall n | n in names :: Has(props, n) && WellFormed(Prop(props, n))
    requires CommonFindings(lib, pointer, names, props, props, req, req).Some?
    ensures CommonFindings(lib, pointer, names, props, props, req, req) == Some([])
    decreases SizeFields(props) + SizeFields(props), 4, |names|
  {
    if names != [] {
      var n := names[0];
      PropIsSmaller(props, n);
      UnchangedIsSilent(lib, PropPath(pointer, n), Prop(props, n));
      CommonSilent(lib, pointer, names[1..], props, req);
    }
  }

  lemma PropIsWellFormed(s: Json, n: string)
    requires s.Obj? && WellFormed(s) && PropsOf(s).Some?
    ensures WellFormed(Prop(PropsOf(s).value, n))
  {
    var props := PropsOf(s).value;
    var r := Lookup(props, n);
    if r.Some? && r.value.Obj? {
      WellFormedGet(s, "properties");
      var all := Get(s, "properties").fields;
      DictFieldsMembers(all, Field(n, r.value));
    }
  }

  lemma {:induction false} DictFieldsMembers(fields: seq<Field>, f: Field)
    requires f in DictFields(fields)
    ensures f in fields
  {
    if f !in DictFields(fields[1..]) {
      assert f == fields[0];
    } else {
      DictFieldsMembers(fields[1..], f);
    }
  }

  lemma {:induction false} PropertiesSilent(lib: Library, pointer: string, s: Json)
    requires s.Obj? && WellFormed(s) && PropertyFindings(lib, pointer, s, s).Some?
    ensures PropertyFindings(lib, pointer, s, s) == Some([])
    decreases Size(s) + Size(s), 1, 0
  {
    var props := PropsOf(s).value;
    PropsAreSmaller(s);
    NoNamesMissing(props, props);
    MatchingWithoutRemoved(lib, [], [], props, props);
    assert NameFindings(lib, pointer, props, props, RequiredOf(s).value) == [];
    var common := NamesIn(props, props);
    forall n | n in common ensures Has(props, n) && WellFormed(Prop(props, n)) {
      NamesInFacts(props, props, n);
      PropIsWellFormed(s, n);
    }
    CommonSilent(lib, pointer, common, props, RequiredOf(s).value);
  }

  lemma ScalarsSilent(lib: Library, pointer: string, s: Json)
    requires s.Obj? && WellFormed(s)
    requires EnumFindings(lib, pointer, s, s).Some? && ConstraintFindings(pointer, s, s).Some?
    ensures TypeFindings(pointer, s, s) == [] && EnumFindings(lib, pointer, s, s) == Some([])
    ensures ConstraintFindings(pointer, s, s) == Some([]) && DefaultFindings(pointer, s, s) == []
  {
    BoundsSilent(pointer, UPPER_BOUNDS, true, s);
    BoundsSilent(pointer, LOWER_BOUNDS, false, s);
    WellFormedGet(s, "pattern");
    WellFormedGet(s, "format");
    WellFormedGet(s, "default");
    TextsSilent(pointer, TEXT_KEYS, s);
  }

  /** Comparing a schema with itself reports nothing, unless the comparison raises. */
  lemma {:induction false} UnchangedIsSilent(lib: Library, pointer: string, schema: Json)
    requires WellFormed(schema) && NodeFindings(lib, pointer, schema, schema).Some?
    ensures NodeFindings(lib, pointer, schema, schema) == Some([])
    decreases Size(schema) + Size(schema), 2, 1
  {
    var s := AsDict(schema);
    ScalarsSilent(lib, pointer, s);
    if ComparesProperties(s, s) {
      PropertiesSilent(lib, pointer, s);
      assert AdditionalFindings(pointer, s, s) == [];
    }
    assert ObjectFindings(lib, pointer, s, s) == Some([]);
    if ComparesItems(s, s) {
      GetIsSmaller(s, "items");
      WellFormedGet(s, "items");
      UnchangedIsSilent(lib, pointer + "/items", Get(s, "items"));
    }
    assert ItemFindings(lib, pointer, s, s) == Some([]);
  }

  // ----- where the guarantee stops -----

  const STRING_TYPE := Field("type", Str("string"))
  const OBJECT_TYPE := Field("type", Str("object"))

  lemma {:induction false} AbsentBounds(pointer: string, keys: seq<string>, upper: bool, before: Json, after: Json)
    requires before.Obj? && after.Obj? && forall k | k in keys :: Get(after, k).Null?
    ensures AllBoundFindings(pointer, keys, upper, before, after) == Some([])
  {
    if keys != [] {
      assert keys[0] in keys;
      AbsentBounds(pointer, keys[1..], upper, before, after);
      assert BoundFindings(pointer, keys[0], upper, before, after) == Some([]);
      ThenUnits([], Some([]));
    }
  }

  lemma {:induction false} AbsentTexts(pointer: string, keys: seq<string>, before: Json, after: Json)
    requires before.Obj? && after.Obj? && forall k | k in keys :: Get(after, k).Null?
    ensures TextFindings(pointer, keys, before, after) == []
  {
    if keys != [] {
      assert keys[0] in keys;
      AbsentTexts(pointer, keys[1..], before, after);
    }
  }

  lemma AbsentConstraints(pointer: string, before: Json, after: Json)
    requires before.Obj? && after.Obj?
    requires forall k | k in UPPER_BOUNDS || k in LOWER_BOUNDS || k in TEXT_KEYS :: Get(after, k).Null?
    ensures ConstraintFindings(pointer, before, after) == Some([])
  {
    AbsentBounds(pointer, UPPER_BOUNDS, true, before, after);
    AbsentBounds(pointer, LOWER_BOUNDS, false, before, after);
    AbsentTexts(pointer, TEXT_KEYS, before, after);
  }

  /** Two schemas without properties, or with empty ones, have no property findings. */
  lemma NoProperties(lib: Library, pointer: string, before: Json, after: Json)
    requires before.Obj? && after.Obj?
    requires PropsOf(before) == Some([]) == PropsOf(after)
    requires RequiredOf(before).Some? && RequiredOf(after).Some?
    requires AdditionalFindings(pointer, before, after) == []
    ensures ObjectFindings(lib, pointer, before, after) == Some([])
  {
    MatchingWithoutRemoved(lib, [], [], [], []);
    assert NameFindings(lib, pointer, [], [], RequiredOf(after).value) == [];
    ThenUnits([], Some([]));
    assert PropertyFindings(lib, pointer, before, after) == Some([]);
  }

  /** A node whose only findings come from the enum rule. */
  lemma OnlyEnumFindings(lib: Library, pointer: string, before: Json, after: Json)
    requires before.Obj? && after.Obj?
    requires TypeSet(before) == TypeSet(after)
    requires EnumFindings(lib, pointer, before, after).Some?
    requires forall k | k in UPPER_BOUNDS || k in LOWER_BOUNDS || k in TEXT_KEYS :: Get(after, k).Null?
    requires Lookup(before.fields, "default").None? && Lookup(after.fields, "default").None?
    requires PropsOf(before) == Some([]) == PropsOf(after)
    requires RequiredOf(before).Some? && RequiredOf(after).Some?
    requires AdditionalFindings(pointer, before, after) == []
    requires !Get(before, "items").Obj? && !Get(after, "items").Obj?
    ensures NodeFindings(lib, pointer, before, after) == EnumFindings(lib, pointer, before, after)
  {
    AbsentConstraints(pointer, before, after);
    NoProperties(lib, pointer, before, after);
    var e := EnumFindings(lib, pointer, before, after).value;
    assert [] + e + [] + [] + [] + [] == e;
  }

  const FREE_STRING := Obj([STRING_TYPE])
  const ENUM_STRING := Obj([STRING_TYPE, Field("enum", Arr([Str("a")]))])

  /** An enum added to a free string is reported as INFO only ... */
  lemma IntroducedEnumIsInfoOnly(lib: Library, pointer: string)
    ensures NodeFindings(lib, pointer, FREE_STRING, ENUM_STRING)
      == Some([Finding(Info, EnumValueAdded, pointer + "/enum")])
  {
    OnlyEnumFindings(lib, pointer, FREE_STRING, ENUM_STRING);
    var items := [Str("a")];
    assert Get(ENUM_STRING, "enum") == Arr(items);
    var added := EnumKeys(lib, Arr(items)).value;
    assert Hashable(lib, items[0]) in added;
    var none: set<HashKey> := {};
    assert EnumKeys(lib, Null).value == none;
    assert Hashable(lib, items[0]) in added - none;
    assert none - added == {};
    assert [] + [Finding(Info, EnumValueAdded, pointer + "/enum")]
      == [Finding(Info, EnumValueAdded, pointer + "/enum")];
  }

  /** ... yet it rejects strings that were accepted before. */
  lemma IntroducedEnumRejects(check: TextCheck)
    ensures Accepts(check, FREE_STRING, Str("b")) && OnlyDeclared(FREE_STRING, Str("b"))
    ensures !Accepts(check, ENUM_STRING, Str("b"))
  {
    assert HasType(Str("b"), "string") && "string" in TypeSet(FREE_STRING);
    var items := [Str("a")];
    assert Get(ENUM_STRING, "enum") == Arr(items) && !SameJson(items[0], Str("b"));
  }

  /** A schema with an enum and nothing else. */
  function EnumOnly(values: seq<Json>): Json {
    Obj([Field("enum", Arr(values))])
  }

  lemma EnumOnlyLookup(values: seq<Json>, key: string)
    ensures Lookup(EnumOnly(values).fields, key) == if key == "enum" then Some(Arr(values)) else None
  {
    OneFieldLookup(Field("enum", Arr(values)), key);
  }

  lemma EnumOnlyAccepts(check: TextCheck, values: seq<Json>, x: Json)
    ensures Fragment(EnumOnly(values)) && (Accepts(check, EnumOnly(values), x) <==> Listed(values, x))
  {
    forall key ensures Lookup(EnumOnly(values).fields, key) == if key == "enum" then Some(Arr(values)) else None {
      EnumOnlyLookup(values, key);
    }
  }

  lemma SameKeysSilent(lib: Library, pointer: string, before: Json, after: Json)
    requires before.Obj? && after.Obj? && Get(before, "enum").Arr? && Get(after, "enum").Arr?
    requires EnumKeys(lib, Get(before, "enum")) == EnumKeys(lib, Get(after, "enum"))
    ensures EnumFindings(lib, pointer, before, after) == Some([])
  {
    var bKeys, aKeys := EnumKeys(lib, Get(before, "enum")).value, EnumKeys(lib, Get(after, "enum")).value;
    var none: set<HashKey> := {};
    assert bKeys - aKeys == none && aKeys - bKeys == none;
    var silent: seq<Finding> := [];
    assert silent + silent == silent;
  }

  /** Between two of them the report is about the keys of the values only. */
  lemma EnumOnlySilent(lib: Library, pointer: string, before: seq<Json>, after: seq<Json>)
    requires EnumKeys(lib, Arr(before)) == EnumKeys(lib, Arr(after))
    ensures NodeFindings(lib, pointer, EnumOnly(before), EnumOnly(after)) == Some([])
  {
    forall key, vs: seq<Json>
      ensures Lookup(EnumOnly(vs).fields, key) == if key == "enum" then Some(Arr(vs)) else None
    {
      EnumOnlyLookup(vs, key);
    }
    var b, a := EnumOnly(before), EnumOnly(after);
    assert Get(b, "enum") == Arr(before) && Get(a, "enum") == Arr(after);
    SameKeysSilent(lib, pointer, b, a);
    OnlyEnumFindings(lib, pointer, b, a);
  }

  /** An enum that lists 1 instead of true goes unreported ... */
  lemma NumberForBoolIsSilent(lib: Library, pointer: string)
    ensures NodeFindings(lib, pointer, EnumOnly([Bool(true)]), EnumOnly([Num(1.0)])) == Some([])
  {
    SingleKey(lib, Bool(true));
    SingleKey(lib, Num(1.0));
    EnumOnlySilent(lib, pointer, [Bool(true)], [Num(1.0)]);
  }

  lemma SingleKey(lib: Library, v: Json)
    ensures EnumKeys(lib, Arr([v])) == Some({Hashable(lib, v)})
  {
    var values := [v];
    assert (set i | 0 <= i < |values| :: Hashable(lib, values[i])) == {Hashable(lib, values[0])};
  }

  /** ... yet it rejects true, the one value that was accepted before. */
  lemma NumberForBoolRejects(check: TextCheck)
    ensures Fragment(EnumOnly([Bool(true)])) && Fragment(EnumOnly([Num(1.0)]))
    ensures Accepts(check, EnumOnly([Bool(true)]), Bool(true)) && !Accepts(check, EnumOnly([Num(1.0)]), Bool(true))
  {
    var trues, ones := [Bool(true)], [Num(1.0)];
    EnumOnlyAccepts(check, trues, Bool(true));
    EnumOnlyAccepts(check, ones, Bool(true));
    assert SameJson(trues[0], Bool(true)) && !SameJson(ones[0], Bool(true));
  }

  const FREE_OBJECT := Obj([OBJECT_TYPE])
  const DEMANDING_OBJECT := Obj([OBJECT_TYPE, Field("required", Arr([Str("k")]))])

  /** A required name that is not declared as a property goes unreported ... */
  lemma UndeclaredRequiredIsSilent(lib: Library, pointer: string)
    ensures NodeFindings(lib, pointer, FREE_OBJECT, DEMANDING_OBJECT) == Some([])
  {
    OnlyEnumFindings(lib, pointer, FREE_OBJECT, DEMANDING_OBJECT);
  }

  /** ... yet it rejects the empty object, which was accepted before. */
  lemma UndeclaredRequiredRejects(check: TextCheck)
    ensures Accepts(check, FREE_OBJECT, EmptyObj) && OnlyDeclared(FREE_OBJECT, EmptyObj)
    ensures !Accepts(check, DEMANDING_OBJECT, EmptyObj)
  {
    assert HasType(EmptyObj, "object") && "object" in TypeSet(FREE_OBJECT);
    var items := [Str("k")];
    assert Get(DEMANDING_OBJECT, "required") == Arr(items);
    assert items[0].s in StringsOf(items);
    assert "k" in RequiredNames(DEMANDING_OBJECT);
  }

  const IMPLIED_OBJECT := Obj([Field("properties", Obj([]))])

  /** A type stated where only `properties` implied it goes unreported, although it rejects the
      instances of other types, which were accepted before. */
  lemma ImpliedTypeIsSilent(lib: Library, pointer: string)
    ensures NodeFindings(lib, pointer, IMPLIED_OBJECT, FREE_OBJECT) == Some([])
  {
    OnlyEnumFindings(lib, pointer, IMPLIED_OBJECT, FREE_OBJECT);
  }

  lemma ImpliedTypeRejects(check: TextCheck, x: Json)
    requires !x.Obj?
    ensures Fragment(IMPLIED_OBJECT) && Fragment(FREE_OBJECT)
    ensures Accepts(check, IMPLIED_OBJECT, x) && !Accepts(check, FREE_OBJECT, x)
  {
    ImpliedObjectInFragment();
    ImpliedObjectAccepts(check, x);
    FreeObjectRejects(check, x);
  }

  lemma FreeObjectRejects(check: TextCheck, x: Json)
    requires !x.Obj?
    ensures Fragment(FREE_OBJECT) && !Accepts(check, FREE_OBJECT, x)
  {
    forall key ensures Has(FREE_OBJECT.fields, key) <==> key == "type" {
      OneFieldLookup(OBJECT_TYPE, key);
    }
    assert TypeSet(FREE_OBJECT) == {"object"};
  }

  lemma OneFieldLookup(f: Field, key: string)
    ensures Lookup([f], key) == if f.key == key then Some(f.value) else None
  {
  }

  lemma ImpliedObjectInFragment()
    ensures Fragment(IMPLIED_OBJECT)
  {
    forall key ensures Has(IMPLIED_OBJECT.fields, key) <==> key == "properties" {
      OneFieldLookup(Field("properties", Obj([])), key);
    }
  }

  lemma ImpliedObjectAccepts(check: TextCheck, x: Json)
    requires !x.Obj?
    ensures Accepts(check, IMPLIED_OBJECT, x)
  {
    forall key | key != "properties" ensures Get(IMPLIED_OBJECT, key).Null? && !Has(IMPLIED_OBJECT.fields, key) {
      OneFieldLookup(Field("properties", Obj([])), key);
    }
  }

  /** A type stated where there was none at all is called a widening and only warned about ... */
  lemma StatedTypeIsOnlyWarned(lib: Library, pointer: string)
    ensures NodeFindings(lib, pointer, EmptyObj, FREE_STRING) == Some([Finding(Warn, TypeChanged, pointer + "/type")])
  {
    AbsentConstraints(pointer, EmptyObj, FREE_STRING);
    var before: set<string> := {};
    assert TypeSet(EmptyObj) == before;
    assert TypeSet(FREE_STRING) == {"string"};
    assert before < {"string"} by {
      assert "string" !in before;
    }
    var t := TypeFindings(pointer, EmptyObj, FREE_STRING);
    assert t + [] + [] + [] + [] + [] == t;
  }

  /** ... yet it rejects the instances of every other type, all of which were accepted before. */
  lemma StatedTypeRejects(check: TextCheck, x: Json)
    requires !x.Str?
    ensures Fragment(EmptyObj) && Fragment(FREE_STRING)
    ensures Accepts(check, EmptyObj, x) && !Accepts(check, FREE_STRING, x)
  {
    EmptyAccepts(check, x);
  }

  const CLOSED_NODE := Obj([Field("additionalProperties", Bool(false))])

  lemma ClosedNodeLookup()
    ensures forall key | key != "additionalProperties" ::
      Get(CLOSED_NODE, key).Null? && Lookup(CLOSED_NODE.fields, key).None?
  {
    forall key | key != "additionalProperties" ensures Lookup(CLOSED_NODE.fields, key).None? {
      OneFieldLookup(Field("additionalProperties", Bool(false)), key);
    }
  }

  /** On a node that does not look like an object schema, refusing extra fields goes unreported ... */
  lemma UncomparedExtraIsSilent(lib: Library, pointer: string)
    ensures NodeFindings(lib, pointer, EmptyObj, CLOSED_NODE) == Some([])
  {
    ClosedNodeLookup();
    AbsentConstraints(pointer, EmptyObj, CLOSED_NODE);
    assert !ComparesProperties(EmptyObj, CLOSED_NODE);
    var none: seq<Finding> := [];
    assert TypeFindings(pointer, EmptyObj, CLOSED_NODE) == none;
    assert none + none + none + none + none + none == none;
  }

  /** ... yet it rejects every object that has a field. */
  lemma UncomparedExtraRejects(check: TextCheck, x: Json)
    requires x.Obj? && x.fields != []
    ensures Fragment(CLOSED_NODE) && Accepts(check, EmptyObj, x) && !Accepts(check, CLOSED_NODE, x)
  {
    EmptyAccepts(check, x);
    UncomparedObject(check, CLOSED_NODE, x.fields);
  }
}
