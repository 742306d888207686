/**
 What a report means for callers.  `Accepts` gives schemas of a fragment of JSON Schema their meaning
 (boolean `additionalProperties`, and only the keywords the differ compares; a node that states no type
 accepts every type); the theorems relate it to the differ's report.
 */
module Acceptance {
  import opened Wrappers
  import opened Json
  import opened Schema
  import opened Renames
  import opened Findings
  import opened Compatibility

  /** Validation of `pattern` and `format`, which the differ only compares for equality. */
  type TextCheck = (string, Json, string) -> bool

  predicate HasType(x: Json, t: string) {
    || (t == "null" && x.Null?)
    || (t == "boolean" && x.Bool?)
    || (t == "number" && x.Num?)
    || (t == "integer" && x.Num? && x.n == x.n.Floor as real)
    || (t == "string" && x.Str?)
    || (t == "array" && x.Arr?)
    || (t == "object" && x.Obj?)
  }

  const TYPE_NAMES := {"null", "boolean", "number", "integer", "string", "array", "object"}

  function Declared(schema: Json): seq<Field>
    requires schema.Obj?
  {
    if Get(schema, "properties").Obj? then Get(schema, "properties").fields else []
  }

  function RequiredNames(schema: Json): set<string>
    requires schema.Obj?
  {
    if Get(schema, "required").Arr? then StringsOf(Get(schema, "required").items) else {}
  }

  predicate EnumAccepts(schema: Json, x: Json)
    requires schema.Obj?
  {
    Get(schema, "enum").Arr? ==> Listed(Get(schema, "enum").items, x)
  }

  predicate Listed(values: seq<Json>, x: Json) {
    exists i | 0 <= i < |values| :: SameJson(values[i], x)
  }

  /** A bound accepts `v`, which is the number itself or the length of the string. */
  predicate BoundAccepts(schema: Json, key: string, v: real)
    requires schema.Obj?
  {
    var m := Numeric(Get(schema, key));
    m.Some? ==>
      if key == "maximum" || key == "maxLength" then v <= m.value
      else if key == "exclusiveMaximum" then v < m.value
      else if key == "minimum" || key == "minLength" then v >= m.value
      else v > m.value
  }

  /** Bounds, patterns and formats. */
  predicate ConstraintsAccept(check: TextCheck, schema: Json, x: Json)
    requires schema.Obj?
  {
    && (x.Num? ==> forall k | k in ["maximum", "exclusiveMaximum", "minimum", "exclusiveMinimum"] ::
        BoundAccepts(schema, k, x.n))
    && (x.Str? ==> forall k | k in ["maxLength", "minLength"] :: BoundAccepts(schema, k, |x.s| as real))
    && (x.Str? ==> forall k | k in TEXT_KEYS && !Get(schema, k).Null? :: check(k, Get(schema, k), x.s))
  }

  predicate Stated(schema: Json)
    requires schema.Obj?
  {
    Has(schema.fields, "type")
  }

  /** Only a stated type rejects: the differ's `_type_set` also infers one, validators do not. */
  predicate TypeAccepts(schema: Json, x: Json)
    requires schema.Obj?
  {
    Stated(schema) ==> exists t | t in TypeSet(schema) :: HasType(x, t)
  }

  predicate ScalarAccepts(check: TextCheck, schema: Json, x: Json)
    requires schema.Obj?
  {
    && TypeAccepts(schema, x)
    && EnumAccepts(schema, x)
    && ConstraintsAccept(check, schema, x)
  }

  lemma DeclaredIsSmaller(schema: Json, name: string)
    requires schema.Obj? && Has(Declared(schema), name)
    ensures Size(Prop(Declared(schema), name)) < Size(schema)
  {
    GetIsSmaller(schema, "properties");
    PropIsSmaller(Declared(schema), name);
  }

  /** Required names are present, declared properties are accepted, others only if allowed. */
  ghost predicate ObjectAccepts(check: TextCheck, schema: Json, fields: seq<Field>)
    requires schema.Obj?
    decreases Size(schema), 0
  {
    && (forall n | n in RequiredNames(schema) :: Has(fields, n))
    && (forall f | f in fields ::
          if Has(Declared(schema), f.key) then
            DeclaredIsSmaller(schema, f.key);
            Accepts(check, Prop(Declared(schema), f.key), f.value)
          else AllowsExtra(schema))
  }

  ghost predicate ItemsAccept(check: TextCheck, schema: Json, items: seq<Json>)
    requires schema.Obj?
    decreases Size(schema), 0
  {
    if Get(schema, "items").Obj? then
      GetIsSmaller(schema, "items");
      forall i | 0 <= i < |items| :: Accepts(check, Get(schema, "items"), items[i])
    else true
  }

  ghost predicate Accepts(check: TextCheck, schema: Json, x: Json)
    requires schema.Obj?
    decreases Size(schema), 1
  {
    && ScalarAccepts(check, schema, x)
    && (x.Obj? ==> ObjectAccepts(check, schema, x.fields))
    && (x.Arr? ==> ItemsAccept(check, schema, x.items))
  }

  const KEYWORDS := {"type", "enum", "maximum", "maxLength", "exclusiveMaximum", "minimum", "minLength",
                     "exclusiveMinimum", "pattern", "format", "default", "properties", "required",
                     "additionalProperties", "items", "title", "description", "$comment"}

  /** The fragment of JSON Schema the theorems speak about. */
  ghost predicate Fragment(schema: Json)
    decreases Size(schema)
  {
    && schema.Obj?
    && (forall f | f in schema.fields :: f.key in KEYWORDS)
    && (Stated(schema) ==>
          && (|| Get(schema, "type").Str?
              || (Get(schema, "type").Arr? && forall t | t in Get(schema, "type").items :: t.Str?))
          && TypeSet(schema) != {} && TypeSet(schema) <= TYPE_NAMES)
    && (Has(schema.fields, "enum") ==> Get(schema, "enum").Arr?)
    && (forall k | k in UPPER_BOUNDS + LOWER_BOUNDS :: Has(schema.fields, k) ==> Get(schema, k).Num?)
    && (forall k | k in TEXT_KEYS :: Has(schema.fields, k) ==> Get(schema, k).Str?)
    && (Has(schema.fields, "required") ==>
          Get(schema, "required").Arr? && forall v | v in Get(schema, "required").items :: v.Str?)
    && (Has(schema.fields, "additionalProperties") ==> Get(schema, "additionalProperties").Bool?)
    && (if Has(schema.fields, "properties") then
          && Get(schema, "properties").Obj?
          && (GetIsSmaller(schema, "properties");
              forall f | f in Get(schema, "properties").fields ::
                FieldIsSmaller(Get(schema, "properties").fields, f);
                Fragment(f.value))
        else true)
    && (if Has(schema.fields, "items") then
          GetIsSmaller(schema, "items");
          Fragment(Get(schema, "items"))
        else true)
  }

  /** What no comparison covers when neither side looks like an object schema. */
  predicate UncomparedAccepts(after: Json, fields: seq<Field>)
    requires after.Obj?
  {
    && (forall n | n in RequiredNames(after) :: Has(fields, n))
    && (fields != [] ==> AllowsExtra(after))
  }

  ghost predicate FieldResidual(warn: bool, lib: Library, check: TextCheck, before: Json, after: Json, f: Field)
    requires before.Obj? && after.Obj? && Has(Declared(after), f.key)
    decreases Size(before) + Size(after), 0
  {
    DeclaredIsSmaller(after, f.key);
    if Has(Declared(before), f.key) then
      DeclaredIsSmaller(before, f.key);
      Residual(warn, lib, check, Prop(Declared(before), f.key), Prop(Declared(after), f.key), f.value)
    else Accepts(check, Prop(Declared(after), f.key), f.value)
  }

  ghost predicate ObjectResidual(warn: bool, lib: Library, check: TextCheck, before: Json, after: Json,
                                 fields: seq<Field>)
    requires before.Obj? && after.Obj?
    decreases Size(before) + Size(after), 1
  {
    && (forall n | n in RequiredNames(after) && !Has(Declared(after), n) :: Has(fields, n))
    && (forall f | f in fields && Has(Declared(after), f.key) :: FieldResidual(warn, lib, check, before, after, f))
  }

  /** A first `items` is compared with the schema that accepts everything. */
  ghost predicate ItemsResidual(warn: bool, lib: Library, check: TextCheck, before: Json, after: Json, items: seq<Json>)
    requires before.Obj? && after.Obj?
    decreases Size(before) + Size(after), 0
  {
    if Get(after, "items").Obj? then
      GetIsSmaller(before, "items");
      GetIsSmaller(after, "items");
      forall i | 0 <= i < |items| ::
        Residual(warn, lib, check, AsDict(Get(before, "items")), Get(after, "items"), items[i])
    else true
  }

  /** The differ takes another value for the one that lists `x`: it compares values by what they are as
      members of a Python set, where true is 1 and a list or dict is its printed form. */
  predicate Mistaken(lib: Library, before: seq<Json>, after: seq<Json>, x: Json) {
    exists i, j | 0 <= i < |before| && 0 <= j < |after| ::
      SameJson(before[i], x) && Hashable(lib, before[i]) == Hashable(lib, after[j]) && !SameJson(after[j], x)
  }

  /** The enum rule says nothing about `x`: there was no enum, or a listed value is mistaken for another. */
  predicate EnumUntold(lib: Library, before: Json, after: Json, x: Json)
    requires before.Obj? && after.Obj?
  {
    || Get(before, "enum").Null?
    || (&& Get(before, "enum").Arr? && Get(after, "enum").Arr?
        && Mistaken(lib, Get(before, "enum").items, Get(after, "enum").items, x))
  }

  /** Everything an INFO-only report leaves the new schema free to add: a type or an enum where there
      was none, required names it does not declare, the schemas of the optional properties it adds, and
      names demanded or extra fields refused where nothing made the node look like an object; and enum
      values it may drop because the differ mistakes others for them.
      With warnings it may also tighten bounds, patterns and formats. */
  ghost predicate Residual(warn: bool, lib: Library, check: TextCheck, before: Json, after: Json, x: Json)
    requires before.Obj? && after.Obj?
    decreases Size(before) + Size(after), 2
  {
    && (!Stated(before) ==> TypeAccepts(after, x))
    && (warn ==> ConstraintsAccept(check, after, x))
    && (EnumUntold(lib, before, after, x) ==> EnumAccepts(after, x))
    && (x.Obj? ==>
          if ComparesProperties(before, after) then ObjectResidual(warn, lib, check, before, after, x.fields)
          else UncomparedAccepts(after, x.fields))
    && (x.Arr? ==> ItemsResidual(warn, lib, check, before, after, x.items))
  }

  lemma {:induction false} AllDictFields(fields: seq<Field>)
    requires forall f | f in fields :: f.value.Obj?
    ensures DictFields(fields) == fields
  {
    if fields != [] {
      AllDictFields(fields[1..]);
    }
  }

  lemma FragmentProp(schema: Json, name: string)
    requires Fragment(schema) && Has(Declared(schema), name)
    ensures Fragment(Prop(Declared(schema), name))
    ensures Prop(Declared(schema), name) == Lookup(Declared(schema), name).value
  {
    var f := Field(name, Lookup(Declared(schema), name).value);
    assert f in Declared(schema);
    GetIsSmaller(schema, "properties");
    FieldIsSmaller(Declared(schema), f);
  }

  lemma FragmentShape(schema: Json)
    requires Fragment(schema)
    ensures PropsOf(schema) == Some(Declared(schema))
    ensures RequiredOf(schema) == Some(RequiredNames(schema))
  {
    if Has(schema.fields, "properties") {
      forall f | f in Declared(schema) ensures f.value.Obj? {
        GetIsSmaller(schema, "properties");
        FieldIsSmaller(Declared(schema), f);
        assert Fragment(f.value);
      }
      AllDictFields(Declared(schema));
    }
    if Has(schema.fields, "required") {
      var items := Get(schema, "required").items;
      forall i | 0 <= i < |items| ensures items[i].Str? {
        assert items[i] in items;
      }
      if items == [] {
        assert StringsOf(items) == {};
      }
    }
  }

  /** On the fragment the differ never raises for the rules that can. */
  lemma FragmentEnum(lib: Library, schema: Json)
    requires Fragment(schema)
    ensures EnumKeys(lib, Get(schema, "enum")).Some?
    ensures forall key ::
      key in EnumKeys(lib, Get(schema, "enum")).value <==>
      && Get(schema, "enum").Arr?
      && exists i | 0 <= i < |Get(schema, "enum").items| :: Hashable(lib, Get(schema, "enum").items[i]) == key
  {
  }

  /** An enum whose keys are all kept keeps every value that is not mistaken for another. */
  lemma EnumPreserved(lib: Library, before: Json, after: Json, x: Json)
    requires Fragment(before) && Fragment(after) && Get(before, "enum").Arr? && EnumAccepts(before, x)
    requires EnumKeys(lib, Get(before, "enum")).Some? && EnumKeys(lib, Get(after, "enum")).Some?
    requires EnumKeys(lib, Get(before, "enum")).value <= EnumKeys(lib, Get(after, "enum")).value
    ensures EnumUntold(lib, before, after, x) || EnumAccepts(after, x)
  {
    FragmentEnum(lib, before);
    FragmentEnum(lib, after);
    var vs := Get(before, "enum").items;
    var i :| 0 <= i < |vs| && SameJson(vs[i], x);
    assert Hashable(lib, vs[i]) in EnumKeys(lib, Get(before, "enum")).value;
    assert Hashable(lib, vs[i]) in EnumKeys(lib, Get(after, "enum")).value;
    var ws := Get(after, "enum").items;
    var j :| 0 <= j < |ws| && Hashable(lib, ws[j]) == Hashable(lib, vs[i]);
    if SameJson(ws[j], x) {
      assert Listed(ws, x);
    } else {
      assert Mistaken(lib, vs, ws, x);
    }
  }

  lemma BoundsPreserved(key: string, before: Json, after: Json, v: real)
    requires before.Obj? && after.Obj? && BoundAccepts(before, key, v)
    requires key in UPPER_BOUNDS || key in LOWER_BOUNDS
    requires BoundKept(key, key in UPPER_BOUNDS, before, after)
    ensures BoundAccepts(after, key, v)
  {
  }

  lemma ConstraintsPreserved(check: TextCheck, before: Json, after: Json, x: Json)
    requires Fragment(before) && Fragment(after) && ConstraintsKept(before, after)
    requires ConstraintsAccept(check, before, x)
    ensures ConstraintsAccept(check, after, x)
  {
    if x.Num? {
      forall k | k in ["maximum", "exclusiveMaximum", "minimum", "exclusiveMinimum"]
        ensures BoundAccepts(after, k, x.n)
      {
        BoundsPreserved(k, before, after, x.n);
      }
    }
    if x.Str? {
      forall k | k in ["maxLength", "minLength"] ensures BoundAccepts(after, k, |x.s| as real) {
        BoundsPreserved(k, before, after, |x.s| as real);
      }
      forall k | k in TEXT_KEYS && !Get(after, k).Null? ensures check(k, Get(after, k), x.s) {
        assert TextKept(k, before, after);
        assert Get(before, k) == Get(after, k);
      }
    }
  }

  lemma StatedTypePreserved(warn: bool, before: Json, after: Json, x: Json)
    requires before.Obj? && after.Obj? && TypesKept(warn, TypeSet(before), TypeSet(after))
    requires Stated(before) && TypeAccepts(before, x)
    ensures TypeAccepts(after, x)
  {
    var t :| t in TypeSet(before) && HasType(x, t);
    assert t in TypeSet(after) || (t == "integer" && "number" in TypeSet(after) && HasType(x, "number"));
  }

  lemma ScalarsPreserved(warn: bool, lib: Library, check: TextCheck, before: Json, after: Json, x: Json)
    requires Fragment(before) && Fragment(after) && ScalarsKept(warn, lib, before, after)
    requires ScalarAccepts(check, before, x)
    ensures ScalarAccepts(check, after, x)
       <==> && (!Stated(before) ==> TypeAccepts(after, x))
            && (EnumUntold(lib, before, after, x) ==> EnumAccepts(after, x))
            && (warn ==> ConstraintsAccept(check, after, x))
  {
    if Stated(before) {
      StatedTypePreserved(warn, before, after, x);
    }
    FragmentEnum(lib, before);
    FragmentEnum(lib, after);
    if Get(before, "enum").Arr? {
      EnumPreserved(lib, before, after, x);
    }
    if !warn {
      ConstraintsPreserved(check, before, after, x);
    }
  }

  /** On compatible schemas of the fragment, an instance the old schema accepts is accepted by the
      new one exactly when it meets what the report left the new schema free to add. */
  lemma {:induction false} CompatiblePreservesAcceptance(warn: bool, lib: Library, check: TextCheck, before: Json,
                                                         after: Json, x: Json)
    requires Fragment(before) && Fragment(after) && Compatible(warn, lib, before, after)
    requires Accepts(check, before, x)
    ensures Accepts(check, after, x) <==> Residual(warn, lib, check, before, after, x)
    decreases Size(before) + Size(after), 1
  {
    ScalarsPreserved(warn, lib, check, before, after, x);
    if x.Obj? {
      if ComparesProperties(before, after) {
        ObjectPreserved(warn, lib, check, before, after, x.fields);
      } else {
        UncomparedObject(check, after, x.fields);
      }
    }
    if x.Arr? {
      ItemsPreserved(warn, lib, check, before, after, x);
    }
  }

  lemma UncomparedObject(check: TextCheck, schema: Json, fields: seq<Field>)
    requires schema.Obj? && !Has(schema.fields, "properties")
    ensures ObjectAccepts(check, schema, fields) <==> UncomparedAccepts(schema, fields)
  {
    assert Declared(schema) == [];
    if fields != [] {
      assert fields[0] in fields;
    }
  }

  /** The schema a missing `items` stands for accepts everything. */
  lemma EmptyAccepts(check: TextCheck, x: Json)
    ensures Fragment(EmptyObj) && Accepts(check, EmptyObj, x)
  {
  }

  lemma {:induction false} ItemsPreserved(warn: bool, lib: Library, check: TextCheck, before: Json, after: Json,
                                          x: Json)
    requires Fragment(before) && Fragment(after) && Compatible(warn, lib, before, after)
    requires x.Arr? && Accepts(check, before, x)
    ensures ItemsAccept(check, after, x.items) <==> ItemsResidual(warn, lib, check, before, after, x.items)
    decreases Size(before) + Size(after), 0
  {
    if Get(after, "items").Obj? {
      ItemsCompared(warn, lib, before, after);
      var bi, ai := AsDict(Get(before, "items")), Get(after, "items");
      GetIsSmaller(before, "items");
      GetIsSmaller(after, "items");
      forall i | 0 <= i < |x.items|
        ensures Accepts(check, ai, x.items[i]) <==> Residual(warn, lib, check, bi, ai, x.items[i])
      {
        EmptyAccepts(check, x.items[i]);
        CompatiblePreservesAcceptance(warn, lib, check, bi, ai, x.items[i]);
      }
    }
  }

  /** What compatibility says about one declared property. */
  lemma PropertyKept(warn: bool, lib: Library, before: Json, after: Json, name: string)
    requires Fragment(before) && Fragment(after) && Compatible(warn, lib, before, after)
    requires ComparesProperties(before, after)
    ensures Has(Declared(before), name) ==>
              && Has(Declared(after), name)
              && Compatible(warn, lib, Prop(Declared(before), name), Prop(Declared(after), name))
    ensures name in RequiredNames(after) && Has(Declared(after), name) ==> name in RequiredNames(before)
    ensures AllowsExtra(before) ==> AdditionalProperties(after) != Bool(false)
  {
    FragmentShape(before);
    FragmentShape(after);
    assert PropertiesKept(warn, lib, before, after);
    assert CommonKept(warn, lib, Declared(before), Declared(after), RequiredNames(before), RequiredNames(after));
    assert NamesKept(Declared(before), Declared(after), RequiredNames(after));
  }

  lemma {:induction false} FieldPreserved(warn: bool, lib: Library, check: TextCheck, before: Json, after: Json,
                                          f: Field)
    requires Fragment(before) && Fragment(after) && Compatible(warn, lib, before, after)
    requires ComparesProperties(before, after) && Has(Declared(before), f.key)
    requires Accepts(check, Prop(Declared(before), f.key), f.value)
    ensures Has(Declared(after), f.key)
    ensures Accepts(check, Prop(Declared(after), f.key), f.value)
       <==> Residual(warn, lib, check, Prop(Declared(before), f.key), Prop(Declared(after), f.key), f.value)
    decreases Size(before) + Size(after), 0, 0
  {
    PropertyKept(warn, lib, before, after, f.key);
    FragmentProp(before, f.key);
    FragmentProp(after, f.key);
    DeclaredIsSmaller(before, f.key);
    DeclaredIsSmaller(after, f.key);
    CompatiblePreservesAcceptance(warn, lib, check, Prop(Declared(before), f.key), Prop(Declared(after), f.key),
                                  f.value);
  }

  /** One field of an accepted object: still accepted exactly when the residual conditions hold. */
  ghost predicate FieldStep(warn: bool, lib: Library, check: TextCheck, before: Json, after: Json, f: Field)
    requires before.Obj? && after.Obj?
  {
    if Has(Declared(before), f.key) then
      && Has(Declared(after), f.key)
      && (Accepts(check, Prop(Declared(after), f.key), f.value)
          <==> Residual(warn, lib, check, Prop(Declared(before), f.key), Prop(Declared(after), f.key), f.value))
    else Has(Declared(after), f.key) || AllowsExtra(after)
  }

  lemma ObjectStep(warn: bool, lib: Library, check: TextCheck, before: Json, after: Json, fields: seq<Field>)
    requires before.Obj? && after.Obj?
    requires forall f | f in fields :: FieldStep(warn, lib, check, before, after, f)
    requires forall n | n in RequiredNames(after) && Has(Declared(after), n) :: Has(fields, n)
    ensures ObjectAccepts(check, after, fields) <==> ObjectResidual(warn, lib, check, before, after, fields)
  {
  }

  lemma AcceptedField(check: TextCheck, schema: Json, fields: seq<Field>, f: Field)
    requires schema.Obj? && ObjectAccepts(check, schema, fields) && f in fields
    ensures if Has(Declared(schema), f.key) then Accepts(check, Prop(Declared(schema), f.key), f.value)
            else AllowsExtra(schema)
  {
  }

  lemma ExtraStaysAllowed(warn: bool, lib: Library, before: Json, after: Json)
    requires Fragment(before) && Fragment(after) && Compatible(warn, lib, before, after)
    requires ComparesProperties(before, after) && AllowsExtra(before)
    ensures AllowsExtra(after)
  {
    PropertyKept(warn, lib, before, after, "");
    BooleanExtra(after);
  }

  lemma {:induction false} FieldStepHolds(warn: bool, lib: Library, check: TextCheck, before: Json, after: Json,
                                          f: Field)
    requires Fragment(before) && Fragment(after) && Compatible(warn, lib, before, after)
    requires ComparesProperties(before, after)
    requires Has(Declared(before), f.key) ==> Accepts(check, Prop(Declared(before), f.key), f.value)
    requires !Has(Declared(before), f.key) ==> AllowsExtra(before)
    ensures FieldStep(warn, lib, check, before, after, f)
    decreases Size(before) + Size(after), 0, 1
  {
    if Has(Declared(before), f.key) {
      FieldPreserved(warn, lib, check, before, after, f);
    } else {
      ExtraStaysAllowed(warn, lib, before, after);
    }
  }

  lemma RequiredStepHolds(warn: bool, lib: Library, check: TextCheck, before: Json, after: Json, fields: seq<Field>,
                          n: string)
    requires Fragment(before) && Fragment(after) && Compatible(warn, lib, before, after)
    requires ComparesProperties(before, after) && ObjectAccepts(check, before, fields)
    requires n in RequiredNames(after) && Has(Declared(after), n)
    ensures Has(fields, n)
  {
    PropertyKept(warn, lib, before, after, n);
  }

  lemma {:induction false} ObjectPreserved(warn: bool, lib: Library, check: TextCheck, before: Json, after: Json,
                                           fields: seq<Field>)
    requires Fragment(before) && Fragment(after) && Compatible(warn, lib, before, after)
    requires ComparesProperties(before, after) && ObjectAccepts(check, before, fields)
    ensures ObjectAccepts(check, after, fields) <==> ObjectResidual(warn, lib, check, before, after, fields)
    decreases Size(before) + Size(after), 0, 2
  {
    forall f | f in fields ensures FieldStep(warn, lib, check, before, after, f) {
      AcceptedField(check, before, fields, f);
      FieldStepHolds(warn, lib, check, before, after, f);
    }
    forall n | n in RequiredNames(after) && Has(Declared(after), n) ensures Has(fields, n) {
      RequiredStepHolds(warn, lib, check, before, after, fields, n);
    }
    ObjectStep(warn, lib, check, before, after, fields);
  }

  lemma BooleanExtra(schema: Json)
    requires Fragment(schema) && AdditionalProperties(schema) != Bool(false)
    ensures AllowsExtra(schema)
  {
  }

  /** The `items` schemas are compared whenever the new side has one. */
  lemma ItemsCompared(warn: bool, lib: Library, before: Json, after: Json)
    requires Fragment(before) && Fragment(after) && Compatible(warn, lib, before, after)
    requires Get(after, "items").Obj?
    ensures Fragment(AsDict(Get(before, "items"))) && Fragment(Get(after, "items"))
    ensures Compatible(warn, lib, AsDict(Get(before, "items")), Get(after, "items"))
  {
    FragmentItems(before);
    FragmentItems(after);
    assert ComparesItems(before, after);
    assert ItemsKept(warn, lib, before, after);
    CompatibleDicts(warn, lib, Get(before, "items"), Get(after, "items"));
  }

  lemma FragmentItems(schema: Json)
    requires Fragment(schema)
    ensures Fragment(AsDict(Get(schema, "items")))
  {
    GetIsSmaller(schema, "items");
  }

  lemma CompatibleDicts(warn: bool, lib: Library, before: Json, after: Json)
    requires Compatible(warn, lib, before, after) && after.Obj?
    ensures Compatible(warn, lib, AsDict(before), after)
  {
    assert AsDict(AsDict(before)) == AsDict(before);
  }
}
