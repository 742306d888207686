/**
 For schemas whose local `$ref`s stand alone in their dicts, the expanded schema accepts what one gets by
 following the `$ref`s through the root: everything that is accepted however far they are followed, and
 nothing else when no `$ref` leads back to itself.
 */
module RefAcceptance {
  import opened Wrappers
  import opened Json
  import opened Schema
  import opened Renames
  import opened Findings
  import opened Acceptance
  import opened Refs
  import opened RefMeaning

  // ----- schemas with references -----

  /** A dict that is a local `$ref` and nothing else. */
  predicate Alone(schema: Json) {
    schema.Obj? && |schema.fields| == 1 && LocalRef(schema.fields).Some?
  }

  const SCHEMA_MAPS := {"properties", "$defs"}
  const SCHEMA_KEYS := SCHEMA_MAPS + {"items"}

  /** Local `$ref`s stand alone, and only where a schema stands. */
  ghost predicate RefSchema(schema: Json)
    decreases Size(schema), 1
  {
    schema.Obj? &&
    (Alone(schema) ||
     (LocalRef(schema.fields).None? &&
      forall f | f in schema.fields ::
        FieldIsSmaller(schema.fields, f);
        RefField(f.key, f.value)))
  }

  ghost predicate RefField(key: string, value: Json)
    decreases Size(value), 2
  {
    if key in SCHEMA_MAPS then
      && value.Obj? && LocalRef(value.fields).None?
      && forall f | f in value.fields ::
           FieldIsSmaller(value.fields, f);
           RefSchema(f.value)
    else if key == "items" then RefSchema(value)
    else AllRefs(value) == {}
  }

  /** The dicts the `$ref`s of the root lead to are such schemas. */
  ghost predicate TargetsAreSchemas(lib: Library, root: Json) {
    forall p | p in AllRefs(root) && Pointee(lib, root, p).Found? && Pointee(lib, root, p).value.Obj? ::
      RefSchema(Pointee(lib, root, p).value)
  }

  /** The `$ref`s inside what a `$ref` leads to have a lower rank: none leads back to itself. */
  ghost predicate Ranked(lib: Library, root: Json, rank: string -> nat) {
    forall p, q | p in AllRefs(root) && Pointee(lib, root, p).Found? && q in AllRefs(Pointee(lib, root, p).value) ::
      rank(q) < rank(p)
  }

  // ----- their meaning -----

  /** Following at most `n` `$ref`s, the schema rejects nothing of `x`; a `$ref` that leads to no dict
      demands nothing. */
  ghost predicate Follows(lib: Library, check: TextCheck, n: nat, schema: Json, root: Json, x: Json)
    requires schema.Obj?
    decreases n, Size(schema), 1
  {
    if Alone(schema) then
      var t := Pointee(lib, root, LocalRef(schema.fields).value);
      t.Found? && t.value.Obj? && n > 0 ==> Follows(lib, check, n - 1, t.value, root, x)
    else
      && ScalarAccepts(check, schema, x)
      && (x.Obj? ==> FollowsObject(lib, check, n, schema, root, x.fields))
      && (x.Arr? ==> FollowsItems(lib, check, n, schema, root, x.items))
  }

  ghost predicate FollowsObject(lib: Library, check: TextCheck, n: nat, schema: Json, root: Json, fields: seq<Field>)
    requires schema.Obj?
    decreases n, Size(schema), 0
  {
    && (forall k | k in RequiredNames(schema) :: Has(fields, k))
    && (forall f | f in fields ::
          if Has(Declared(schema), f.key) then
            DeclaredIsSmaller(schema, f.key);
            Follows(lib, check, n, Prop(Declared(schema), f.key), root, f.value)
          else AllowsExtra(schema))
  }

  ghost predicate FollowsItems(lib: Library, check: TextCheck, n: nat, schema: Json, root: Json, items: seq<Json>)
    requires schema.Obj?
    decreases n, Size(schema), 0
  {
    if Get(schema, "items").Obj? then
      GetIsSmaller(schema, "items");
      forall i | 0 <= i < |items| :: Follows(lib, check, n, Get(schema, "items"), root, items[i])
    else true
  }

  // ----- one node of the expansion -----

  lemma {:induction false} NoRefsNoChange(lib: Library, v: Json, root: Json, seen: set<string>)
    requires AllRefs(v) == {}
    ensures Resolve(lib, v, root, seen) == Some(v)
    decreases Size(v), 1
  {
    match v
    case Obj(fields) => NoRefsInFields(lib, fields, root, seen);
    case Arr(items) => NoRefsInItems(lib, items, root, seen);
    case _ =>
  }

  lemma {:induction false} NoRefsInFields(lib: Library, fields: seq<Field>, root: Json, seen: set<string>)
    requires FieldRefs(fields) == {}
    ensures ResolveFields(lib, fields, root, seen) == Some(fields)
    decreases SizeFields(fields), 2
  {
    if fields != [] {
      NoRefsNoChange(lib, fields[0].value, root, seen);
      NoRefsInFields(lib, fields[1..], root, seen);
      assert [Field(fields[0].key, fields[0].value)] + fields[1..] == fields;
    }
  }

  lemma {:induction false} NoRefsInItems(lib: Library, items: seq<Json>, root: Json, seen: set<string>)
    requires ItemRefs(items) == {}
    ensures ResolveItems(lib, items, root, seen) == Some(items)
    decreases SizeItems(items), 2
  {
    if items != [] {
      NoRefsNoChange(lib, items[0], root, seen);
      NoRefsInItems(lib, items[1..], root, seen);
      assert [items[0]] + items[1..] == items;
    }
  }

  /** `out` has the keys of `fields` and their values expanded. */
  ghost predicate FieldwiseExpanded(lib: Library, fields: seq<Field>, out: seq<Field>, root: Json, seen: set<string>) {
    && |out| == |fields|
    && forall i | 0 <= i < |fields| ::
         out[i].key == fields[i].key && Resolve(lib, fields[i].value, root, seen) == Some(out[i].value)
  }

  lemma {:induction false} ExpandedLookup(lib: Library, fields: seq<Field>, out: seq<Field>, root: Json,
                                          seen: set<string>, key: string)
    requires FieldwiseExpanded(lib, fields, out, root, seen)
    ensures Has(out, key) == Has(fields, key)
    ensures Has(fields, key) ==>
      Resolve(lib, Lookup(fields, key).value, root, seen) == Some(Lookup(out, key).value)
    decreases |fields|
  {
    if fields != [] && fields[0].key != key {
      ExpandedLookup(lib, fields[1..], out[1..], root, seen, key);
    }
  }

  /** A schema that is no `$ref` keeps its keywords; what its schema keywords hold is expanded. */
  lemma ExpandedKeywords(lib: Library, schema: Json, root: Json, seen: set<string>, key: string)
    requires RefSchema(schema) && !Alone(schema) && Resolve(lib, schema, root, seen).Some?
    ensures var e := Resolve(lib, schema, root, seen).value;
      && e.Obj? && Has(e.fields, key) == Has(schema.fields, key)
      && (key !in SCHEMA_KEYS ==> Lookup(e.fields, key) == Lookup(schema.fields, key))
      && (Has(schema.fields, key) ==> Resolve(lib, Get(schema, key), root, seen) == Some(Get(e, key)))
  {
    KeysAreKept(lib, schema.fields, root, seen);
    var e := Resolve(lib, schema, root, seen).value;
    ExpandedLookup(lib, schema.fields, e.fields, root, seen, key);
    if Has(schema.fields, key) && key !in SCHEMA_KEYS {
      var f := Field(key, Lookup(schema.fields, key).value);
      assert f in schema.fields && RefField(f.key, f.value);
      NoRefsNoChange(lib, f.value, root, seen);
    }
  }

  lemma ExpandedIsDict(lib: Library, schema: Json, root: Json, seen: set<string>)
    requires RefSchema(schema) && Resolve(lib, schema, root, seen).Some?
    ensures Resolve(lib, schema, root, seen).value.Obj?
  {
    if !Alone(schema) {
      KeysAreKept(lib, schema.fields, root, seen);
    }
  }

  /** The keywords that hold no schema, and whether the others are there. */
  ghost predicate SameKeywords(a: Json, b: Json)
    requires a.Obj? && b.Obj?
  {
    && Has(a.fields, "properties") == Has(b.fields, "properties") && Has(a.fields, "items") == Has(b.fields, "items")
    && forall k | k !in SCHEMA_KEYS :: Lookup(a.fields, k) == Lookup(b.fields, k)
  }

  lemma SameConstraintsAccept(check: TextCheck, a: Json, b: Json, x: Json)
    requires a.Obj? && b.Obj? && forall k | k !in SCHEMA_KEYS :: Get(a, k) == Get(b, k)
    ensures ConstraintsAccept(check, a, x) == ConstraintsAccept(check, b, x)
  {
    forall k | k in ["maximum", "exclusiveMaximum", "minimum", "exclusiveMinimum"] || k in ["maxLength", "minLength"]
      ensures Get(a, k) == Get(b, k)
    {
      assert k !in SCHEMA_KEYS;
    }
    forall k | k in TEXT_KEYS ensures Get(a, k) == Get(b, k) {
      assert k !in SCHEMA_KEYS;
    }
  }

  lemma SameTypesAccept(a: Json, b: Json, x: Json)
    requires a.Obj? && b.Obj? && SameKeywords(a, b)
    ensures TypeAccepts(a, x) == TypeAccepts(b, x)
  {
    assert Lookup(a.fields, "type") == Lookup(b.fields, "type");
    assert TypeSet(a) == TypeSet(b);
  }

  lemma SameKeywordsAccept(check: TextCheck, a: Json, b: Json, x: Json)
    requires a.Obj? && b.Obj? && SameKeywords(a, b)
    ensures ScalarAccepts(check, a, x) == ScalarAccepts(check, b, x)
    ensures RequiredNames(a) == RequiredNames(b) && AllowsExtra(a) == AllowsExtra(b)
  {
    SameTypesAccept(a, b, x);
    assert Lookup(a.fields, "enum") == Lookup(b.fields, "enum");
    assert Lookup(a.fields, "required") == Lookup(b.fields, "required");
    assert Lookup(a.fields, "additionalProperties") == Lookup(b.fields, "additionalProperties");
    SameConstraintsAccept(check, a, b, x);
  }

  lemma ExpandedKeepsKeywords(lib: Library, schema: Json, root: Json, seen: set<string>)
    requires RefSchema(schema) && !Alone(schema) && Resolve(lib, schema, root, seen).Some?
    ensures var e := Resolve(lib, schema, root, seen).value; e.Obj? && SameKeywords(schema, e)
  {
    forall k
      ensures var e := Resolve(lib, schema, root, seen).value;
        && e.Obj? && Has(e.fields, k) == Has(schema.fields, k)
        && (k !in SCHEMA_KEYS ==> Lookup(e.fields, k) == Lookup(schema.fields, k))
    {
      ExpandedKeywords(lib, schema, root, seen, k);
    }
  }

  lemma ExpandedNode(lib: Library, check: TextCheck, schema: Json, root: Json, seen: set<string>, x: Json)
    requires RefSchema(schema) && !Alone(schema) && Resolve(lib, schema, root, seen).Some?
    ensures var e := Resolve(lib, schema, root, seen).value;
      && e.Obj? && ScalarAccepts(check, schema, x) == ScalarAccepts(check, e, x)
      && RequiredNames(schema) == RequiredNames(e) && AllowsExtra(schema) == AllowsExtra(e)
  {
    ExpandedKeepsKeywords(lib, schema, root, seen);
    SameKeywordsAccept(check, schema, Resolve(lib, schema, root, seen).value, x);
  }

  /** Declared properties stay declared, each with its schema expanded. */
  lemma ExpandedProperty(lib: Library, schema: Json, root: Json, seen: set<string>, name: string)
    requires RefSchema(schema) && !Alone(schema) && Resolve(lib, schema, root, seen).Some?
    requires Resolve(lib, schema, root, seen).value.Obj?
    ensures var e := Resolve(lib, schema, root, seen).value;
      && Has(Declared(e), name) == Has(Declared(schema), name)
      && (Has(Declared(schema), name) ==>
            && RefSchema(Prop(Declared(schema), name))
            && Resolve(lib, Prop(Declared(schema), name), root, seen) == Some(Prop(Declared(e), name)))
  {
    var e := Resolve(lib, schema, root, seen).value;
    ExpandedKeywords(lib, schema, root, seen, "properties");
    if Has(schema.fields, "properties") {
      var props := Get(schema, "properties");
      assert Field("properties", props) in schema.fields && RefField("properties", props);
      KeysAreKept(lib, props.fields, root, seen);
      ExpandedLookup(lib, props.fields, Get(e, "properties").fields, root, seen, name);
      if Has(props.fields, name) {
        var f := Field(name, Lookup(props.fields, name).value);
        assert f in props.fields && RefSchema(f.value);
        ExpandedIsDict(lib, f.value, root, seen);
      }
    }
  }

  lemma ExpandedItems(lib: Library, schema: Json, root: Json, seen: set<string>)
    requires RefSchema(schema) && !Alone(schema) && Resolve(lib, schema, root, seen).Some?
    requires Resolve(lib, schema, root, seen).value.Obj?
    ensures var e := Resolve(lib, schema, root, seen).value;
      && Get(e, "items").Obj? == Get(schema, "items").Obj?
      && (Get(schema, "items").Obj? ==>
            && RefSchema(Get(schema, "items"))
            && Resolve(lib, Get(schema, "items"), root, seen) == Some(Get(e, "items")))
  {
    ExpandedKeywords(lib, schema, root, seen, "items");
    if Has(schema.fields, "items") {
      var items := Get(schema, "items");
      assert Field("items", items) in schema.fields && RefField("items", items);
      ExpandedIsDict(lib, items, root, seen);
    }
  }

  /** A `$ref` alone is replaced by its expanded target, or by the empty schema. */
  lemma ExpandedRef(lib: Library, schema: Json, root: Json, seen: set<string>)
    requires Alone(schema) && Resolve(lib, schema, root, seen).Some?
    ensures var ref := LocalRef(schema.fields).value;
      var e, t := Resolve(lib, schema, root, seen).value, Pointee(lib, root, ref);
      if ref in seen then e == EmptyObj
      else if t.Found? && !t.value.Null? then
        var r := Resolve(lib, t.value, root, seen + {ref});
        r.Some? && e == (if t.value.Obj? && r.value.Obj? then r.value else EmptyObj)
      else e == schema
  {
    var fields := schema.fields;
    assert fields[0].key == "$ref" && fields[1..] == [];
    assert WithoutRef(fields) == [];
  }

  // ----- the `$ref`s inside parts of a schema -----

  lemma PartsRefs(schema: Json, name: string)
    requires schema.Obj?
    ensures AllRefs(Get(schema, name)) <= AllRefs(schema)
    ensures Has(Declared(schema), name) ==> AllRefs(Prop(Declared(schema), name)) <= AllRefs(schema)
  {
    if Has(schema.fields, name) {
      FieldRefsMember(schema.fields, Field(name, Lookup(schema.fields, name).value));
    }
    if Has(Declared(schema), name) {
      var props := Get(schema, "properties");
      FieldRefsMember(schema.fields, Field("properties", props));
      FieldRefsMember(props.fields, Field(name, Lookup(props.fields, name).value));
    }
  }

  lemma AloneRefs(schema: Json)
    requires Alone(schema)
    ensures LocalRef(schema.fields).value in AllRefs(schema)
  {
  }

  // ----- what is accepted however far the `$ref`s are followed -----

  lemma OneLess(all: set<string>, seen: set<string>, ref: string)
    requires ref in all && ref !in seen
    ensures |all - (seen + {ref})| == |all - seen| - 1
  {
    assert all - (seen + {ref}) == (all - seen) - {ref};
  }

  /** Followed far enough, an accepted instance is accepted by the expansion. */
  lemma {:induction false} FollowedIsAccepted(lib: Library, check: TextCheck, n: nat, schema: Json, root: Json,
                                              seen: set<string>, x: Json)
    requires RefSchema(schema) && TargetsAreSchemas(lib, root) && AllRefs(schema) <= AllRefs(root)
    requires Resolve(lib, schema, root, seen).Some? && n >= |AllRefs(root) - seen|
    requires Follows(lib, check, n, schema, root, x)
    ensures var e := Resolve(lib, schema, root, seen).value; e.Obj? && Accepts(check, e, x)
    decreases n, Size(schema), 1
  {
    ExpandedIsDict(lib, schema, root, seen);
    if Alone(schema) {
      FollowedRefIsAccepted(lib, check, n, schema, root, seen, x);
    } else {
      ExpandedNode(lib, check, schema, root, seen, x);
      if x.Obj? {
        FollowedObjectIsAccepted(lib, check, n, schema, root, seen, x.fields);
      }
      if x.Arr? {
        FollowedItemsAreAccepted(lib, check, n, schema, root, seen, x.items);
      }
    }
  }

  lemma {:induction false} FollowedRefIsAccepted(lib: Library, check: TextCheck, n: nat, schema: Json, root: Json,
                                                 seen: set<string>, x: Json)
    requires Alone(schema) && TargetsAreSchemas(lib, root) && AllRefs(schema) <= AllRefs(root)
    requires Resolve(lib, schema, root, seen).Some? && n >= |AllRefs(root) - seen|
    requires Follows(lib, check, n, schema, root, x)
    ensures var e := Resolve(lib, schema, root, seen).value; e.Obj? && Accepts(check, e, x)
    decreases n, Size(schema), 0
  {
    ExpandedRef(lib, schema, root, seen);
    var ref := LocalRef(schema.fields).value;
    var t := Pointee(lib, root, ref);
    if ref in seen || (t.Found? && !t.value.Null? && !t.value.Obj?) {
      EmptyAccepts(check, x);
    } else if t.Found? && t.value.Obj? {
      TargetIsFollowed(lib, check, n, schema, root, seen, ref, t.value, x);
      FollowedIsAccepted(lib, check, n - 1, t.value, root, seen + {ref}, x);
    } else {
      RefAcceptsAll(check, schema, x);
    }
  }

  /** Following a `$ref` that stands alone is following its target, with one pointer less to come. */
  lemma TargetIsFollowed(lib: Library, check: TextCheck, n: nat, schema: Json, root: Json, seen: set<string>,
                         ref: string, target: Json, x: Json)
    requires Alone(schema) && TargetsAreSchemas(lib, root) && AllRefs(schema) <= AllRefs(root)
    requires n >= |AllRefs(root) - seen| && Follows(lib, check, n, schema, root, x) && ref !in seen
    requires ref == LocalRef(schema.fields).value && Pointee(lib, root, ref) == Found(target) && target.Obj?
    ensures n > 0 && n - 1 >= |AllRefs(root) - (seen + {ref})| && Follows(lib, check, n - 1, target, root, x)
    ensures RefSchema(target) && AllRefs(target) <= AllRefs(root)
  {
    AloneRefs(schema);
    OneLess(AllRefs(root), seen, ref);
    FollowOnce(lib, check, n, schema, root, x);
    PointeeRefs(lib, root, ref);
  }

  lemma FollowOnce(lib: Library, check: TextCheck, n: nat, schema: Json, root: Json, x: Json)
    requires Alone(schema) && n > 0 && Follows(lib, check, n, schema, root, x)
    requires var t := Pointee(lib, root, LocalRef(schema.fields).value); t.Found? && t.value.Obj?
    ensures Follows(lib, check, n - 1, Pointee(lib, root, LocalRef(schema.fields).value).value, root, x)
  {
  }

  /** A `$ref` that leads nowhere is no keyword of a validator's. */
  lemma RefAcceptsAll(check: TextCheck, schema: Json, x: Json)
    requires Alone(schema)
    ensures Accepts(check, schema, x)
  {
    assert schema.fields[0].key == "$ref";
    forall key | key != "$ref" ensures Lookup(schema.fields, key).None? {
      assert schema.fields[1..] == [];
    }
    SameAsEmpty(check, schema, x);
  }

  lemma SameAsEmpty(check: TextCheck, schema: Json, x: Json)
    requires schema.Obj? && forall key | key != "$ref" :: Lookup(schema.fields, key).None?
    ensures Accepts(check, schema, x)
  {
  }

  lemma {:induction false} FollowedObjectIsAccepted(lib: Library, check: TextCheck, n: nat, schema: Json, root: Json,
                                                    seen: set<string>, fields: seq<Field>)
    requires RefSchema(schema) && !Alone(schema) && TargetsAreSchemas(lib, root) && AllRefs(schema) <= AllRefs(root)
    requires Resolve(lib, schema, root, seen).Some? && n >= |AllRefs(root) - seen|
    requires FollowsObject(lib, check, n, schema, root, fields) && Resolve(lib, schema, root, seen).value.Obj?
    ensures ObjectAccepts(check, Resolve(lib, schema, root, seen).value, fields)
    decreases n, Size(schema), 0
  {
    var e := Resolve(lib, schema, root, seen).value;
    ExpandedNode(lib, check, schema, root, seen, Null);
    forall f | f in fields
      ensures if Has(Declared(e), f.key) then Accepts(check, Prop(Declared(e), f.key), f.value) else AllowsExtra(e)
    {
      ExpandedProperty(lib, schema, root, seen, f.key);
      if Has(Declared(schema), f.key) {
        DeclaredIsSmaller(schema, f.key);
        PartsRefs(schema, f.key);
        FollowedIsAccepted(lib, check, n, Prop(Declared(schema), f.key), root, seen, f.value);
      }
    }
  }

  lemma {:induction false} FollowedItemsAreAccepted(lib: Library, check: TextCheck, n: nat, schema: Json, root: Json,
                                                    seen: set<string>, items: seq<Json>)
    requires RefSchema(schema) && !Alone(schema) && TargetsAreSchemas(lib, root) && AllRefs(schema) <= AllRefs(root)
    requires Resolve(lib, schema, root, seen).Some? && n >= |AllRefs(root) - seen|
    requires FollowsItems(lib, check, n, schema, root, items) && Resolve(lib, schema, root, seen).value.Obj?
    ensures ItemsAccept(check, Resolve(lib, schema, root, seen).value, items)
    decreases n, Size(schema), 0
  {
    ExpandedItems(lib, schema, root, seen);
    if Get(schema, "items").Obj? {
      GetIsSmaller(schema, "items");
      PartsRefs(schema, "items");
      var e := Resolve(lib, schema, root, seen).value;
      forall i | 0 <= i < |items| ensures Accepts(check, Get(e, "items"), items[i]) {
        FollowedIsAccepted(lib, check, n, Get(schema, "items"), root, seen, items[i]);
      }
    }
  }

  // ----- nothing else is accepted if no `$ref` leads back to itself -----

  /** The `$ref`s of the schema have a lower rank than those being expanded. */
  ghost predicate Below(schema: Json, seen: set<string>, rank: string -> nat) {
    forall p, q | p in AllRefs(schema) && q in seen :: rank(p) < rank(q)
  }

  lemma {:induction false} AcceptedIsFollowed(lib: Library, check: TextCheck, n: nat, schema: Json, root: Json,
                                              seen: set<string>, rank: string -> nat, x: Json)
    requires RefSchema(schema) && TargetsAreSchemas(lib, root) && AllRefs(schema) <= AllRefs(root)
    requires Ranked(lib, root, rank) && Below(schema, seen, rank) && Resolve(lib, schema, root, seen).Some?
    requires var e := Resolve(lib, schema, root, seen).value; e.Obj? && Accepts(check, e, x)
    ensures Follows(lib, check, n, schema, root, x)
    decreases n, Size(schema), 1
  {
    if Alone(schema) {
      AcceptedRefIsFollowed(lib, check, n, schema, root, seen, rank, x);
    } else {
      ExpandedNode(lib, check, schema, root, seen, x);
      if x.Obj? {
        AcceptedObjectIsFollowed(lib, check, n, schema, root, seen, rank, x.fields);
      }
      if x.Arr? {
        AcceptedItemsAreFollowed(lib, check, n, schema, root, seen, rank, x.items);
      }
    }
  }

  lemma {:induction false} AcceptedRefIsFollowed(lib: Library, check: TextCheck, n: nat, schema: Json, root: Json,
                                                 seen: set<string>, rank: string -> nat, x: Json)
    requires Alone(schema) && TargetsAreSchemas(lib, root) && AllRefs(schema) <= AllRefs(root)
    requires Ranked(lib, root, rank) && Below(schema, seen, rank) && Resolve(lib, schema, root, seen).Some?
    requires var e := Resolve(lib, schema, root, seen).value; e.Obj? && Accepts(check, e, x)
    ensures Follows(lib, check, n, schema, root, x)
    decreases n, Size(schema), 0
  {
    var ref := LocalRef(schema.fields).value;
    var t := Pointee(lib, root, ref);
    if t.Found? && t.value.Obj? && n > 0 {
      TargetIsReady(lib, schema, root, seen, rank, ref, t.value);
      AcceptedIsFollowed(lib, check, n - 1, t.value, root, seen + {ref}, rank, x);
      FollowedOnce(lib, check, n, schema, root, x);
    }
  }

  /** The target of a `$ref` that stands alone can be followed in its place. */
  lemma TargetIsReady(lib: Library, schema: Json, root: Json, seen: set<string>, rank: string -> nat, ref: string,
                      target: Json)
    requires Alone(schema) && TargetsAreSchemas(lib, root) && AllRefs(schema) <= AllRefs(root)
    requires Ranked(lib, root, rank) && Below(schema, seen, rank) && Resolve(lib, schema, root, seen).Some?
    requires ref == LocalRef(schema.fields).value && Pointee(lib, root, ref) == Found(target) && target.Obj?
    ensures RefSchema(target) && AllRefs(target) <= AllRefs(root) && Below(target, seen + {ref}, rank)
    ensures Resolve(lib, target, root, seen + {ref}) == Resolve(lib, schema, root, seen)
  {
    AloneRefs(schema);
    PointeeRefs(lib, root, ref);
    BelowTarget(lib, schema, root, seen, rank);
    ExpandedTarget(lib, schema, root, seen);
  }

  lemma ExpandedTarget(lib: Library, schema: Json, root: Json, seen: set<string>)
    requires Alone(schema) && Resolve(lib, schema, root, seen).Some? && LocalRef(schema.fields).value !in seen
    requires var t := Pointee(lib, root, LocalRef(schema.fields).value); t.Found? && t.value.Obj? && RefSchema(t.value)
    ensures var ref := LocalRef(schema.fields).value;
      Resolve(lib, Pointee(lib, root, ref).value, root, seen + {ref}) == Resolve(lib, schema, root, seen)
  {
    ExpandedRef(lib, schema, root, seen);
    var ref := LocalRef(schema.fields).value;
    ExpandedIsDict(lib, Pointee(lib, root, ref).value, root, seen + {ref});
  }

  lemma BelowTarget(lib: Library, schema: Json, root: Json, seen: set<string>, rank: string -> nat)
    requires Alone(schema) && AllRefs(schema) <= AllRefs(root) && Ranked(lib, root, rank) && Below(schema, seen, rank)
    requires Pointee(lib, root, LocalRef(schema.fields).value).Found?
    ensures var ref := LocalRef(schema.fields).value;
      ref !in seen && Below(Pointee(lib, root, ref).value, seen + {ref}, rank)
  {
    AloneRefs(schema);
    var ref := LocalRef(schema.fields).value;
    forall p, q | p in AllRefs(Pointee(lib, root, ref).value) && q in seen + {ref} ensures rank(p) < rank(q) {
      assert rank(p) < rank(ref);
    }
  }

  lemma FollowedOnce(lib: Library, check: TextCheck, n: nat, schema: Json, root: Json, x: Json)
    requires Alone(schema) && n > 0
    requires var t := Pointee(lib, root, LocalRef(schema.fields).value);
      t.Found? && t.value.Obj? && Follows(lib, check, n - 1, t.value, root, x)
    ensures Follows(lib, check, n, schema, root, x)
  {
  }

  lemma {:induction false} AcceptedObjectIsFollowed(lib: Library, check: TextCheck, n: nat, schema: Json, root: Json,
                                                    seen: set<string>, rank: string -> nat, fields: seq<Field>)
    requires RefSchema(schema) && !Alone(schema) && TargetsAreSchemas(lib, root) && AllRefs(schema) <= AllRefs(root)
    requires Ranked(lib, root, rank) && Below(schema, seen, rank) && Resolve(lib, schema, root, seen).Some?
    requires var e := Resolve(lib, schema, root, seen).value; e.Obj? && ObjectAccepts(check, e, fields)
    ensures FollowsObject(lib, check, n, schema, root, fields)
    decreases n, Size(schema), 0
  {
    var e := Resolve(lib, schema, root, seen).value;
    ExpandedNode(lib, check, schema, root, seen, Null);
    forall f | f in fields
      ensures if Has(Declared(schema), f.key) then
                DeclaredIsSmaller(schema, f.key);
                Follows(lib, check, n, Prop(Declared(schema), f.key), root, f.value)
              else AllowsExtra(schema)
    {
      AcceptedField(check, e, fields, f);
      ExpandedProperty(lib, schema, root, seen, f.key);
      if Has(Declared(schema), f.key) {
        DeclaredIsSmaller(schema, f.key);
        PartsRefs(schema, f.key);
        AcceptedIsFollowed(lib, check, n, Prop(Declared(schema), f.key), root, seen, rank, f.value);
      }
    }
  }

  lemma {:induction false} AcceptedItemsAreFollowed(lib: Library, check: TextCheck, n: nat, schema: Json, root: Json,
                                                    seen: set<string>, rank: string -> nat, items: seq<Json>)
    requires RefSchema(schema) && !Alone(schema) && TargetsAreSchemas(lib, root) && AllRefs(schema) <= AllRefs(root)
    requires Ranked(lib, root, rank) && Below(schema, seen, rank) && Resolve(lib, schema, root, seen).Some?
    requires var e := Resolve(lib, schema, root, seen).value; e.Obj? && ItemsAccept(check, e, items)
    ensures FollowsItems(lib, check, n, schema, root, items)
    decreases n, Size(schema), 0
  {
    ExpandedItems(lib, schema, root, seen);
    if Get(schema, "items").Obj? {
      GetIsSmaller(schema, "items");
      PartsRefs(schema, "items");
      forall i | 0 <= i < |items| ensures Follows(lib, check, n, Get(schema, "items"), root, items[i]) {
        AcceptedIsFollowed(lib, check, n, Get(schema, "items"), root, seen, rank, items[i]);
      }
    }
  }

  // ----- a schema expanded against itself -----

  /** Expansion never rejects what the schema accepts, and accepts nothing else when no `$ref` leads back
      to itself. */
  lemma ExpansionKeepsMeaning(lib: Library, check: TextCheck, schema: Json, x: Json)
    requires RefSchema(schema) && TargetsAreSchemas(lib, schema) && Resolve(lib, schema, schema, {}).Some?
    ensures var e := Resolve(lib, schema, schema, {}).value;
      && e.Obj?
      && ((forall n: nat :: Follows(lib, check, n, schema, schema, x)) ==> Accepts(check, e, x))
      && ((exists rank :: Ranked(lib, schema, rank)) && Accepts(check, e, x) ==>
            forall n: nat :: Follows(lib, check, n, schema, schema, x))
  {
    ExpandedIsDict(lib, schema, schema, {});
    var e := Resolve(lib, schema, schema, {}).value;
    if forall n: nat :: Follows(lib, check, n, schema, schema, x) {
      FollowedIsAccepted(lib, check, |AllRefs(schema) - {}|, schema, schema, {}, x);
    }
    if (exists rank :: Ranked(lib, schema, rank)) && Accepts(check, e, x) {
      var rank :| Ranked(lib, schema, rank);
      forall n: nat ensures Follows(lib, check, n, schema, schema, x) {
        AcceptedIsFollowed(lib, check, n, schema, schema, {}, rank, x);
      }
    }
  }

  /** An object schema with one property. */
  function Parent(child: Json): Json {
    Obj([Field("type", Str("object")), Field("properties", Obj([Field("c", child)]))])
  }

  function Holding(v: Json): Json {
    Obj([Field("c", v)])
  }

  const TO_ROOT := Obj([SELF_REF])
  const TREE := Parent(TO_ROOT)

  /** A `$ref` back to where it stands is expanded once and then cut ... */
  lemma RecursionIsCut(lib: Library)
    ensures Resolve(lib, TREE, TREE, {}) == Some(Parent(Parent(EmptyObj)))
  {
    var none: set<string> := {};
    OneLevel(lib, none + {"#"}, EmptyObj);
    TargetIsRoot(lib, none, Parent(EmptyObj));
    OneLevel(lib, none, Parent(EmptyObj));
  }

  lemma TargetIsRoot(lib: Library, seen: set<string>, cut: Json)
    requires "#" !in seen && Resolve(lib, TREE, TREE, seen + {"#"}) == Some(cut) && cut.Obj?
    ensures Resolve(lib, TO_ROOT, TREE, seen) == Some(cut)
  {
    var fields := TO_ROOT.fields;
    assert fields == [SELF_REF] && LocalRef(fields) == Some("#");
    assert Pointee(lib, TREE, "#") == Found(TREE);
    var none: seq<Field> := [];
    assert fields[1..] == none && WithoutRef(none) == none;
    assert WithoutRef(fields) == none;
    assert Merge(cut.fields, none) == cut.fields;
  }

  lemma OneField(lib: Library, f: Field, rest: seq<Field>, seen: set<string>, v: Json, out: seq<Field>)
    requires Resolve(lib, f.value, TREE, seen) == Some(v) && ResolveFields(lib, rest, TREE, seen) == Some(out)
    ensures ResolveFields(lib, [f] + rest, TREE, seen) == Some([Field(f.key, v)] + out)
  {
    assert ([f] + rest)[1..] == rest;
  }

  lemma OneLevel(lib: Library, seen: set<string>, inner: Json)
    requires Resolve(lib, TO_ROOT, TREE, seen) == Some(inner)
    ensures Resolve(lib, TREE, TREE, seen) == Some(Parent(inner))
  {
    var none: seq<Field> := [];
    var props, grown := [Field("c", TO_ROOT)], [Field("c", inner)];
    NoRefsInFields(lib, none, TREE, seen);
    OneField(lib, Field("c", TO_ROOT), none, seen, inner, none);
    assert [Field("c", TO_ROOT)] + none == props && [Field("c", inner)] + none == grown;
    assert LocalRef(props).None?;
    assert Resolve(lib, Obj(props), TREE, seen) == Some(Obj(grown));
    var child := Field("properties", Obj(props));
    OneField(lib, child, none, seen, Obj(grown), none);
    assert [child] + none == [child];
    var stated := Field("type", Str("object"));
    OneField(lib, stated, [child], seen, Str("object"), [Field("properties", Obj(grown))] + none);
    assert [stated] + [child] == TREE.fields && LocalRef(TREE.fields).None?;
    assert [stated] + ([Field("properties", Obj(grown))] + none) == Parent(inner).fields;
  }

  lemma ParentLookup(child: Json, key: string)
    ensures Lookup(Parent(child).fields, key)
         == if key == "type" then Some(Str("object")) else if key == "properties" then Some(Holding(child)) else None
  {
    assert Parent(child).fields[1..] == [Field("properties", Holding(child))];
    assert Parent(child).fields[1..][1..] == [];
  }

  lemma ParentParts(check: TextCheck, child: Json, x: Json)
    requires child.Obj?
    ensures ScalarAccepts(check, Parent(child), x) <==> x.Obj?
    ensures RequiredNames(Parent(child)) == {} && Declared(Parent(child)) == [Field("c", child)]
    ensures Get(Parent(child), "items").Null?
  {
    forall key
      ensures Lookup(Parent(child).fields, key)
           == if key == "type" then Some(Str("object")) else if key == "properties" then Some(Holding(child)) else None
    {
      ParentLookup(child, key);
    }
    assert TypeSet(Parent(child)) == {"object"};
    assert HasType(x, "object") <==> x.Obj?;
  }

  lemma ParentAccepts(check: TextCheck, child: Json, v: Json)
    requires child.Obj?
    ensures Accepts(check, Parent(child), Holding(v)) <==> Accepts(check, child, v)
  {
    ParentParts(check, child, Holding(v));
    assert Prop(Declared(Parent(child)), "c") == child;
    assert Holding(v).fields[0] in Holding(v).fields;
  }

  lemma TreeFollows(lib: Library, check: TextCheck, n: nat, v: Json)
    ensures Follows(lib, check, n, TREE, TREE, Holding(v)) ==> (n > 0 ==> Follows(lib, check, n - 1, TREE, TREE, v))
    ensures !Follows(lib, check, n, TREE, TREE, Null)
  {
    ParentParts(check, TO_ROOT, Holding(v));
    ParentParts(check, TO_ROOT, Null);
    assert Prop(Declared(TREE), "c") == TO_ROOT;
    assert Holding(v).fields[0] in Holding(v).fields;
    assert Pointee(lib, TREE, "#") == Found(TREE) && LocalRef(TO_ROOT.fields) == Some("#");
    if Follows(lib, check, n, TREE, TREE, Holding(v)) && n > 0 {
      DeclaredIsSmaller(TREE, "c");
      assert FollowsObject(lib, check, n, TREE, TREE, Holding(v).fields);
      assert Follows(lib, check, n, TO_ROOT, TREE, Holding(v).fields[0].value);
      FollowOnce(lib, check, n, TO_ROOT, TREE, v);
    }
  }

  /** ... so the expansion accepts a grandchild that is no object, which the schema rejects. */
  lemma CutAcceptsMore(lib: Library, check: TextCheck)
    ensures Accepts(check, Parent(Parent(EmptyObj)), Holding(Holding(Null)))
    ensures !Follows(lib, check, 2, TREE, TREE, Holding(Holding(Null)))
  {
    EmptyAccepts(check, Null);
    ParentAccepts(check, EmptyObj, Null);
    ParentAccepts(check, Parent(EmptyObj), Holding(Null));
    TreeFollows(lib, check, 2, Holding(Null));
    TreeFollows(lib, check, 1, Null);
    TreeFollows(lib, check, 0, Null);
  }
}
