/**
 What equal hashes say about calls: schemas whose normalised texts are equal accept the same instances, but
 for the fields named `$comment` inside them, because the normalisers take such a parameter for a comment,
 and for dicts that an enum lists, because they normalise those as if they were schemas.
 */
module ContractMeaning {
  import opened Wrappers
  import opened Json
  import opened Schema
  import opened Renames
  import opened Findings
  import opened Acceptance
  import opened EventText
  import C = Canonical
  import D = Decoder
  import Normalize
  import Numbers
  import ToolText

  /** A JSON number was read as the Python number of the same value, or is none that text can hold. */
  ghost predicate Faithful(h: Hashing) {
    forall x: real :: h.number(x).NonFinite? || NumberIs(h.number(x), x)
  }

  predicate NumberIs(v: C.Value, x: real) {
    match v
    case Int(i) => i as real == x
    case Float(n) => Numbers.Val(n) == x
    case _ => false
  }

  predicate Portable(h: Hashing, j: Json) {
    C.Accepted(ToPython(h, j))
  }

  function Meant(h: Hashing, j: Json): D.Jv
    requires Portable(h, j)
  {
    D.Meaning(ToPython(h, j))
  }

  // ----- a reading that is faithful -----

  ghost predicate IsDecimal(x: real) {
    exists n: Numbers.Num :: Numbers.Normal(n) && Numbers.Val(n) == x
  }

  /** Safe integers as ints, other decimals as floats. */
  ghost function ReadNumber(x: real): C.Value {
    if x == x.Floor as real && -Numbers.SAFE <= x.Floor <= Numbers.SAFE then C.Int(x.Floor)
    else if IsDecimal(x) then
      var n: Numbers.Num :| Numbers.Normal(n) && Numbers.Val(n) == x;
      C.Float(n)
    else C.NonFinite
  }

  /** The hypothesis can be met, with every decimal portable. */
  lemma ReadingIsFaithful(h: Hashing)
    requires forall x: real :: h.number(x) == ReadNumber(x)
    ensures Faithful(h)
    ensures forall x: real | IsDecimal(x) :: Portable(h, Num(x))
  {
    forall x: real ensures h.number(x).NonFinite? || NumberIs(h.number(x), x) {
      assert h.number(x) == ReadNumber(x);
    }
    forall x: real | IsDecimal(x) ensures Portable(h, Num(x)) {
      assert ToPython(h, Num(x)) == ReadNumber(x);
    }
  }

  // ----- from JSON to its meaning -----

  lemma AsciiInjective(s: string, t: string)
    ensures Normalize.Ascii(s) == Normalize.Ascii(t) <==> s == t
  {
    if Normalize.Ascii(s) == Normalize.Ascii(t) {
      assert |s| == |t|;
      forall i | 0 <= i < |s| ensures s[i] == t[i] {
        assert Normalize.Ascii(s)[i] == Normalize.Ascii(t)[i];
      }
    }
  }

  lemma {:induction false} PythonIsProper(h: Hashing, j: Json)
    requires Faithful(h) && WellFormed(j)
    ensures C.Proper(ToPython(h, j))
    decreases j
  {
    match j
    case Num(n) => assert h.number(n).NonFinite? || NumberIs(h.number(n), n);
    case Arr(items) =>
      forall i | 0 <= i < |items| ensures C.Proper(ToPython(h, items[i])) {
        PythonIsProper(h, items[i]);
      }
    case Obj(fields) =>
      var members := ToMembers(h, fields);
      forall i | 0 <= i < |members| ensures C.Proper(members[i].value) {
        PythonIsProper(h, fields[i].value);
      }
      forall i, k | 0 <= i < k < |members| ensures members[i].key != members[k].key {
        AsciiInjective(fields[i].key, fields[k].key);
      }
    case _ =>
  }

  /** Looking a key up in the dict is looking it up in what it became. */
  lemma {:induction false} FindIsLookup(h: Hashing, fields: seq<Field>, k: string)
    ensures ToolText.Find(ToMembers(h, fields), Normalize.Ascii(k))
         == match Lookup(fields, k) case Some(v) => Some(ToPython(h, v)) case None => None
  {
    if fields != [] {
      var members := ToMembers(h, fields);
      AsciiInjective(fields[0].key, k);
      assert members[1..] == ToMembers(h, fields[1..]);
      FindIsLookup(h, fields[1..], k);
    }
  }

  lemma FieldMeant(h: Hashing, d: Json, k: string)
    requires Faithful(h) && d.Obj? && WellFormed(d) && Portable(h, d)
    ensures Has(d.fields, k) <==> Normalize.Ascii(k) in Meant(h, d).fields
    ensures Has(d.fields, k) ==>
      Portable(h, Get(d, k)) && WellFormed(Get(d, k)) && Meant(h, d).fields[Normalize.Ascii(k)] == Meant(h, Get(d, k))
  {
    var members := ToMembers(h, d.fields);
    PythonIsProper(h, d);
    assert ToPython(h, d) == C.Obj(members);
    assert ToolText.ProperMembers(members) && D.AcceptedMembers(members);
    FindIsLookup(h, d.fields, k);
    ToolText.FindMeans(members, Normalize.Ascii(k));
    if Has(d.fields, k) {
      assert Field(k, Lookup(d.fields, k).value) in d.fields;
    }
  }

  lemma ItemsMeant(h: Hashing, a: Json)
    requires a.Arr? && Portable(h, a)
    ensures Meant(h, a).JArr? && |Meant(h, a).items| == |a.items|
    ensures forall i | 0 <= i < |a.items| :: Portable(h, a.items[i]) && Meant(h, a).items[i] == Meant(h, a.items[i])
  {
    var items := ToPython(h, a).items;
    ToolText.MeaningAt(items);
    forall i | 0 <= i < |a.items| ensures Portable(h, a.items[i]) && Meant(h, a).items[i] == Meant(h, a.items[i]) {
      assert items[i] == ToPython(h, a.items[i]);
    }
  }

  lemma NumbersDiffer(h: Hashing, x: real, y: real)
    requires Faithful(h) && Portable(h, Num(x)) && Portable(h, Num(y)) && Meant(h, Num(x)) == Meant(h, Num(y))
    ensures x == y
  {
    assert NumberIs(h.number(x), x) && NumberIs(h.number(y), y);
    ValueMeant(h.number(x), x);
    ValueMeant(h.number(y), y);
  }

  lemma ValueMeant(v: C.Value, x: real)
    requires NumberIs(v, x) && C.Accepted(v)
    ensures D.Meaning(v).JNum? && Numbers.Val(D.Meaning(v).n) == x
  {
    if v.Int? {
      Numbers.IntIsItsNumber(v.i);
    }
  }

  // ----- fields of the same contract -----

  predicate Scalar(j: Json) {
    !j.Arr? && !j.Obj?
  }

  lemma SameScalar(h: Hashing, u: Json, v: Json)
    requires Faithful(h) && Portable(h, u) && Portable(h, v) && Scalar(u)
    requires Normalize.SameContract(Meant(h, u), Meant(h, v))
    ensures u == v
  {
    KindMeant(h, u);
    KindMeant(h, v);
    if u.Num? {
      NumbersDiffer(h, u.n, v.n);
    }
    if u.Str? {
      AsciiInjective(u.s, v.s);
    }
  }

  lemma KindMeant(h: Hashing, u: Json)
    requires Faithful(h) && Portable(h, u)
    ensures var m := Meant(h, u);
      && (m.JNull? <==> u.Null?) && (m.JBool? <==> u.Bool?) && (m.JNum? <==> u.Num?)
      && (m.JStr? <==> u.Str?) && (m.JArr? <==> u.Arr?) && (m.JObj? <==> u.Obj?)
  {
    if u.Num? {
      assert NumberIs(h.number(u.n), u.n);
    }
  }

  /** No dict at any depth. */
  predicate Flat(j: Json) {
    match j
    case Arr(items) => forall i | 0 <= i < |items| :: Flat(items[i])
    case Obj(_) => false
    case _ => true
  }

  /** What holds no dict is kept as it is. */
  lemma {:induction false} SameFlat(h: Hashing, u: Json, v: Json)
    requires Faithful(h) && Portable(h, u) && Portable(h, v) && Flat(u)
    requires Normalize.SameContract(Meant(h, u), Meant(h, v))
    ensures u == v
    decreases u
  {
    if u.Arr? {
      KindMeant(h, u);
      KindMeant(h, v);
      ItemsMeant(h, u);
      ItemsMeant(h, v);
      forall i | 0 <= i < |u.items| ensures u.items[i] == v.items[i] {
        SameFlat(h, u.items[i], v.items[i]);
      }
      assert u.items == v.items;
    } else {
      SameScalar(h, u, v);
    }
  }

  /** For values without dicts, JSON equality is plain equality. */
  lemma {:induction false} FlatIsItself(u: Json, x: Json)
    requires Flat(u) || Flat(x)
    ensures SameJson(u, x) <==> u == x
    decreases u
  {
    if u.Arr? && x.Arr? && |u.items| == |x.items| {
      forall i | 0 <= i < |u.items| ensures SameJson(u.items[i], x.items[i]) <==> u.items[i] == x.items[i] {
        FlatIsItself(u.items[i], x.items[i]);
      }
      assert u == x <==> forall i | 0 <= i < |u.items| :: u.items[i] == x.items[i];
    }
  }

  /** The schemas are dicts of one contract. */
  ghost predicate Alike(h: Hashing, a: Json, b: Json) {
    && Faithful(h) && a.Obj? && b.Obj? && WellFormed(a) && WellFormed(b) && Portable(h, a) && Portable(h, b)
    && Normalize.SameContract(Meant(h, a), Meant(h, b))
  }

  lemma SameField(h: Hashing, a: Json, b: Json, k: string)
    requires Alike(h, a, b) && k != "$comment"
    ensures Has(a.fields, k) <==> Has(b.fields, k)
    ensures Has(a.fields, k) ==>
      var u, v := Get(a, k), Get(b, k);
      && Portable(h, u) && Portable(h, v) && WellFormed(u) && WellFormed(v)
      && if k == "required" && Normalize.IsStringList(Meant(h, u)) && Normalize.IsStringList(Meant(h, v))
         then Normalize.SameStrings(Meant(h, u), Meant(h, v))
         else Normalize.SameContract(Meant(h, u), Meant(h, v))
  {
    KindMeant(h, a);
    KindMeant(h, b);
    FieldMeant(h, a, k);
    FieldMeant(h, b, k);
    AsciiInjective(k, "$comment");
    AsciiInjective(k, "required");
    var f, g := Meant(h, a).fields, Meant(h, b).fields;
    assert f.Keys - {Normalize.COMMENT} == g.Keys - {Normalize.COMMENT};
    assert Normalize.Ascii(k) in f.Keys - {Normalize.COMMENT} <==> Normalize.Ascii(k) in g.Keys - {Normalize.COMMENT};
  }

  /** A keyword whose value holds no dict and that is not `required`. */
  lemma SamePlain(h: Hashing, a: Json, b: Json, k: string)
    requires Alike(h, a, b) && k != "$comment" && k != "required"
    requires Has(a.fields, k) ==> Flat(Get(a, k))
    ensures Has(a.fields, k) == Has(b.fields, k) && Get(a, k) == Get(b, k)
  {
    SameField(h, a, b, k);
    if Has(a.fields, k) {
      SameFlat(h, Get(a, k), Get(b, k));
    }
  }

  // ----- one node -----

  lemma SameType(h: Hashing, check: TextCheck, a: Json, b: Json, x: Json)
    requires Alike(h, a, b) && Fragment(a)
    ensures TypeAccepts(a, x) == TypeAccepts(b, x)
  {
    if Stated(a) && Get(a, "type").Arr? {
      forall i | 0 <= i < |Get(a, "type").items| ensures Flat(Get(a, "type").items[i]) {
        assert Get(a, "type").items[i] in Get(a, "type").items;
      }
    }
    SamePlain(h, a, b, "type");
    if Stated(a) {
      assert TypeSet(a) == TypeSet(b);
    }
  }

  const CONSTRAINTS := UPPER_BOUNDS + LOWER_BOUNDS + TEXT_KEYS

  lemma SameConstraint(h: Hashing, a: Json, b: Json, k: string)
    requires Alike(h, a, b) && Fragment(a) && k in CONSTRAINTS
    ensures Get(a, k) == Get(b, k)
  {
    assert k in UPPER_BOUNDS + LOWER_BOUNDS || k in TEXT_KEYS;
    SamePlain(h, a, b, k);
  }

  lemma ConstraintsByKeyword(check: TextCheck, a: Json, b: Json, x: Json)
    requires a.Obj? && b.Obj? && forall k | k in CONSTRAINTS :: Get(a, k) == Get(b, k)
    ensures ConstraintsAccept(check, a, x) == ConstraintsAccept(check, b, x)
  {
    forall k | k in ["maximum", "exclusiveMaximum", "minimum", "exclusiveMinimum"] || k in ["maxLength", "minLength"]
      ensures Get(a, k) == Get(b, k)
    {
      assert k in CONSTRAINTS;
    }
    forall k | k in TEXT_KEYS ensures Get(a, k) == Get(b, k) {
      assert k in CONSTRAINTS;
    }
  }

  lemma SameConstraints(h: Hashing, check: TextCheck, a: Json, b: Json, x: Json)
    requires Alike(h, a, b) && Fragment(a)
    ensures ConstraintsAccept(check, a, x) == ConstraintsAccept(check, b, x)
  {
    forall k | k in CONSTRAINTS ensures Get(a, k) == Get(b, k) {
      SameConstraint(h, a, b, k);
    }
    ConstraintsByKeyword(check, a, b, x);
  }

  /** The enum values of the two schemas, in order. */
  lemma EnumsAlike(h: Hashing, a: Json, b: Json)
    requires Alike(h, a, b) && Fragment(a) && Fragment(b)
    ensures Get(a, "enum").Arr? <==> Get(b, "enum").Arr?
    ensures Get(a, "enum").Arr? ==>
      var vs, ws := Get(a, "enum").items, Get(b, "enum").items;
      |vs| == |ws| && forall i | 0 <= i < |vs| :: Flat(vs[i]) ==> vs[i] == ws[i]
  {
    SameField(h, a, b, "enum");
    if Has(a.fields, "enum") {
      var u, v := Get(a, "enum"), Get(b, "enum");
      KindMeant(h, u);
      KindMeant(h, v);
      ItemsMeant(h, u);
      ItemsMeant(h, v);
      forall i | 0 <= i < |u.items| && Flat(u.items[i]) ensures u.items[i] == v.items[i] {
        SameFlat(h, u.items[i], v.items[i]);
      }
    }
  }

  /** The enum of the schema lists no value that holds a dict. */
  predicate FlatEnum(schema: Json)
    requires schema.Obj?
  {
    Get(schema, "enum").Arr? ==> forall i | 0 <= i < |Get(schema, "enum").items| :: Flat(Get(schema, "enum").items[i])
  }

  lemma SameEnum(h: Hashing, a: Json, b: Json, x: Json)
    requires Alike(h, a, b) && Fragment(a) && Fragment(b) && EnumAccepts(a, x) && (Flat(x) || FlatEnum(a))
    ensures EnumAccepts(b, x)
  {
    EnumsAlike(h, a, b);
    if Get(a, "enum").Arr? {
      var vs, ws := Get(a, "enum").items, Get(b, "enum").items;
      var i :| 0 <= i < |vs| && SameJson(vs[i], x);
      FlatIsItself(vs[i], x);
      assert SameJson(ws[i], x);
    }
  }

  lemma SameScalarAcceptance(h: Hashing, check: TextCheck, a: Json, b: Json, x: Json)
    requires Alike(h, a, b) && Fragment(a) && Fragment(b) && ScalarAccepts(check, a, x)
    ensures ScalarAccepts(check, b, x) <==> (!Flat(x) ==> EnumAccepts(b, x))
  {
    SameType(h, check, a, b, x);
    SameConstraints(h, check, a, b, x);
    if Flat(x) {
      SameEnum(h, a, b, x);
    }
  }

  lemma StringItems(h: Hashing, u: Json)
    requires Faithful(h) && u.Arr? && Portable(h, u) && forall v | v in u.items :: v.Str?
    ensures Normalize.IsStringList(Meant(h, u))
    ensures forall s: string ::
      s in StringsOf(u.items) <==> Normalize.Ascii(s) in Normalize.JStringsOf(Meant(h, u).items)
  {
    ItemsMeant(h, u);
    var meant := Meant(h, u).items;
    forall i | 0 <= i < |u.items| ensures u.items[i].Str? && meant[i] == D.JStr(Normalize.Ascii(u.items[i].s)) {
      assert u.items[i] in u.items;
    }
    var texts := Normalize.JStringsOf(meant);
    forall s: string ensures s in StringsOf(u.items) <==> Normalize.Ascii(s) in texts {
      if s in StringsOf(u.items) {
        var i :| 0 <= i < |u.items| && u.items[i].Str? && u.items[i].s == s;
        assert texts[i] == Normalize.Ascii(s);
      }
      if Normalize.Ascii(s) in texts {
        var i :| 0 <= i < |texts| && texts[i] == Normalize.Ascii(s);
        AsciiInjective(u.items[i].s, s);
        assert u.items[i].s in StringsOf(u.items);
      }
    }
  }

  lemma SameRequired(h: Hashing, a: Json, b: Json)
    requires Alike(h, a, b) && Fragment(a) && Fragment(b)
    ensures RequiredNames(a) == RequiredNames(b)
  {
    SameField(h, a, b, "required");
    if Has(a.fields, "required") {
      var u, v := Get(a, "required"), Get(b, "required");
      StringItems(h, u);
      StringItems(h, v);
      forall s: string ensures s in StringsOf(u.items) <==> s in StringsOf(v.items) {
        var t := Normalize.Ascii(s);
        assert t in Normalize.StringSet(Normalize.JStringsOf(Meant(h, u).items))
          <==> t in Normalize.StringSet(Normalize.JStringsOf(Meant(h, v).items));
      }
    }
  }

  // ----- fields of objects -----

  lemma SchemaIsNoList(h: Hashing, u: Json)
    requires Faithful(h) && u.Obj? && Portable(h, u)
    ensures !Normalize.IsStringList(Meant(h, u))
  {
    KindMeant(h, u);
  }

  lemma SubField(h: Hashing, a: Json, b: Json, k: string)
    requires Alike(h, a, b) && k != "$comment"
    requires Has(a.fields, k) ==> Get(a, k).Obj?
    requires Has(b.fields, k) ==> Get(b, k).Obj?
    ensures Has(a.fields, k) == Has(b.fields, k)
    ensures Has(a.fields, k) ==> Alike(h, Get(a, k), Get(b, k))
  {
    SameField(h, a, b, k);
    if Has(a.fields, k) {
      SchemaIsNoList(h, Get(a, k));
      SchemaIsNoList(h, Get(b, k));
    }
  }

  lemma SameProperty(h: Hashing, a: Json, b: Json, n: string)
    requires Alike(h, a, b) && Fragment(a) && Fragment(b) && n != "$comment"
    ensures Has(Declared(a), n) == Has(Declared(b), n)
    ensures Has(Declared(a), n) ==> Alike(h, Prop(Declared(a), n), Prop(Declared(b), n))
  {
    SubField(h, a, b, "properties");
    if Has(a.fields, "properties") {
      var u, v := Get(a, "properties"), Get(b, "properties");
      if Has(Declared(a), n) {
        FragmentProp(a, n);
      }
      if Has(Declared(b), n) {
        FragmentProp(b, n);
      }
      SubField(h, u, v, n);
    }
  }

  lemma SameExtra(h: Hashing, a: Json, b: Json)
    requires Alike(h, a, b) && Fragment(a)
    ensures AllowsExtra(a) == AllowsExtra(b)
  {
    SamePlain(h, a, b, "additionalProperties");
  }

  /** What the schema says of one field of an object. */
  ghost predicate FieldAccepts(check: TextCheck, schema: Json, f: Field)
    requires schema.Obj?
  {
    if Has(Declared(schema), f.key) then Accepts(check, Prop(Declared(schema), f.key), f.value) else AllowsExtra(schema)
  }

  /** The schema accepts what its normal form forgets: every `$comment` field inside the instance, and
      every value that holds a dict where an enum lists the values. */
  ghost predicate ForgottenAccepted(check: TextCheck, schema: Json, x: Json)
    requires schema.Obj?
    decreases Size(schema), 1
  {
    && (!Flat(x) ==> EnumAccepts(schema, x))
    && (x.Obj? ==> forall f | f in x.fields :: ForgottenInField(check, schema, f))
    && (x.Arr? ==> ForgottenInItems(check, schema, x.items))
  }

  ghost predicate ForgottenInField(check: TextCheck, schema: Json, f: Field)
    requires schema.Obj?
    decreases Size(schema), 0
  {
    if f.key == "$comment" then FieldAccepts(check, schema, f)
    else if Has(Declared(schema), f.key) then
      DeclaredIsSmaller(schema, f.key);
      ForgottenAccepted(check, Prop(Declared(schema), f.key), f.value)
    else true
  }

  ghost predicate ForgottenInItems(check: TextCheck, schema: Json, items: seq<Json>)
    requires schema.Obj?
    decreases Size(schema), 0
  {
    if Get(schema, "items").Obj? then
      GetIsSmaller(schema, "items");
      forall i | 0 <= i < |items| :: ForgottenAccepted(check, Get(schema, "items"), items[i])
    else true
  }

  lemma ObjectByFields(check: TextCheck, schema: Json, fields: seq<Field>)
    requires schema.Obj?
    ensures ObjectAccepts(check, schema, fields)
       <==> && (forall n | n in RequiredNames(schema) :: Has(fields, n))
            && (forall f | f in fields :: FieldAccepts(check, schema, f))
  {
  }

  // ----- schemas of one contract -----

  /** An instance that one schema accepts is accepted by another of the same contract exactly when the
      other accepts what the contract forgets of it. */
  lemma {:induction false} SameContractSameInstances(h: Hashing, check: TextCheck, a: Json, b: Json, x: Json)
    requires Alike(h, a, b) && Fragment(a) && Fragment(b) && Accepts(check, a, x)
    ensures Accepts(check, b, x) <==> ForgottenAccepted(check, b, x)
    decreases Size(a), 1
  {
    SameScalarAcceptance(h, check, a, b, x);
    if x.Obj? {
      SameObjects(h, check, a, b, x.fields);
    }
    if x.Arr? {
      SameLists(h, check, a, b, x.items);
    }
  }

  lemma {:induction false} SameObjects(h: Hashing, check: TextCheck, a: Json, b: Json, fields: seq<Field>)
    requires Alike(h, a, b) && Fragment(a) && Fragment(b) && ObjectAccepts(check, a, fields)
    ensures ObjectAccepts(check, b, fields) <==> forall f | f in fields :: ForgottenInField(check, b, f)
    decreases Size(a), 0, 1
  {
    SameRequired(h, a, b);
    ObjectByFields(check, a, fields);
    ObjectByFields(check, b, fields);
    forall f | f in fields ensures FieldAccepts(check, b, f) <==> ForgottenInField(check, b, f) {
      assert FieldAccepts(check, a, f);
      SameFieldAcceptance(h, check, a, b, f);
    }
  }

  lemma {:induction false} SameFieldAcceptance(h: Hashing, check: TextCheck, a: Json, b: Json, f: Field)
    requires Alike(h, a, b) && Fragment(a) && Fragment(b) && FieldAccepts(check, a, f)
    ensures FieldAccepts(check, b, f) <==> ForgottenInField(check, b, f)
    decreases Size(a), 0, 0
  {
    if f.key != "$comment" {
      SameExtra(h, a, b);
      SameProperty(h, a, b, f.key);
      if Has(Declared(a), f.key) {
        FragmentProp(a, f.key);
        FragmentProp(b, f.key);
        DeclaredIsSmaller(a, f.key);
        SameContractSameInstances(h, check, Prop(Declared(a), f.key), Prop(Declared(b), f.key), f.value);
      }
    }
  }

  lemma {:induction false} SameLists(h: Hashing, check: TextCheck, a: Json, b: Json, items: seq<Json>)
    requires Alike(h, a, b) && Fragment(a) && Fragment(b) && ItemsAccept(check, a, items)
    ensures ItemsAccept(check, b, items) <==> ForgottenInItems(check, b, items)
    decreases Size(a), 0, 1
  {
    FragmentItems(a);
    FragmentItems(b);
    SubField(h, a, b, "items");
    if Has(a.fields, "items") {
      GetIsSmaller(a, "items");
      forall i | 0 <= i < |items|
        ensures Accepts(check, Get(b, "items"), items[i]) <==> ForgottenAccepted(check, Get(b, "items"), items[i])
      {
        SameContractSameInstances(h, check, Get(a, "items"), Get(b, "items"), items[i]);
      }
    }
  }

  // ----- what a caller can check -----

  /** No object inside the instance has a `$comment` field. */
  predicate Plain(x: Json) {
    match x
    case Arr(items) => forall i | 0 <= i < |items| :: Plain(items[i])
    case Obj(fields) => forall i | 0 <= i < |fields| :: fields[i].key != "$comment" && Plain(fields[i].value)
    case _ => true
  }

  /** No schema inside declares a parameter named `$comment`. */
  ghost predicate NoCommentParameter(schema: Json)
    requires schema.Obj?
    decreases Size(schema)
  {
    && !Has(Declared(schema), "$comment")
    && (forall n | Has(Declared(schema), n) ::
          DeclaredIsSmaller(schema, n);
          NoCommentParameter(Prop(Declared(schema), n)))
    && (if Get(schema, "items").Obj? then
          GetIsSmaller(schema, "items");
          NoCommentParameter(Get(schema, "items"))
        else true)
  }

  /** No enum inside the schema lists a dict, or a list that holds one. */
  ghost predicate FlatEnums(schema: Json)
    requires schema.Obj?
    decreases Size(schema)
  {
    && FlatEnum(schema)
    && (forall n | Has(Declared(schema), n) ::
          DeclaredIsSmaller(schema, n);
          FlatEnums(Prop(Declared(schema), n)))
    && (if Get(schema, "items").Obj? then
          GetIsSmaller(schema, "items");
          FlatEnums(Get(schema, "items"))
        else true)
  }

  /** The call cannot tell: it has no `$comment` field, or neither schema declares one. */
  ghost predicate NoCommentAtStake(a: Json, b: Json, x: Json)
    requires a.Obj? && b.Obj?
  {
    Plain(x) || (NoCommentParameter(a) && NoCommentParameter(b))
  }

  lemma {:induction false} NothingForgotten(h: Hashing, check: TextCheck, a: Json, b: Json, x: Json)
    requires Alike(h, a, b) && Fragment(a) && Fragment(b) && FlatEnums(a) && Accepts(check, a, x)
    requires NoCommentAtStake(a, b, x)
    ensures ForgottenAccepted(check, b, x)
    decreases Size(a), 1
  {
    SameEnum(h, a, b, x);
    if x.Obj? {
      ObjectByFields(check, a, x.fields);
      forall f | f in x.fields ensures ForgottenInField(check, b, f) {
        assert FieldAccepts(check, a, f);
        PlainField(x, f);
        NothingForgottenInField(h, check, a, b, f);
      }
    }
    if x.Arr? {
      NothingForgottenInItems(h, check, a, b, x);
    }
  }

  lemma {:induction false} NothingForgottenInItems(h: Hashing, check: TextCheck, a: Json, b: Json, x: Json)
    requires Alike(h, a, b) && Fragment(a) && Fragment(b) && FlatEnums(a) && x.Arr? && ItemsAccept(check, a, x.items)
    requires NoCommentAtStake(a, b, x)
    ensures ForgottenInItems(check, b, x.items)
    decreases Size(a), 0
  {
    FragmentItems(a);
    FragmentItems(b);
    SubField(h, a, b, "items");
    if Get(b, "items").Obj? {
      GetIsSmaller(a, "items");
      forall i | 0 <= i < |x.items| ensures ForgottenAccepted(check, Get(b, "items"), x.items[i]) {
        NothingForgotten(h, check, Get(a, "items"), Get(b, "items"), x.items[i]);
      }
    }
  }

  lemma PlainField(x: Json, f: Field)
    requires x.Obj? && f in x.fields
    ensures Plain(x) ==> f.key != "$comment" && Plain(f.value)
  {
  }

  lemma {:induction false} NothingForgottenInField(h: Hashing, check: TextCheck, a: Json, b: Json, f: Field)
    requires Alike(h, a, b) && Fragment(a) && Fragment(b) && FlatEnums(a) && FieldAccepts(check, a, f)
    requires (f.key != "$comment" && Plain(f.value)) || (NoCommentParameter(a) && NoCommentParameter(b))
    ensures ForgottenInField(check, b, f)
    decreases Size(a), 0
  {
    SameExtra(h, a, b);
    if f.key != "$comment" {
      SameProperty(h, a, b, f.key);
      if Has(Declared(a), f.key) {
        FragmentProp(a, f.key);
        FragmentProp(b, f.key);
        DeclaredIsSmaller(a, f.key);
        NothingForgotten(h, check, Prop(Declared(a), f.key), Prop(Declared(b), f.key), f.value);
      }
    }
  }

  lemma AlikeIsSymmetric(h: Hashing, a: Json, b: Json)
    requires Alike(h, a, b)
    ensures Alike(h, b, a)
  {
    PythonIsProper(h, a);
    PythonIsProper(h, b);
    ToolText.SameTextIffSameContract(ToPython(h, a), ToPython(h, b));
    ToolText.SameTextIffSameContract(ToPython(h, b), ToPython(h, a));
  }

  /** The schemas have the same normalised text, which is what their hashes see. */
  ghost predicate SameText(h: Hashing, a: Json, b: Json) {
    && a.Obj? && b.Obj? && WellFormed(a) && WellFormed(b) && Portable(h, a) && Portable(h, b)
    && var u, v := ToolText.PyNormalize(ToPython(h, a)), ToolText.PyNormalize(ToPython(h, b));
       u.Some? && v.Some? && C.Print(u.value) == C.Print(v.value)
  }

  lemma SameTextIsAlike(h: Hashing, a: Json, b: Json)
    requires Faithful(h) && SameText(h, a, b)
    ensures Alike(h, a, b)
  {
    PythonIsProper(h, a);
    PythonIsProper(h, b);
    ToolText.SameTextIffSameContract(ToPython(h, a), ToPython(h, b));
  }

  /** Of two schemas with the same normalised text, what one accepts the other accepts too, exactly when
      it accepts the `$comment` fields inside, as a parameter of that name is taken for a comment, and
      lists the dicts inside where it has an enum. */
  lemma SameTextSameInstances(h: Hashing, check: TextCheck, a: Json, b: Json, x: Json)
    requires Faithful(h) && SameText(h, a, b) && Fragment(a) && Fragment(b) && Accepts(check, a, x)
    ensures Accepts(check, b, x) <==> ForgottenAccepted(check, b, x)
  {
    SameTextIsAlike(h, a, b);
    SameContractSameInstances(h, check, a, b, x);
  }

  /** So if their enums list no dicts they agree on every call whose objects carry no `$comment` field,
      whatever they declare, and on every call if neither declares a parameter of that name. */
  lemma SameTextSameCalls(h: Hashing, check: TextCheck, a: Json, b: Json, x: Json)
    requires Faithful(h) && SameText(h, a, b) && Fragment(a) && Fragment(b) && FlatEnums(a) && FlatEnums(b)
    requires Plain(x) || (NoCommentParameter(a) && NoCommentParameter(b))
    ensures Accepts(check, a, x) <==> Accepts(check, b, x)
  {
    SameTextIsAlike(h, a, b);
    AlikeIsSymmetric(h, a, b);
    if Accepts(check, a, x) {
      NothingForgotten(h, check, a, b, x);
      SameContractSameInstances(h, check, a, b, x);
    }
    if Accepts(check, b, x) {
      NothingForgotten(h, check, b, a, x);
      SameContractSameInstances(h, check, b, a, x);
    }
  }

  // ----- a parameter that is taken for a comment -----

  const CLOSED := Field("additionalProperties", Bool(false))
  const COMMENT_SCHEMAS := Obj([Field("$comment", EmptyObj)])
  const COMMENT_PARAMETER := Obj([Field("properties", COMMENT_SCHEMAS), CLOSED])
  const NO_PARAMETER := Obj([Field("properties", EmptyObj), CLOSED])
  const COMMENT_ARGUMENT := Obj([Field("$comment", Null)])

  lemma NoMembers(h: Hashing)
    ensures Portable(h, EmptyObj) && Meant(h, EmptyObj) == D.JObj(map[])
  {
    assert ToPython(h, EmptyObj) == C.Obj([]);
  }

  lemma OneMember(h: Hashing, f: Field)
    requires Portable(h, f.value)
    ensures Portable(h, Obj([f])) && Meant(h, Obj([f])) == D.JObj(map[Normalize.Ascii(f.key) := Meant(h, f.value)])
  {
    AsciiIsWellFormed(f.key);
    var m := C.Member(Normalize.Ascii(f.key), ToPython(h, f.value));
    assert ToPython(h, Obj([f])) == C.Obj([m]);
    var none: seq<C.Member> := [];
    assert [m][1..] == none;
    assert D.MeaningOfMembers([m]) == D.MeaningOfMembers(none)[m.key := D.Meaning(m.value)];
  }

  lemma TwoMembers(h: Hashing, f: Field, g: Field)
    requires Portable(h, f.value) && Portable(h, g.value) && f.key != g.key
    ensures Portable(h, Obj([f, g]))
    ensures Meant(h, Obj([f, g]))
         == D.JObj(map[Normalize.Ascii(f.key) := Meant(h, f.value), Normalize.Ascii(g.key) := Meant(h, g.value)])
  {
    OneMember(h, g);
    AsciiIsWellFormed(f.key);
    AsciiIsWellFormed(g.key);
    AsciiInjective(f.key, g.key);
    var m, n := C.Member(Normalize.Ascii(f.key), ToPython(h, f.value)),
      C.Member(Normalize.Ascii(g.key), ToPython(h, g.value));
    assert ToPython(h, Obj([f, g])) == C.Obj([m, n]);
    assert ToPython(h, Obj([g])) == C.Obj([n]);
    assert [m, n][1..] == [n];
    assert D.MeaningOfMembers([m, n]) == D.MeaningOfMembers([n])[m.key := D.Meaning(m.value)];
  }

  /** Two schemas that hash alike although only one of them accepts the argument `$comment`. */
  lemma CommentParameterIsForgotten(h: Hashing)
    ensures Portable(h, COMMENT_PARAMETER) && Portable(h, NO_PARAMETER)
    ensures Normalize.SameContract(Meant(h, COMMENT_PARAMETER), Meant(h, NO_PARAMETER))
  {
    NoMembers(h);
    OneMember(h, Field("$comment", EmptyObj));
    TwoMembers(h, Field("properties", COMMENT_SCHEMAS), CLOSED);
    TwoMembers(h, Field("properties", EmptyObj), CLOSED);
    AsciiInjective("properties", "$comment");
    AsciiInjective("properties", "required");
    AsciiInjective("additionalProperties", "required");
    var inner, none := Meant(h, COMMENT_SCHEMAS), Meant(h, EmptyObj);
    assert inner.fields.Keys - {Normalize.COMMENT} == none.fields.Keys - {Normalize.COMMENT};
    assert Normalize.SameContract(inner, none);
    var a, b := Meant(h, COMMENT_PARAMETER), Meant(h, NO_PARAMETER);
    assert a.fields.Keys == b.fields.Keys;
  }

  lemma CommentParameterMatters(check: TextCheck)
    ensures Accepts(check, COMMENT_PARAMETER, COMMENT_ARGUMENT) && !Accepts(check, NO_PARAMETER, COMMENT_ARGUMENT)
  {
    var f := Field("$comment", Null);
    assert COMMENT_ARGUMENT.fields == [f] && f in COMMENT_ARGUMENT.fields;
    assert Declared(COMMENT_PARAMETER) == [Field("$comment", EmptyObj)];
    assert Declared(NO_PARAMETER) == [];
    EmptyAccepts(check, Null);
    assert Accepts(check, Prop(Declared(COMMENT_PARAMETER), "$comment"), Null);
    assert AdditionalProperties(NO_PARAMETER) == Bool(false);
  }

  // ----- an enum value that is taken for a schema -----

  const COMMENT_VALUE := Obj([Field("$comment", Null)])
  const COMMENT_LISTED := Obj([Field("enum", Arr([COMMENT_VALUE]))])
  const EMPTY_LISTED := Obj([Field("enum", Arr([EmptyObj]))])

  lemma OneItem(h: Hashing, v: Json)
    requires Portable(h, v)
    ensures Portable(h, Arr([v])) && Meant(h, Arr([v])) == D.JArr([Meant(h, v)])
  {
    var items := [v];
    assert ToPython(h, Arr(items)) == C.Arr([ToPython(h, items[0])]);
    ItemsMeant(h, Arr(items));
    assert Meant(h, Arr(items)).items == [Meant(h, v)];
  }

  /** Two schemas that hash alike although each lists a value the other does not. */
  lemma CommentInEnumIsForgotten(h: Hashing)
    ensures Portable(h, COMMENT_LISTED) && Portable(h, EMPTY_LISTED)
    ensures Normalize.SameContract(Meant(h, COMMENT_LISTED), Meant(h, EMPTY_LISTED))
  {
    NoMembers(h);
    OneMember(h, Field("$comment", Null));
    OneItem(h, COMMENT_VALUE);
    OneItem(h, EmptyObj);
    OneMember(h, Field("enum", Arr([COMMENT_VALUE])));
    OneMember(h, Field("enum", Arr([EmptyObj])));
    AsciiInjective("enum", "$comment");
    AsciiInjective("enum", "required");
    var inner, none := Meant(h, COMMENT_VALUE), Meant(h, EmptyObj);
    assert inner.fields.Keys - {Normalize.COMMENT} == none.fields.Keys - {Normalize.COMMENT};
    assert Normalize.SameContract(inner, none);
    var a, b := Meant(h, COMMENT_LISTED), Meant(h, EMPTY_LISTED);
    assert a.fields.Keys == b.fields.Keys;
  }

  lemma CommentInEnumMatters(check: TextCheck)
    ensures Accepts(check, COMMENT_LISTED, COMMENT_VALUE) && !Accepts(check, EMPTY_LISTED, COMMENT_VALUE)
    ensures !Accepts(check, COMMENT_LISTED, EmptyObj) && Accepts(check, EMPTY_LISTED, EmptyObj)
  {
    var comments, empties := [COMMENT_VALUE], [EmptyObj];
    assert Get(COMMENT_LISTED, "enum") == Arr(comments) && Get(EMPTY_LISTED, "enum") == Arr(empties);
    assert SameJson(comments[0], COMMENT_VALUE) && !SameJson(empties[0], COMMENT_VALUE);
    assert SameJson(empties[0], EmptyObj) && !SameJson(comments[0], EmptyObj);
  }
}
