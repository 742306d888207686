/**
 What a report says, finding by finding, without mentioning the functions that make it: the pairs of
 nodes the comparison visits, and for each rule when it speaks at a pair, how severely and at which path.
 */
module Reported {
  import opened Wrappers
  import opened Json
  import opened Schema
  import opened Renames
  import opened Findings

  /** A pair of schema dicts and the pointer under which they are compared. */
  datatype Place = Place(pointer: string, before: Json, after: Json)

  // ----- the pairs that are compared -----

  /** Both sides have this dict-valued property. */
  predicate Common(before: Json, after: Json, name: string)
    requires before.Obj? && after.Obj?
  {
    && PropsOf(before).Some? && PropsOf(after).Some?
    && Has(PropsOf(before).value, name) && Has(PropsOf(after).value, name)
  }

  /** Either side looks like an object schema. */
  predicate ObjectLike(before: Json, after: Json)
    requires before.Obj? && after.Obj?
  {
    exists side | side in [before, after] :: "object" in TypeSet(side) || Has(side.fields, "properties")
  }

  /** Either side looks like an array schema, and either has a schema for its items. */
  predicate ArrayLike(before: Json, after: Json)
    requires before.Obj? && after.Obj?
  {
    && (exists side | side in [before, after] :: "array" in TypeSet(side) || Has(side.fields, "items"))
    && (exists side | side in [before, after] :: Get(side, "items").Obj?)
  }

  lemma CommonIsSmaller(before: Json, after: Json, name: string)
    requires before.Obj? && after.Obj? && Common(before, after, name)
    ensures Size(Prop(PropsOf(before).value, name)) + Size(Prop(PropsOf(after).value, name)) < Size(before)
      + Size(after)
  {
    PropsAreSmaller(before);
    PropsAreSmaller(after);
    PropIsSmaller(PropsOf(before).value, name);
    PropIsSmaller(PropsOf(after).value, name);
  }

  lemma ItemsAreSmaller(before: Json, after: Json)
    requires before.Obj? && after.Obj? && ArrayLike(before, after)
    ensures Size(Get(before, "items")) + Size(Get(after, "items")) < Size(before) + Size(after)
  {
    GetIsSmaller(before, "items");
    GetIsSmaller(after, "items");
  }

  /** The comparison of `before` with `after` under `pointer` gets to this pair. */
  ghost predicate Visits(pointer: string, before: Json, after: Json, place: Place)
    decreases Size(before) + Size(after)
  {
    var b, a := AsDict(before), AsDict(after);
    || place == Place(pointer, b, a)
    || (ObjectLike(b, a) &&
        exists name | Common(b, a, name) ::
          CommonIsSmaller(b, a, name);
          Visits(pointer + "/properties/" + name, Prop(PropsOf(b).value, name), Prop(PropsOf(a).value, name), place))
    || (ArrayLike(b, a) &&
        (ItemsAreSmaller(b, a);
         Visits(pointer + "/items", Get(b, "items"), Get(a, "items"), place)))
  }

  // ----- when a rule speaks -----

  /** The enum lists `v`: a list its items, a string its characters, a dict its keys. */
  predicate Lists(enum: Json, v: Json) {
    match enum
    case Arr(items) => v in items
    case Str(s) => v.Str? && exists i | 0 <= i < |s| :: v.s == [s[i]]
    case Obj(fields) => v.Str? && exists i | 0 <= i < |fields| :: v.s == fields[i].key
    case _ => false
  }

  /** A value as a member of a Python set: lists and dicts are replaced by their printed form. */
  function Printed(lib: Library, v: Json): Json {
    if v.Arr? || v.Obj? then Str(lib.repr(v)) else v
  }

  /** Some value of the first enum equals no value of the second, as Python compares them. */
  ghost predicate ListsMore(lib: Library, enum: Json, other: Json) {
    exists v | Lists(enum, v) :: forall w | Lists(other, w) :: !PyEq(Printed(lib, v), Printed(lib, w))
  }

  /** A numeric bound that is new, or that moved inward. */
  predicate Tighter(key: string, before: Json, after: Json)
    requires before.Obj? && after.Obj?
  {
    var b, a := Get(before, key), Get(after, key);
    && Numeric(a).Some?
    && (b.Null? || (Numeric(b).Some? &&
          if key in {"maximum", "maxLength", "exclusiveMaximum"} then Numeric(a).value < Numeric(b).value
          else Numeric(b).value < Numeric(a).value))
  }

  predicate TextChanged(key: string, before: Json, after: Json)
    requires before.Obj? && after.Obj?
  {
    Has(after.fields, key) && Get(after, key) != Null && !PyEq(Get(after, key), Get(before, key))
  }

  const BOUNDS := {"maximum", "maxLength", "exclusiveMaximum", "minimum", "minLength", "exclusiveMinimum"}

  predicate DefaultMoved(before: Json, after: Json)
    requires before.Obj? && after.Obj?
  {
    var b, a := Lookup(before.fields, "default"), Lookup(after.fields, "default");
    b.Some? != a.Some? || (b.Some? && !PyEq(a.value, b.value))
  }

  /** Extra fields were allowed, by default, by true or by a schema, and are now refused. */
  predicate ExtraRefused(before: Json, after: Json)
    requires before.Obj? && after.Obj?
  {
    && Lookup(after.fields, "additionalProperties") == Some(Bool(false))
    && match Lookup(before.fields, "additionalProperties")
       case None => true
       case Some(v) => v == Bool(true) || v.Obj?
  }

  /** The types the new schema accepts include the old ones: more of them, or numbers for integers. */
  predicate Widened(before: Json, after: Json)
    requires before.Obj? && after.Obj?
  {
    TypeSet(before) < TypeSet(after) || (TypeSet(before) == {"integer"} && TypeSet(after) == {"number"})
  }

  /** A parameter was taken for a renamed one. */
  predicate Renamed(lib: Library, before: seq<Field>, after: seq<Field>, oldName: string, newName: string) {
    exists c | c in MatchingOf(lib, NamesNotIn(before, after), NamesNotIn(after, before), before, after).pairs ::
      c.oldName == oldName && c.newName == newName
  }

  /** Both schemas can be read as object schemas, and are compared as such. */
  predicate ReadAsObjects(before: Json, after: Json)
    requires before.Obj? && after.Obj?
  {
    && ObjectLike(before, after) && PropsOf(before).Some? && PropsOf(after).Some?
    && RequiredOf(before).Some? && RequiredOf(after).Some?
  }

  /** What the property rules say about a name; None for a rule that is not about names. */
  ghost predicate NameSpeaks(lib: Library, before: Json, after: Json, rule: Rule, name: string)
    requires before.Obj? && after.Obj?
  {
    && ReadAsObjects(before, after)
    && var bp, ap, br, ar := PropsOf(before).value, PropsOf(after).value, RequiredOf(before).value,
      RequiredOf(after).value;
       match rule
       case ParamRenamed => exists was :: Renamed(lib, bp, ap, was, name)
       case ParamRemoved => Has(bp, name) && !Has(ap, name) && forall is_ :: !Renamed(lib, bp, ap, name, is_)
       case ParamAddedRequired =>
         Has(ap, name) && !Has(bp, name) && name in ar && forall was :: !Renamed(lib, bp, ap, was, name)
       case ParamAddedOptional =>
         Has(ap, name) && !Has(bp, name) && name !in ar && forall was :: !Renamed(lib, bp, ap, was, name)
       case RequiredAdded => Has(bp, name) && Has(ap, name) && name !in br && name in ar
       case RequiredRemoved => Has(bp, name) && Has(ap, name) && name in br && name !in ar
       case _ => false
  }

  /** The finding is about this name. */
  ghost predicate NameTold(lib: Library, pointer: string, before: Json, after: Json, f: Finding, name: string)
    requires before.Obj? && after.Obj?
  {
    f.path == pointer + "/properties/" + name && NameSpeaks(lib, before, after, f.rule, name)
  }

  /** The rule speaks at the pair, with this severity and under this key of the node. */
  ghost predicate Speaks(lib: Library, place: Place, f: Finding)
    requires place.before.Obj? && place.after.Obj?
  {
    var p, b, a := place.pointer, place.before, place.after;
    match f.rule
    case TypeChanged =>
      f.path == p + "/type" && TypeSet(b) != TypeSet(a) && f.severity == (if Widened(b, a) then Warn else Breaking)
    case EnumValueRemoved =>
      f.path == p + "/enum" && f.severity == Breaking && ListsMore(lib, Get(b, "enum"), Get(a, "enum"))
    case EnumValueAdded =>
      f.path == p + "/enum" && f.severity == Info && ListsMore(lib, Get(a, "enum"), Get(b, "enum"))
    case ConstraintTightened =>
      && f.severity == Warn
      && ((exists key | key in BOUNDS :: f.path == p + "/" + key && Tighter(key, b, a))
          || (exists key | key in {"pattern", "format"} :: f.path == p + "/" + key && TextChanged(key, b, a)))
    case DefaultChanged => f.path == p + "/default" && f.severity == Warn && DefaultMoved(b, a)
    case AdditionalPropertiesRestricted =>
      f.path == p + "/additionalProperties" && f.severity == Breaking && ObjectLike(b, a) && ExtraRefused(b, a)
    case AnnotationChanged => false
    case _ =>
      && f.severity == (if f.rule in {ParamAddedOptional, RequiredRemoved} then Info else Breaking)
      && exists name :: NameTold(lib, p, b, a, f, name)
  }

  /** The comparison of `before` with `after` reports this finding. */
  ghost predicate Reported(lib: Library, pointer: string, before: Json, after: Json, f: Finding) {
    exists place: Place :: Visits(pointer, before, after, place) && Told(lib, place, f)
  }

  ghost predicate Told(lib: Library, place: Place, f: Finding) {
    place.before.Obj? && place.after.Obj? && Speaks(lib, place, f)
  }

  /** ... at the pair of properties under this name, or at the pair of item schemas. */
  ghost predicate ReportedInside(lib: Library, pointer: string, b: Json, a: Json, name: string, f: Finding)
    requires b.Obj? && a.Obj? && Common(b, a, name)
  {
    Reported(lib, pointer + "/properties/" + name, Prop(PropsOf(b).value, name), Prop(PropsOf(a).value, name), f)
  }

  ghost predicate ReportedInItems(lib: Library, pointer: string, b: Json, a: Json, f: Finding)
    requires b.Obj? && a.Obj?
  {
    Reported(lib, pointer + "/items", Get(b, "items"), Get(a, "items"), f)
  }

  lemma InsideIsReported(lib: Library, pointer: string, b: Json, a: Json, name: string, f: Finding)
    requires b.Obj? && a.Obj? && ObjectLike(b, a) && Common(b, a, name) && ReportedInside(lib, pointer, b, a, name, f)
    ensures Reported(lib, pointer, b, a, f)
  {
    var place: Place :| Visits(pointer + "/properties/" + name, Prop(PropsOf(b).value, name),
                               Prop(PropsOf(a).value, name), place) && Told(lib, place, f);
    CommonIsSmaller(b, a, name);
    assert Visits(pointer, b, a, place);
  }

  lemma InItemsIsReported(lib: Library, pointer: string, b: Json, a: Json, f: Finding)
    requires b.Obj? && a.Obj? && ArrayLike(b, a) && ReportedInItems(lib, pointer, b, a, f)
    ensures Reported(lib, pointer, b, a, f)
  {
    var place: Place :| Visits(pointer + "/items", Get(b, "items"), Get(a, "items"), place) && Told(lib, place, f);
    ItemsAreSmaller(b, a);
    assert Visits(pointer, b, a, place);
  }

  lemma ReportedSomewhere(lib: Library, pointer: string, b: Json, a: Json, f: Finding)
    requires b.Obj? && a.Obj? && Reported(lib, pointer, b, a, f)
    ensures || Speaks(lib, Place(pointer, b, a), f)
            || (ObjectLike(b, a) && exists name | Common(b, a, name) :: ReportedInside(lib, pointer, b, a, name, f))
            || (ArrayLike(b, a) && ReportedInItems(lib, pointer, b, a, f))
  {
    var place: Place :| Visits(pointer, b, a, place) && Told(lib, place, f);
    if place != Place(pointer, b, a) {
      if ArrayLike(b, a) && (ItemsAreSmaller(b, a); Visits(pointer + "/items", Get(b, "items"), Get(a, "items"),
                                                           place)) {
        assert ReportedInItems(lib, pointer, b, a, f);
      } else {
        var name :| Common(b, a, name) &&
          (CommonIsSmaller(b, a, name);
           Visits(pointer + "/properties/" + name, Prop(PropsOf(b).value, name), Prop(PropsOf(a).value, name), place));
        assert ReportedInside(lib, pointer, b, a, name, f);
      }
    }
  }

  /** A node reports what the rules say of it, and what its compared properties and items report. */
  lemma ReportedUnfolds(lib: Library, pointer: string, b: Json, a: Json, f: Finding)
    requires b.Obj? && a.Obj?
    ensures Reported(lib, pointer, b, a, f) <==>
      || Speaks(lib, Place(pointer, b, a), f)
      || (ObjectLike(b, a) && exists name | Common(b, a, name) :: ReportedInside(lib, pointer, b, a, name, f))
      || (ArrayLike(b, a) && ReportedInItems(lib, pointer, b, a, f))
  {
    if Reported(lib, pointer, b, a, f) {
      ReportedSomewhere(lib, pointer, b, a, f);
    }
    if Speaks(lib, Place(pointer, b, a), f) {
      assert Visits(pointer, b, a, Place(pointer, b, a)) && Told(lib, Place(pointer, b, a), f);
    }
    if ObjectLike(b, a) {
      forall name | Common(b, a, name) && ReportedInside(lib, pointer, b, a, name, f)
        ensures Reported(lib, pointer, b, a, f)
      {
        InsideIsReported(lib, pointer, b, a, name, f);
      }
    }
    if ArrayLike(b, a) && ReportedInItems(lib, pointer, b, a, f) {
      InItemsIsReported(lib, pointer, b, a, f);
    }
  }

  // ----- rule by rule -----

  predicate IsScalarRule(rule: Rule) {
    rule in {TypeChanged, EnumValueRemoved, EnumValueAdded, ConstraintTightened, DefaultChanged}
  }

  lemma TypeTold(lib: Library, pointer: string, before: Json, after: Json, f: Finding)
    requires before.Obj? && after.Obj?
    ensures f in TypeFindings(pointer, before, after)
       <==> f.rule == TypeChanged && Speaks(lib, Place(pointer, before, after), f)
  {
  }

  /** Values share a key exactly when Python calls their printed forms equal. */
  lemma SameKey(lib: Library, v: Json, w: Json)
    ensures Hashable(lib, v) == Hashable(lib, w) <==> PyEq(Printed(lib, v), Printed(lib, w))
  {
  }

  lemma KeysAreListed(lib: Library, enum: Json, key: HashKey)
    requires EnumKeys(lib, enum).Some?
    ensures key in EnumKeys(lib, enum).value <==> exists v :: Lists(enum, v) && Hashable(lib, v) == key
  {
    match enum
    case Arr(items) =>
      if key in EnumKeys(lib, enum).value {
        var i :| 0 <= i < |items| && Hashable(lib, items[i]) == key;
        assert Lists(enum, items[i]);
      }
    case Str(s) =>
      if key in EnumKeys(lib, enum).value {
        var i :| 0 <= i < |s| && StrKey([s[i]]) == key;
        assert Lists(enum, Str([s[i]])) && Hashable(lib, Str([s[i]])) == key;
      }
    case Obj(fields) =>
      if key in EnumKeys(lib, enum).value {
        var i :| 0 <= i < |fields| && StrKey(fields[i].key) == key;
        assert Lists(enum, Str(fields[i].key)) && Hashable(lib, Str(fields[i].key)) == key;
      }
    case _ =>
  }

  lemma ListsMoreIsDifference(lib: Library, enum: Json, other: Json)
    requires EnumKeys(lib, enum).Some? && EnumKeys(lib, other).Some?
    ensures ListsMore(lib, enum, other) <==> EnumKeys(lib, enum).value - EnumKeys(lib, other).value != {}
  {
    var ks, os := EnumKeys(lib, enum).value, EnumKeys(lib, other).value;
    if ListsMore(lib, enum, other) {
      var v :| Lists(enum, v) && forall w | Lists(other, w) :: !PyEq(Printed(lib, v), Printed(lib, w));
      KeysAreListed(lib, enum, Hashable(lib, v));
      KeysAreListed(lib, other, Hashable(lib, v));
      if Hashable(lib, v) in os {
        var w :| Lists(other, w) && Hashable(lib, w) == Hashable(lib, v);
        SameKey(lib, v, w);
      }
      assert Hashable(lib, v) in ks - os;
    }
    if ks - os != {} {
      var key :| key in ks - os;
      KeysAreListed(lib, enum, key);
      KeysAreListed(lib, other, key);
      var v :| Lists(enum, v) && Hashable(lib, v) == key;
      forall w | Lists(other, w) ensures !PyEq(Printed(lib, v), Printed(lib, w)) {
        SameKey(lib, v, w);
      }
    }
  }

  lemma EnumTold(lib: Library, pointer: string, before: Json, after: Json, f: Finding)
    requires before.Obj? && after.Obj? && EnumFindings(lib, pointer, before, after).Some?
    ensures f in EnumFindings(lib, pointer, before, after).value
       <==> f.rule in {EnumValueRemoved, EnumValueAdded} && Speaks(lib, Place(pointer, before, after), f)
  {
    var b, a := Get(before, "enum"), Get(after, "enum");
    ListsMoreIsDifference(lib, b, a);
    ListsMoreIsDifference(lib, a, b);
  }

  lemma BoundTold(pointer: string, key: string, upper: bool, before: Json, after: Json, f: Finding)
    requires before.Obj? && after.Obj? && BoundFindings(pointer, key, upper, before, after).Some?
    requires upper == (key in {"maximum", "maxLength", "exclusiveMaximum"})
    ensures f in BoundFindings(pointer, key, upper, before, after).value
       <==> f == Finding(Warn, ConstraintTightened, pointer + "/" + key) && Tighter(key, before, after)
  {
  }

  lemma {:induction false} BoundsTold(pointer: string, keys: seq<string>, upper: bool, before: Json, after: Json,
                                      f: Finding)
    requires before.Obj? && after.Obj? && AllBoundFindings(pointer, keys, upper, before, after).Some?
    requires forall key | key in keys :: upper == (key in {"maximum", "maxLength", "exclusiveMaximum"})
    ensures f in AllBoundFindings(pointer, keys, upper, before, after).value
       <==> exists key | key in keys :: f == Finding(Warn, ConstraintTightened, pointer + "/" + key)
                                        && Tighter(key, before, after)
  {
    if keys != [] {
      assert keys[0] in keys && forall key | key in keys[1..] :: key in keys;
      BoundTold(pointer, keys[0], upper, before, after, f);
      BoundsTold(pointer, keys[1..], upper, before, after, f);
      assert keys == [keys[0]] + keys[1..];
    }
  }

  lemma {:induction false} TextsTold(pointer: string, keys: seq<string>, before: Json, after: Json, f: Finding)
    requires before.Obj? && after.Obj?
    ensures f in TextFindings(pointer, keys, before, after)
       <==> exists key | key in keys :: f == Finding(Warn, ConstraintTightened, pointer + "/" + key)
                                        && TextChanged(key, before, after)
  {
    if keys != [] {
      TextsTold(pointer, keys[1..], before, after, f);
      assert keys == [keys[0]] + keys[1..];
    }
  }

  /** Some bound rule speaks of one of the keys. */
  predicate BoundSpeaks(keys: seq<string>, pointer: string, before: Json, after: Json, f: Finding)
    requires before.Obj? && after.Obj?
  {
    exists key | key in keys :: f == Finding(Warn, ConstraintTightened, pointer + "/" + key)
      && Tighter(key, before, after)
  }

  lemma BoundsSpeak(pointer: string, before: Json, after: Json, f: Finding)
    requires before.Obj? && after.Obj? && f.rule == ConstraintTightened && f.severity == Warn
    ensures (exists key | key in BOUNDS :: f.path == pointer + "/" + key && Tighter(key, before, after))
       <==> BoundSpeaks(UPPER_BOUNDS, pointer, before, after, f) || BoundSpeaks(LOWER_BOUNDS, pointer, before, after, f)
  {
    assert forall key :: key in BOUNDS <==> key in UPPER_BOUNDS || key in LOWER_BOUNDS;
  }

  lemma TextSpeaks(pointer: string, before: Json, after: Json, f: Finding)
    requires before.Obj? && after.Obj? && f.rule == ConstraintTightened && f.severity == Warn
    ensures (exists key | key in {"pattern", "format"} ::
              f.path == pointer + "/" + key && TextChanged(key, before, after))
       <==> f in TextFindings(pointer, TEXT_KEYS, before, after)
  {
    TextsTold(pointer, TEXT_KEYS, before, after, f);
    assert forall key :: key in {"pattern", "format"} <==> key in TEXT_KEYS;
  }

  /** Every finding of the bounds, pattern and format is a WARN of the one rule. */
  lemma ConstraintsAreWarnings(pointer: string, before: Json, after: Json, f: Finding)
    requires before.Obj? && after.Obj? && ConstraintFindings(pointer, before, after).Some?
    ensures f in ConstraintFindings(pointer, before, after).value
       <==> || BoundSpeaks(UPPER_BOUNDS, pointer, before, after, f)
            || BoundSpeaks(LOWER_BOUNDS, pointer, before, after, f)
            || f in TextFindings(pointer, TEXT_KEYS, before, after)
    ensures f in TextFindings(pointer, TEXT_KEYS, before, after) ==> f.rule == ConstraintTightened && f.severity == Warn
  {
    BoundsTold(pointer, UPPER_BOUNDS, true, before, after, f);
    BoundsTold(pointer, LOWER_BOUNDS, false, before, after, f);
    TextsTold(pointer, TEXT_KEYS, before, after, f);
  }

  lemma ConstraintTold(lib: Library, pointer: string, before: Json, after: Json, f: Finding)
    requires before.Obj? && after.Obj? && ConstraintFindings(pointer, before, after).Some?
    ensures f in ConstraintFindings(pointer, before, after).value
       <==> f.rule == ConstraintTightened && Speaks(lib, Place(pointer, before, after), f)
  {
    ConstraintsAreWarnings(pointer, before, after, f);
    if f.rule == ConstraintTightened && f.severity == Warn {
      BoundsSpeak(pointer, before, after, f);
      TextSpeaks(pointer, before, after, f);
    }
  }

  lemma DefaultTold(lib: Library, pointer: string, before: Json, after: Json, f: Finding)
    requires before.Obj? && after.Obj?
    ensures f in DefaultFindings(pointer, before, after)
       <==> f.rule == DefaultChanged && Speaks(lib, Place(pointer, before, after), f)
  {
  }

  lemma LikeByCases(before: Json, after: Json)
    requires before.Obj? && after.Obj?
    ensures ObjectLike(before, after) == ComparesProperties(before, after)
    ensures ArrayLike(before, after) == ComparesItems(before, after)
  {
    assert before in [before, after] && after in [before, after];
  }

  lemma AdditionalTold(lib: Library, pointer: string, before: Json, after: Json, f: Finding)
    requires before.Obj? && after.Obj? && ObjectLike(before, after)
    ensures f in AdditionalFindings(pointer, before, after)
       <==> f.rule == AdditionalPropertiesRestricted && Speaks(lib, Place(pointer, before, after), f)
  {
  }

  // ----- names -----

  lemma {:induction false} RenamedTold(pointer: string, pairs: seq<Candidate>, f: Finding)
    ensures f in RenamedFindings(pointer, pairs)
       <==> exists c | c in pairs :: f == Finding(Breaking, ParamRenamed, pointer + "/properties/" + c.newName)
  {
    if pairs != [] {
      RenamedTold(pointer, pairs[1..], f);
      assert pairs == [pairs[0]] + pairs[1..];
    }
  }

  lemma {:induction false} RemovedTold(pointer: string, names: seq<string>, f: Finding)
    ensures f in RemovedFindings(pointer, names)
       <==> exists n | n in names :: f == Finding(Breaking, ParamRemoved, pointer + "/properties/" + n)
  {
    if names != [] {
      RemovedTold(pointer, names[1..], f);
      assert names == [names[0]] + names[1..];
    }
  }

  lemma {:induction false} AddedTold(pointer: string, names: seq<string>, required: set<string>, f: Finding)
    ensures f in AddedFindings(pointer, names, required)
       <==> exists n | n in names :: f == AddedFinding(pointer, n, required)
  {
    if names != [] {
      AddedTold(pointer, names[1..], required, f);
      assert names == [names[0]] + names[1..];
    }
  }

  /** Which names the matching took, and which it left. */
  lemma MatchedNames(lib: Library, bp: seq<Field>, ap: seq<Field>, n: string)
    ensures var m := MatchingOf(lib, NamesNotIn(bp, ap), NamesNotIn(ap, bp), bp, ap);
      && (n in m.leftoverRemoved <==> Has(bp, n) && !Has(ap, n) && forall is_ :: !Renamed(lib, bp, ap, n, is_))
      && (n in m.leftoverAdded <==> Has(ap, n) && !Has(bp, n) && forall was :: !Renamed(lib, bp, ap, was, n))
  {
    var m := MatchingOf(lib, NamesNotIn(bp, ap), NamesNotIn(ap, bp), bp, ap);
    NamesInFacts(bp, ap, n);
    NamesInFacts(ap, bp, n);
    UnusedFacts(NamesNotIn(bp, ap), Olds(m.pairs));
    UnusedFacts(NamesNotIn(ap, bp), News(m.pairs));
    TakenNames(lib, bp, ap, n);
  }

  lemma TakenNames(lib: Library, bp: seq<Field>, ap: seq<Field>, n: string)
    ensures var pairs := MatchingOf(lib, NamesNotIn(bp, ap), NamesNotIn(ap, bp), bp, ap).pairs;
      && (n in Olds(pairs) <==> exists is_ :: Renamed(lib, bp, ap, n, is_))
      && (n in News(pairs) <==> exists was :: Renamed(lib, bp, ap, was, n))
  {
    var pairs := MatchingOf(lib, NamesNotIn(bp, ap), NamesNotIn(ap, bp), bp, ap).pairs;
    if n in Olds(pairs) {
      var i :| 0 <= i < |pairs| && pairs[i].oldName == n;
      assert Renamed(lib, bp, ap, n, pairs[i].newName);
    }
    if n in News(pairs) {
      var i :| 0 <= i < |pairs| && pairs[i].newName == n;
      assert Renamed(lib, bp, ap, pairs[i].oldName, n);
    }
  }

  const NAME_RULES := {ParamRenamed, ParamRemoved, ParamAddedRequired, ParamAddedOptional}
  const REQUIRED_RULES := {RequiredAdded, RequiredRemoved}

  lemma RenamedNames(lib: Library, pointer: string, before: Json, after: Json, pairs: seq<Candidate>, f: Finding,
                     name: string)
    requires before.Obj? && after.Obj? && ReadAsObjects(before, after) && f.rule == ParamRenamed
    requires var bp, ap := PropsOf(before).value, PropsOf(after).value;
      pairs == MatchingOf(lib, NamesNotIn(bp, ap), NamesNotIn(ap, bp), bp, ap).pairs
    ensures NameTold(lib, pointer, before, after, f, name)
       <==> f.path == pointer + "/properties/" + name && exists c | c in pairs :: c.newName == name
  {
    var bp, ap := PropsOf(before).value, PropsOf(after).value;
    forall c | c in pairs && c.newName == name ensures Renamed(lib, bp, ap, c.oldName, name) {
    }
  }

  lemma RenamedMeans(lib: Library, pointer: string, before: Json, after: Json, pairs: seq<Candidate>, f: Finding)
    requires before.Obj? && after.Obj? && ReadAsObjects(before, after)
    requires var bp, ap := PropsOf(before).value, PropsOf(after).value;
      pairs == MatchingOf(lib, NamesNotIn(bp, ap), NamesNotIn(ap, bp), bp, ap).pairs
    ensures f in RenamedFindings(pointer, pairs)
       <==> f.rule == ParamRenamed && Speaks(lib, Place(pointer, before, after), f)
  {
    RenamedTold(pointer, pairs, f);
    if f.rule == ParamRenamed {
      forall name
        ensures NameTold(lib, pointer, before, after, f, name)
           <==> f.path == pointer + "/properties/" + name && exists c | c in pairs :: c.newName == name
      {
        RenamedNames(lib, pointer, before, after, pairs, f, name);
      }
    }
  }

  lemma RemovedNames(lib: Library, pointer: string, before: Json, after: Json, left: seq<string>, f: Finding,
                     name: string)
    requires before.Obj? && after.Obj? && ReadAsObjects(before, after) && f.rule == ParamRemoved
    requires var bp, ap := PropsOf(before).value, PropsOf(after).value;
      left == MatchingOf(lib, NamesNotIn(bp, ap), NamesNotIn(ap, bp), bp, ap).leftoverRemoved
    ensures NameTold(lib, pointer, before, after, f, name)
       <==> name in left && f.path == pointer + "/properties/" + name
  {
    MatchedNames(lib, PropsOf(before).value, PropsOf(after).value, name);
  }

  lemma RemovedMeans(lib: Library, pointer: string, before: Json, after: Json, left: seq<string>, f: Finding)
    requires before.Obj? && after.Obj? && ReadAsObjects(before, after)
    requires var bp, ap := PropsOf(before).value, PropsOf(after).value;
      left == MatchingOf(lib, NamesNotIn(bp, ap), NamesNotIn(ap, bp), bp, ap).leftoverRemoved
    ensures f in RemovedFindings(pointer, left)
       <==> f.rule == ParamRemoved && Speaks(lib, Place(pointer, before, after), f)
  {
    RemovedTold(pointer, left, f);
    if f.rule == ParamRemoved {
      forall name
        ensures NameTold(lib, pointer, before, after, f, name)
           <==> name in left && f.path == pointer + "/properties/" + name
      {
        RemovedNames(lib, pointer, before, after, left, f, name);
      }
    }
  }

  lemma AddedIsTold(lib: Library, pointer: string, before: Json, after: Json, n: string)
    requires before.Obj? && after.Obj? && ReadAsObjects(before, after)
    requires var bp, ap := PropsOf(before).value, PropsOf(after).value;
      Has(ap, n) && !Has(bp, n) && forall was :: !Renamed(lib, bp, ap, was, n)
    ensures var f := AddedFinding(pointer, n, RequiredOf(after).value);
      f.rule in {ParamAddedRequired, ParamAddedOptional} && Speaks(lib, Place(pointer, before, after), f)
  {
    var f := AddedFinding(pointer, n, RequiredOf(after).value);
    assert NameTold(lib, pointer, before, after, f, n);
  }

  lemma ToldIsAdded(lib: Library, pointer: string, before: Json, after: Json, f: Finding) returns (n: string)
    requires before.Obj? && after.Obj? && ReadAsObjects(before, after)
    requires f.rule in {ParamAddedRequired, ParamAddedOptional} && Speaks(lib, Place(pointer, before, after), f)
    ensures var bp, ap := PropsOf(before).value, PropsOf(after).value;
      Has(ap, n) && !Has(bp, n) && forall was :: !Renamed(lib, bp, ap, was, n)
    ensures f == AddedFinding(pointer, n, RequiredOf(after).value)
  {
    n :| NameTold(lib, pointer, before, after, f, n);
  }

  lemma AddedMeans(lib: Library, pointer: string, before: Json, after: Json, left: seq<string>, f: Finding)
    requires before.Obj? && after.Obj? && ReadAsObjects(before, after)
    requires var bp, ap := PropsOf(before).value, PropsOf(after).value;
      left == MatchingOf(lib, NamesNotIn(bp, ap), NamesNotIn(ap, bp), bp, ap).leftoverAdded
    ensures f in AddedFindings(pointer, left, RequiredOf(after).value)
       <==> f.rule in {ParamAddedRequired, ParamAddedOptional} && Speaks(lib, Place(pointer, before, after), f)
  {
    var bp, ap, ar := PropsOf(before).value, PropsOf(after).value, RequiredOf(after).value;
    AddedTold(pointer, left, ar, f);
    if f in AddedFindings(pointer, left, ar) {
      var n :| n in left && f == AddedFinding(pointer, n, ar);
      MatchedNames(lib, bp, ap, n);
      AddedIsTold(lib, pointer, before, after, n);
    } else if f.rule in {ParamAddedRequired, ParamAddedOptional} && Speaks(lib, Place(pointer, before, after), f) {
      var n := ToldIsAdded(lib, pointer, before, after, f);
      MatchedNames(lib, bp, ap, n);
    }
  }

  lemma NamesTold(lib: Library, pointer: string, before: Json, after: Json, f: Finding)
    requires before.Obj? && after.Obj? && ReadAsObjects(before, after)
    ensures f in NameFindings(lib, pointer, PropsOf(before).value, PropsOf(after).value, RequiredOf(after).value)
       <==> f.rule in NAME_RULES && Speaks(lib, Place(pointer, before, after), f)
  {
    var bp, ap := PropsOf(before).value, PropsOf(after).value;
    var m := MatchingOf(lib, NamesNotIn(bp, ap), NamesNotIn(ap, bp), bp, ap);
    RenamedMeans(lib, pointer, before, after, m.pairs, f);
    RemovedMeans(lib, pointer, before, after, m.leftoverRemoved, f);
    AddedMeans(lib, pointer, before, after, m.leftoverAdded, f);
  }

  lemma RequiredTold(pointer: string, name: string, was: bool, is_: bool, f: Finding)
    ensures f in RequiredFindings(pointer, name, was, is_)
       <==> && f.path == pointer + "/properties/" + name
            && ((f.rule == RequiredAdded && f.severity == Breaking && !was && is_)
                || (f.rule == RequiredRemoved && f.severity == Info && was && !is_))
  {
  }

  lemma OneCommonTold(lib: Library, pointer: string, name: string, before: Json, after: Json, was: bool, is_: bool,
                      f: Finding)
    requires OneCommon(lib, pointer, name, before, after, was, is_).Some?
    ensures f in OneCommon(lib, pointer, name, before, after, was, is_).value
       <==> || f in RequiredFindings(pointer, name, was, is_)
            || f in NodeFindings(lib, pointer + "/properties/" + name, before, after).value
  {
  }

  lemma {:induction false} CommonTold(lib: Library, pointer: string, names: seq<string>, bProps: seq<Field>,
                                      aProps: seq<Field>, bReq: set<string>, aReq: set<string>, f: Finding)
    requires forall n | n in names :: Has(bProps, n) && Has(aProps, n)
    requires CommonFindings(lib, pointer, names, bProps, aProps, bReq, aReq).Some?
    ensures f in CommonFindings(lib, pointer, names, bProps, aProps, bReq, aReq).value <==>
      exists n | n in names ::
        || f in RequiredFindings(pointer, n, n in bReq, n in aReq)
        || Reported(lib, pointer + "/properties/" + n, Prop(bProps, n), Prop(aProps, n), f)
    decreases SizeFields(bProps) + SizeFields(aProps), 4, |names|
  {
    if names != [] {
      var n := names[0];
      PropIsSmaller(bProps, n);
      PropIsSmaller(aProps, n);
      OneCommonTold(lib, pointer, n, Prop(bProps, n), Prop(aProps, n), n in bReq, n in aReq, f);
      ReportIsExact(lib, pointer + "/properties/" + n, Prop(bProps, n), Prop(aProps, n), f);
      CommonTold(lib, pointer, names[1..], bProps, aProps, bReq, aReq, f);
      assert names == [n] + names[1..];
    }
  }

  /** A finding about a property that both sides have. */
  lemma RequiredMeans(lib: Library, pointer: string, before: Json, after: Json, f: Finding)
    requires before.Obj? && after.Obj? && ReadAsObjects(before, after)
    ensures var bp, ap, br, ar := PropsOf(before).value, PropsOf(after).value, RequiredOf(before).value,
      RequiredOf(after).value;
      (exists n | Has(bp, n) && Has(ap, n) :: f in RequiredFindings(pointer, n, n in br, n in ar))
      <==> f.rule in REQUIRED_RULES && Speaks(lib, Place(pointer, before, after), f)
  {
    var bp, ap, br, ar := PropsOf(before).value, PropsOf(after).value, RequiredOf(before).value,
      RequiredOf(after).value;
    forall n | Has(bp, n) && Has(ap, n) && f in RequiredFindings(pointer, n, n in br, n in ar)
      ensures f.rule in REQUIRED_RULES && Speaks(lib, Place(pointer, before, after), f)
    {
      RequiredTold(pointer, n, n in br, n in ar, f);
      assert NameTold(lib, pointer, before, after, f, n);
    }
    if f.rule in REQUIRED_RULES && Speaks(lib, Place(pointer, before, after), f) {
      var n :| NameTold(lib, pointer, before, after, f, n);
      RequiredTold(pointer, n, n in br, n in ar, f);
    }
  }

  lemma {:induction false} CommonMeans(lib: Library, pointer: string, before: Json, after: Json, f: Finding)
    requires before.Obj? && after.Obj? && ReadAsObjects(before, after)
    requires PropertyFindings(lib, pointer, before, after).Some?
    ensures f in PropertyFindings(lib, pointer, before, after).value <==>
      || f in NameFindings(lib, pointer, PropsOf(before).value, PropsOf(after).value, RequiredOf(after).value)
      || exists n | Common(before, after, n) ::
           || f in RequiredFindings(pointer, n, n in RequiredOf(before).value, n in RequiredOf(after).value)
           || ReportedInside(lib, pointer, before, after, n, f)
    decreases Size(before) + Size(after), 0
  {
    var bp, ap, br, ar := PropsOf(before).value, PropsOf(after).value, RequiredOf(before).value,
      RequiredOf(after).value;
    PropsAreSmaller(before);
    PropsAreSmaller(after);
    forall n ensures n in NamesIn(bp, ap) <==> Common(before, after, n) {
      NamesInFacts(bp, ap, n);
    }
    CommonTold(lib, pointer, NamesIn(bp, ap), bp, ap, br, ar, f);
    assert forall n | Common(before, after, n) ::
      ReportedInside(lib, pointer, before, after, n, f)
      == Reported(lib, pointer + "/properties/" + n, Prop(bp, n), Prop(ap, n), f);
  }

  lemma {:induction false} PropertiesTold(lib: Library, pointer: string, before: Json, after: Json, f: Finding)
    requires before.Obj? && after.Obj? && ObjectLike(before, after)
    requires PropertyFindings(lib, pointer, before, after).Some?
    ensures f in PropertyFindings(lib, pointer, before, after).value <==>
      || (f.rule in NAME_RULES + REQUIRED_RULES && Speaks(lib, Place(pointer, before, after), f))
      || exists n | Common(before, after, n) :: ReportedInside(lib, pointer, before, after, n, f)
    decreases Size(before) + Size(after), 1, 0
  {
    NamesTold(lib, pointer, before, after, f);
    RequiredMeans(lib, pointer, before, after, f);
    CommonMeans(lib, pointer, before, after, f);
  }

  lemma {:induction false} ObjectTold(lib: Library, pointer: string, before: Json, after: Json, f: Finding)
    requires before.Obj? && after.Obj? && ObjectFindings(lib, pointer, before, after).Some?
    ensures f in ObjectFindings(lib, pointer, before, after).value <==>
      && ObjectLike(before, after)
      && (|| (f.rule in NAME_RULES + REQUIRED_RULES + {AdditionalPropertiesRestricted}
              && Speaks(lib, Place(pointer, before, after), f))
          || exists n | Common(before, after, n) :: ReportedInside(lib, pointer, before, after, n, f))
    decreases Size(before) + Size(after), 2, 0
  {
    LikeByCases(before, after);
    if ObjectLike(before, after) {
      PropertiesTold(lib, pointer, before, after, f);
      AdditionalTold(lib, pointer, before, after, f);
    }
  }

  lemma {:induction false} ItemsTold(lib: Library, pointer: string, before: Json, after: Json, f: Finding)
    requires before.Obj? && after.Obj? && ItemFindings(lib, pointer, before, after).Some?
    ensures f in ItemFindings(lib, pointer, before, after).value
       <==> ArrayLike(before, after) && ReportedInItems(lib, pointer, before, after, f)
    decreases Size(before) + Size(after), 2, 0
  {
    LikeByCases(before, after);
    if ArrayLike(before, after) {
      ItemsAreSmaller(before, after);
      ReportIsExact(lib, pointer + "/items", Get(before, "items"), Get(after, "items"), f);
    }
  }

  /** The rules that look at one node without its properties. */
  lemma ScalarsTold(lib: Library, pointer: string, before: Json, after: Json, f: Finding)
    requires before.Obj? && after.Obj? && EnumFindings(lib, pointer, before, after).Some?
    requires ConstraintFindings(pointer, before, after).Some?
    ensures f in TypeFindings(pointer, before, after) + EnumFindings(lib, pointer, before, after).value
                 + ConstraintFindings(pointer, before, after).value + DefaultFindings(pointer, before, after)
       <==> IsScalarRule(f.rule) && Speaks(lib, Place(pointer, before, after), f)
  {
    TypeTold(lib, pointer, before, after, f);
    EnumTold(lib, pointer, before, after, f);
    ConstraintTold(lib, pointer, before, after, f);
    DefaultTold(lib, pointer, before, after, f);
  }

  /** The property rules speak of object schemas only. */
  lemma ObjectRules(lib: Library, pointer: string, before: Json, after: Json, f: Finding)
    requires before.Obj? && after.Obj? && Speaks(lib, Place(pointer, before, after), f)
    ensures IsScalarRule(f.rule) ||
            (f.rule in NAME_RULES + REQUIRED_RULES + {AdditionalPropertiesRestricted} && ObjectLike(before, after))
  {
  }

  /** Whenever the diff returns, it reports exactly the findings some rule makes at some compared pair. */
  lemma {:induction false} ReportIsExact(lib: Library, pointer: string, before: Json, after: Json, f: Finding)
    requires NodeFindings(lib, pointer, before, after).Some?
    ensures f in NodeFindings(lib, pointer, before, after).value <==> Reported(lib, pointer, before, after, f)
    decreases Size(before) + Size(after), 2, 1
  {
    var b, a := AsDict(before), AsDict(after);
    ScalarsTold(lib, pointer, b, a, f);
    ObjectTold(lib, pointer, b, a, f);
    ItemsTold(lib, pointer, b, a, f);
    ReportedUnfolds(lib, pointer, b, a, f);
    SameAsDicts(lib, pointer, before, after, f);
    if Speaks(lib, Place(pointer, b, a), f) {
      ObjectRules(lib, pointer, b, a, f);
    }
  }

  lemma VisitsAsDicts(pointer: string, before: Json, after: Json, place: Place)
    ensures Visits(pointer, before, after, place) <==> Visits(pointer, AsDict(before), AsDict(after), place)
  {
    assert AsDict(AsDict(before)) == AsDict(before) && AsDict(AsDict(after)) == AsDict(after);
  }

  lemma SameAsDicts(lib: Library, pointer: string, before: Json, after: Json, f: Finding)
    ensures Reported(lib, pointer, before, after, f) <==> Reported(lib, pointer, AsDict(before), AsDict(after), f)
  {
    forall place: Place
      ensures Visits(pointer, before, after, place) <==> Visits(pointer, AsDict(before), AsDict(after), place)
    {
      VisitsAsDicts(pointer, before, after, place);
    }
  }

  // ----- what follows for readers of a report -----

  /** No schema comparison reports SECURITY, and only two rules about names and one about enums are INFO. */
  lemma SeverityByRule(lib: Library, pointer: string, before: Json, after: Json, f: Finding)
    requires NodeFindings(lib, pointer, before, after).Some? && f in NodeFindings(lib, pointer, before, after).value
    ensures f.severity != Security
    ensures f.severity == Info <==> f.rule in {EnumValueAdded, ParamAddedOptional, RequiredRemoved}
    ensures f.rule != TypeChanged ==> (f.severity == Warn <==> f.rule in {ConstraintTightened, DefaultChanged})
  {
    ReportIsExact(lib, pointer, before, after, f);
  }

  /** A type change is BREAKING exactly if the types of some compared pair differ, the new ones do not
      include the old, and it is not integer to number. */
  lemma BreakingTypeChange(lib: Library, pointer: string, before: Json, after: Json, path: string)
    requires NodeFindings(lib, pointer, before, after).Some?
    ensures Finding(Breaking, TypeChanged, path) in NodeFindings(lib, pointer, before, after).value <==>
      exists place: Place | place.before.Obj? && place.after.Obj? && Visits(pointer, before, after, place) ::
        && path == place.pointer + "/type"
        && !(TypeSet(place.before) <= TypeSet(place.after))
        && !(TypeSet(place.before) == {"integer"} && TypeSet(place.after) == {"number"})
  {
    var f := Finding(Breaking, TypeChanged, path);
    ReportIsExact(lib, pointer, before, after, f);
    forall place: Place | place.before.Obj? && place.after.Obj?
      ensures Told(lib, place, f) <==>
        && path == place.pointer + "/type" && !(TypeSet(place.before) <= TypeSet(place.after))
        && !(TypeSet(place.before) == {"integer"} && TypeSet(place.after) == {"number"})
    {
      SubsetCases(TypeSet(place.before), TypeSet(place.after));
    }
  }

  lemma SubsetCases(a: set<string>, b: set<string>)
    ensures a <= b <==> a == b || a < b
  {
  }

  lemma RemovedIsSpoken(lib: Library, place: Place, name: string)
    requires place.before.Obj? && place.after.Obj? && ReadAsObjects(place.before, place.after)
    requires Has(PropsOf(place.before).value, name) && !Has(PropsOf(place.after).value, name)
    ensures var removed := Finding(Breaking, ParamRemoved, place.pointer + "/properties/" + name);
      Speaks(lib, place, removed) <==>
        forall is_ :: !Renamed(lib, PropsOf(place.before).value, PropsOf(place.after).value, name, is_)
  {
    var removed := Finding(Breaking, ParamRemoved, place.pointer + "/properties/" + name);
    if forall is_ :: !Renamed(lib, PropsOf(place.before).value, PropsOf(place.after).value, name, is_) {
      assert NameTold(lib, place.pointer, place.before, place.after, removed, name);
    }
    if Speaks(lib, place, removed) {
      var n :| NameTold(lib, place.pointer, place.before, place.after, removed, n);
      SamePath(place.pointer + "/properties/", n, name);
    }
  }

  lemma RenamingIsReported(lib: Library, pointer: string, before: Json, after: Json, place: Place, was: string,
                           is_: string)
    requires NodeFindings(lib, pointer, before, after).Some? && Visits(pointer, before, after, place)
    requires place.before.Obj? && place.after.Obj? && ReadAsObjects(place.before, place.after)
    requires Renamed(lib, PropsOf(place.before).value, PropsOf(place.after).value, was, is_)
    ensures Finding(Breaking, ParamRenamed, place.pointer + "/properties/" + is_)
            in NodeFindings(lib, pointer, before, after).value
  {
    var renamed := Finding(Breaking, ParamRenamed, place.pointer + "/properties/" + is_);
    assert NameTold(lib, place.pointer, place.before, place.after, renamed, is_);
    assert Told(lib, place, renamed);
    ReportIsExact(lib, pointer, before, after, renamed);
  }

  /** At every compared pair, a parameter that is gone is reported as removed, or one that is new as its
      renaming, never both. */
  lemma GoneIsReported(lib: Library, pointer: string, before: Json, after: Json, place: Place, name: string)
    requires NodeFindings(lib, pointer, before, after).Some? && Visits(pointer, before, after, place)
    requires place.before.Obj? && place.after.Obj? && ReadAsObjects(place.before, place.after)
    requires Has(PropsOf(place.before).value, name) && !Has(PropsOf(place.after).value, name)
    ensures var report := NodeFindings(lib, pointer, before, after).value;
      var bp, ap := PropsOf(place.before).value, PropsOf(place.after).value;
      && ((forall is_ :: !Renamed(lib, bp, ap, name, is_)) ==>
            Finding(Breaking, ParamRemoved, place.pointer + "/properties/" + name) in report)
      && (forall is_ | Renamed(lib, bp, ap, name, is_) ::
            Finding(Breaking, ParamRenamed, place.pointer + "/properties/" + is_) in report)
    ensures var removed := Finding(Breaking, ParamRemoved, place.pointer + "/properties/" + name);
      Speaks(lib, place, removed) <==>
        forall is_ :: !Renamed(lib, PropsOf(place.before).value, PropsOf(place.after).value, name, is_)
  {
    var removed := Finding(Breaking, ParamRemoved, place.pointer + "/properties/" + name);
    RemovedIsSpoken(lib, place, name);
    if Speaks(lib, place, removed) {
      assert Told(lib, place, removed);
      ReportIsExact(lib, pointer, before, after, removed);
    }
    forall is_ | Renamed(lib, PropsOf(place.before).value, PropsOf(place.after).value, name, is_)
      ensures Finding(Breaking, ParamRenamed, place.pointer + "/properties/" + is_)
              in NodeFindings(lib, pointer, before, after).value
    {
      RenamingIsReported(lib, pointer, before, after, place, name, is_);
    }
  }

  lemma SamePath(front: string, a: string, b: string)
    requires front + a == front + b
    ensures a == b
  {
    assert (front + a)[|front|..] == a && (front + b)[|front|..] == b;
  }

  /** The properties that are compared are the dict-valued ones, under their own names. */
  lemma ComparedProperties(schema: Json, name: string)
    requires schema.Obj? && WellFormed(schema) && PropsOf(schema).Some?
    ensures Has(PropsOf(schema).value, name) <==>
      && Get(schema, "properties").Obj? && Has(Get(schema, "properties").fields, name)
      && Get(Get(schema, "properties"), name).Obj?
    ensures Has(PropsOf(schema).value, name) ==>
      Prop(PropsOf(schema).value, name) == Get(Get(schema, "properties"), name)
  {
    var p := Get(schema, "properties");
    if p.Obj? {
      var r := Lookup(schema.fields, "properties");
      assert Field("properties", p) in schema.fields;
      DictsByName(p.fields, name);
    }
  }

  lemma {:induction false} DictsByName(fields: seq<Field>, name: string)
    requires DistinctKeys(fields)
    ensures Lookup(DictFields(fields), name)
         == if Has(fields, name) && Lookup(fields, name).value.Obj? then Lookup(fields, name) else None
  {
    if fields != [] {
      DictsByName(fields[1..], name);
      var rest := DictFields(fields[1..]);
      if fields[0].value.Obj? {
        assert DictFields(fields) == [fields[0]] + rest && ([fields[0]] + rest)[1..] == rest;
      } else {
        assert DictFields(fields) == rest;
      }
    }
  }

  // ----- when the comparison raises -----

  /** A truthy enum that cannot be iterated. */
  predicate BadEnum(enum: Json) {
    Truthy(enum) && !enum.Arr? && !enum.Str? && !enum.Obj?
  }

  predicate BadProperties(schema: Json)
    requires schema.Obj?
  {
    Truthy(Get(schema, "properties")) && !Get(schema, "properties").Obj?
  }

  /** A truthy `required` that is no iterable of hashable values. */
  predicate BadRequired(schema: Json)
    requires schema.Obj?
  {
    var r := Get(schema, "required");
    Truthy(r) && !r.Str? && !r.Obj? && (r.Arr? ==> exists v | v in r.items :: v.Arr? || v.Obj?)
  }

  /** A new numeric bound and an old one it cannot be compared with. */
  predicate BadBound(key: string, before: Json, after: Json)
    requires before.Obj? && after.Obj?
  {
    Numeric(Get(after, key)).Some? && Get(before, key) != Null && Numeric(Get(before, key)).None?
  }

  /** Comparing the pair raises, whatever is inside it. */
  predicate Unreadable(place: Place)
    requires place.before.Obj? && place.after.Obj?
  {
    var b, a := place.before, place.after;
    || BadEnum(Get(b, "enum")) || BadEnum(Get(a, "enum"))
    || (exists key | key in BOUNDS :: BadBound(key, b, a))
    || (ObjectLike(b, a) && exists side | side in [b, a] :: BadProperties(side) || BadRequired(side))
  }

  ghost predicate Raises(pointer: string, before: Json, after: Json) {
    exists place: Place :: Visits(pointer, before, after, place) && RaisesAt(place)
  }

  predicate RaisesAt(place: Place) {
    place.before.Obj? && place.after.Obj? && Unreadable(place)
  }

  ghost predicate RaisesInside(pointer: string, b: Json, a: Json, name: string)
    requires b.Obj? && a.Obj? && Common(b, a, name)
  {
    Raises(pointer + "/properties/" + name, Prop(PropsOf(b).value, name), Prop(PropsOf(a).value, name))
  }

  ghost predicate RaisesInItems(pointer: string, b: Json, a: Json)
    requires b.Obj? && a.Obj?
  {
    Raises(pointer + "/items", Get(b, "items"), Get(a, "items"))
  }

  lemma InsideRaises(pointer: string, b: Json, a: Json, name: string)
    requires b.Obj? && a.Obj? && ObjectLike(b, a) && Common(b, a, name) && RaisesInside(pointer, b, a, name)
    ensures Raises(pointer, b, a)
  {
    var place: Place :| Visits(pointer + "/properties/" + name, Prop(PropsOf(b).value, name),
                               Prop(PropsOf(a).value, name), place) && RaisesAt(place);
    CommonIsSmaller(b, a, name);
    assert Visits(pointer, b, a, place);
  }

  lemma InItemsRaises(pointer: string, b: Json, a: Json)
    requires b.Obj? && a.Obj? && ArrayLike(b, a) && RaisesInItems(pointer, b, a)
    ensures Raises(pointer, b, a)
  {
    var place: Place :| Visits(pointer + "/items", Get(b, "items"), Get(a, "items"), place) && RaisesAt(place);
    ItemsAreSmaller(b, a);
    assert Visits(pointer, b, a, place);
  }

  lemma RaisesSomewhere(pointer: string, b: Json, a: Json)
    requires b.Obj? && a.Obj? && Raises(pointer, b, a)
    ensures || Unreadable(Place(pointer, b, a))
            || (ObjectLike(b, a) && exists name | Common(b, a, name) :: RaisesInside(pointer, b, a, name))
            || (ArrayLike(b, a) && RaisesInItems(pointer, b, a))
  {
    var place: Place :| Visits(pointer, b, a, place) && RaisesAt(place);
    if place != Place(pointer, b, a) {
      if ArrayLike(b, a) && (ItemsAreSmaller(b, a); Visits(pointer + "/items", Get(b, "items"), Get(a, "items"),
                                                           place)) {
        assert RaisesInItems(pointer, b, a);
      } else {
        var name :| Common(b, a, name) &&
          (CommonIsSmaller(b, a, name);
           Visits(pointer + "/properties/" + name, Prop(PropsOf(b).value, name), Prop(PropsOf(a).value, name), place));
        assert RaisesInside(pointer, b, a, name);
      }
    }
  }

  lemma RaisesUnfolds(pointer: string, b: Json, a: Json)
    requires b.Obj? && a.Obj?
    ensures Raises(pointer, b, a) <==>
      || Unreadable(Place(pointer, b, a))
      || (ObjectLike(b, a) && exists name | Common(b, a, name) :: RaisesInside(pointer, b, a, name))
      || (ArrayLike(b, a) && RaisesInItems(pointer, b, a))
  {
    if Raises(pointer, b, a) {
      RaisesSomewhere(pointer, b, a);
    }
    if Unreadable(Place(pointer, b, a)) {
      assert Visits(pointer, b, a, Place(pointer, b, a)) && RaisesAt(Place(pointer, b, a));
    }
    if ObjectLike(b, a) {
      forall name | Common(b, a, name) && RaisesInside(pointer, b, a, name) ensures Raises(pointer, b, a) {
        InsideRaises(pointer, b, a, name);
      }
    }
    if ArrayLike(b, a) && RaisesInItems(pointer, b, a) {
      InItemsRaises(pointer, b, a);
    }
  }

  lemma {:induction false} BoundsRaise(pointer: string, keys: seq<string>, upper: bool, before: Json, after: Json)
    requires before.Obj? && after.Obj?
    ensures AllBoundFindings(pointer, keys, upper, before, after).None?
       <==> exists key | key in keys :: BadBound(key, before, after)
  {
    if keys != [] {
      BoundsRaise(pointer, keys[1..], upper, before, after);
      assert BoundFindings(pointer, keys[0], upper, before, after).None? <==> BadBound(keys[0], before, after);
      assert forall key :: key in keys <==> key == keys[0] || key in keys[1..];
    }
  }

  lemma EnumRaises(lib: Library, pointer: string, before: Json, after: Json)
    requires before.Obj? && after.Obj?
    ensures EnumFindings(lib, pointer, before, after).None?
       <==> BadEnum(Get(before, "enum")) || BadEnum(Get(after, "enum"))
  {
  }

  lemma ConstraintRaises(pointer: string, before: Json, after: Json)
    requires before.Obj? && after.Obj?
    ensures ConstraintFindings(pointer, before, after).None?
       <==> exists key | key in BOUNDS :: BadBound(key, before, after)
  {
    BoundsRaise(pointer, UPPER_BOUNDS, true, before, after);
    BoundsRaise(pointer, LOWER_BOUNDS, false, before, after);
    assert forall key :: key in BOUNDS <==> key in UPPER_BOUNDS || key in LOWER_BOUNDS;
  }

  lemma ReadingRaises(schema: Json)
    requires schema.Obj?
    ensures PropsOf(schema).None? <==> BadProperties(schema)
    ensures RequiredOf(schema).None? <==> BadRequired(schema)
  {
    var r := Get(schema, "required");
    if r.Arr? {
      if exists i | 0 <= i < |r.items| :: r.items[i].Arr? || r.items[i].Obj? {
        var i :| 0 <= i < |r.items| && (r.items[i].Arr? || r.items[i].Obj?);
        assert r.items[i] in r.items;
      }
    }
  }

  lemma {:induction false} CommonRaises(lib: Library, pointer: string, names: seq<string>, bProps: seq<Field>,
                                        aProps: seq<Field>, bReq: set<string>, aReq: set<string>)
    requires forall n | n in names :: Has(bProps, n) && Has(aProps, n)
    ensures CommonFindings(lib, pointer, names, bProps, aProps, bReq, aReq).None? <==>
      exists n | n in names :: Raises(pointer + "/properties/" + n, Prop(bProps, n), Prop(aProps, n))
    decreases SizeFields(bProps) + SizeFields(aProps), 4, |names|
  {
    if names != [] {
      var n := names[0];
      PropIsSmaller(bProps, n);
      PropIsSmaller(aProps, n);
      RaisesExactly(lib, pointer + "/properties/" + n, Prop(bProps, n), Prop(aProps, n));
      CommonRaises(lib, pointer, names[1..], bProps, aProps, bReq, aReq);
      assert names == [n] + names[1..];
    }
  }

  /** One of the two sides has properties or a required list that cannot be read. */
  lemma SidesRaise(before: Json, after: Json)
    requires before.Obj? && after.Obj?
    ensures (exists side | side in [before, after] :: BadProperties(side) || BadRequired(side))
       <==> PropsOf(before).None? || PropsOf(after).None? || RequiredOf(before).None? || RequiredOf(after).None?
  {
    ReadingRaises(before);
    ReadingRaises(after);
    assert before in [before, after] && after in [before, after];
  }

  lemma {:induction false} PropertiesRaise(lib: Library, pointer: string, before: Json, after: Json)
    requires before.Obj? && after.Obj? && PropsOf(before).Some? && PropsOf(after).Some?
    requires RequiredOf(before).Some? && RequiredOf(after).Some?
    ensures PropertyFindings(lib, pointer, before, after).None?
       <==> exists n | Common(before, after, n) :: RaisesInside(pointer, before, after, n)
    decreases Size(before) + Size(after), 1, 0
  {
    var bp, ap := PropsOf(before).value, PropsOf(after).value;
    PropsAreSmaller(before);
    PropsAreSmaller(after);
    forall n ensures n in NamesIn(bp, ap) <==> Common(before, after, n) {
      NamesInFacts(bp, ap, n);
    }
    CommonRaises(lib, pointer, NamesIn(bp, ap), bp, ap, RequiredOf(before).value, RequiredOf(after).value);
    assert forall n | Common(before, after, n) ::
      RaisesInside(pointer, before, after, n) == Raises(pointer + "/properties/" + n, Prop(bp, n), Prop(ap, n));
  }

  lemma UnreadableRaise(lib: Library, pointer: string, before: Json, after: Json)
    requires before.Obj? && after.Obj?
    ensures PropsOf(before).None? || PropsOf(after).None? || RequiredOf(before).None? || RequiredOf(after).None? ==>
      PropertyFindings(lib, pointer, before, after).None?
    ensures ObjectFindings(lib, pointer, before, after).None?
       <==> ObjectLike(before, after) && PropertyFindings(lib, pointer, before, after).None?
  {
    LikeByCases(before, after);
  }

  lemma {:induction false} ObjectRaises(lib: Library, pointer: string, before: Json, after: Json)
    requires before.Obj? && after.Obj?
    ensures ObjectFindings(lib, pointer, before, after).None? <==>
      && ObjectLike(before, after)
      && (|| (exists side | side in [before, after] :: BadProperties(side) || BadRequired(side))
          || exists n | Common(before, after, n) :: RaisesInside(pointer, before, after, n))
    decreases Size(before) + Size(after), 2, 0
  {
    SidesRaise(before, after);
    UnreadableRaise(lib, pointer, before, after);
    if PropsOf(before).Some? && PropsOf(after).Some? && RequiredOf(before).Some? && RequiredOf(after).Some? {
      PropertiesRaise(lib, pointer, before, after);
    }
  }

  lemma {:induction false} ItemsRaise(lib: Library, pointer: string, before: Json, after: Json)
    requires before.Obj? && after.Obj?
    ensures ItemFindings(lib, pointer, before, after).None?
       <==> ArrayLike(before, after) && RaisesInItems(pointer, before, after)
    decreases Size(before) + Size(after), 2, 0
  {
    LikeByCases(before, after);
    if ArrayLike(before, after) {
      ItemsAreSmaller(before, after);
      RaisesExactly(lib, pointer + "/items", Get(before, "items"), Get(after, "items"));
    }
  }

  /** The comparison raises exactly if it gets to a pair it cannot read. */
  lemma {:induction false} RaisesExactly(lib: Library, pointer: string, before: Json, after: Json)
    ensures NodeFindings(lib, pointer, before, after).None? <==> Raises(pointer, before, after)
    decreases Size(before) + Size(after), 2, 1
  {
    var b, a := AsDict(before), AsDict(after);
    EnumRaises(lib, pointer, b, a);
    ConstraintRaises(pointer, b, a);
    ObjectRaises(lib, pointer, b, a);
    ItemsRaise(lib, pointer, b, a);
    RaisesUnfolds(pointer, b, a);
    RaisesAsDicts(pointer, before, after);
    NodeRaises(lib, pointer, before, after);
  }

  lemma NodeRaises(lib: Library, pointer: string, before: Json, after: Json)
    ensures var b, a := AsDict(before), AsDict(after);
      NodeFindings(lib, pointer, before, after).None? <==>
      || EnumFindings(lib, pointer, b, a).None? || ConstraintFindings(pointer, b, a).None?
      || ObjectFindings(lib, pointer, b, a).None? || ItemFindings(lib, pointer, b, a).None?
  {
  }

  lemma RaisesAsDicts(pointer: string, before: Json, after: Json)
    ensures Raises(pointer, before, after) <==> Raises(pointer, AsDict(before), AsDict(after))
  {
    forall place: Place
      ensures Visits(pointer, before, after, place) <==> Visits(pointer, AsDict(before), AsDict(after), place)
    {
      VisitsAsDicts(pointer, before, after, place);
    }
  }
}
