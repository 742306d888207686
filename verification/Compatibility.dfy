/**
 When is a report harmless?  `Compatible` says, without mentioning findings, how the new schema
 relates to the old one; a report holds nothing worse than INFO exactly when every constraint of the
 new schema was already there, and nothing worse than WARN exactly when types were at most widened,
 and enums, names and extra properties kept, whatever happened to bounds, patterns and defaults.
 */
module Compatibility {
  import opened Json
  import opened Schema
  import opened Renames
  import opened Findings

  /** Nothing worse than INFO, or with `warn` nothing worse than WARN. */
  predicate AtMost(warn: bool, fs: seq<Finding>) {
    forall i | 0 <= i < |fs| :: fs[i].severity == Info || (warn && fs[i].severity == Warn)
  }

  predicate InfoOnly(fs: seq<Finding>) {
    AtMost(false, fs)
  }

  /** The type rule: equal types, or with `warn` a wider union, or a number for an integer. */
  predicate TypesKept(warn: bool, before: set<string>, after: set<string>) {
    before == after || (warn && (before < after || (before == {"integer"} && after == {"number"})))
  }

  /** A numeric bound of the new schema is no tighter than one the old schema had. */
  predicate BoundKept(key: string, upper: bool, before: Json, after: Json)
    requires before.Obj? && after.Obj?
  {
    var b, a := Numeric(Get(before, key)), Numeric(Get(after, key));
    a.Some? ==> b.Some? && if upper then b.value <= a.value else a.value <= b.value
  }

  predicate TextKept(key: string, before: Json, after: Json)
    requires before.Obj? && after.Obj?
  {
    Get(after, key).Null? || PyEq(Get(after, key), Get(before, key))
  }

  predicate ConstraintsKept(before: Json, after: Json)
    requires before.Obj? && after.Obj?
  {
    && (forall k | k in UPPER_BOUNDS :: BoundKept(k, true, before, after))
    && (forall k | k in LOWER_BOUNDS :: BoundKept(k, false, before, after))
    && (forall k | k in TEXT_KEYS :: TextKept(k, before, after))
  }

  predicate DefaultKept(before: Json, after: Json)
    requires before.Obj? && after.Obj?
  {
    var b, a := Lookup(before.fields, "default"), Lookup(after.fields, "default");
    b.Some? == a.Some? && (b.Some? ==> PyEq(a.value, b.value))
  }

  predicate ScalarsKept(warn: bool, lib: Library, before: Json, after: Json)
    requires before.Obj? && after.Obj?
  {
    && TypesKept(warn, TypeSet(before), TypeSet(after))
    && (var bs, as_ := EnumKeys(lib, Get(before, "enum")), EnumKeys(lib, Get(after, "enum"));
        bs.Some? && as_.Some? ==> bs.value <= as_.value)
    && (warn || (ConstraintsKept(before, after) && DefaultKept(before, after)))
  }

  /** No old property is gone and every new one is optional. */
  ghost predicate NamesKept(bp: seq<Field>, ap: seq<Field>, ar: set<string>) {
    && (forall n | Has(bp, n) :: Has(ap, n))
    && (forall n | Has(ap, n) && !Has(bp, n) :: n !in ar)
  }

  /** No common property became required, and their schemas are compatible. */
  ghost predicate CommonKept(warn: bool, lib: Library, bp: seq<Field>, ap: seq<Field>, br: set<string>, ar: set<string>)
    decreases SizeFields(bp) + SizeFields(ap), 2
  {
    forall n | Has(bp, n) && Has(ap, n) ::
      PropIsSmaller(bp, n);
      PropIsSmaller(ap, n);
      (n in ar ==> n in br) && Compatible(warn, lib, Prop(bp, n), Prop(ap, n))
  }

  ghost predicate PropertiesKept(warn: bool, lib: Library, before: Json, after: Json)
    requires before.Obj? && after.Obj?
    decreases Size(before) + Size(after), 0
  {
    && !(AllowsExtra(before) && AdditionalProperties(after) == Bool(false))
    && (if PropsOf(before).Some? && PropsOf(after).Some? && RequiredOf(before).Some? && RequiredOf(after).Some? then
          PropsAreSmaller(before);
          PropsAreSmaller(after);
          && NamesKept(PropsOf(before).value, PropsOf(after).value, RequiredOf(after).value)
          && CommonKept(warn, lib, PropsOf(before).value, PropsOf(after).value, RequiredOf(before).value,
                        RequiredOf(after).value)
        else true)
  }

  ghost predicate ItemsKept(warn: bool, lib: Library, before: Json, after: Json)
    requires before.Obj? && after.Obj?
    decreases Size(before) + Size(after), 0
  {
    if ComparesItems(before, after) then
      GetIsSmaller(before, "items");
      GetIsSmaller(after, "items");
      Compatible(warn, lib, Get(before, "items"), Get(after, "items"))
    else true
  }

  ghost predicate Compatible(warn: bool, lib: Library, before: Json, after: Json)
    decreases Size(before) + Size(after), 1
  {
    var b, a := AsDict(before), AsDict(after);
    && ScalarsKept(warn, lib, b, a)
    && (ComparesProperties(b, a) ==> PropertiesKept(warn, lib, b, a))
    && ItemsKept(warn, lib, b, a)
  }

  lemma AtMostConcat(warn: bool, fs: seq<Finding>, gs: seq<Finding>)
    ensures AtMost(warn, fs + gs) <==> AtMost(warn, fs) && AtMost(warn, gs)
  {
    var s := fs + gs;
    if AtMost(warn, s) {
      assert forall i | 0 <= i < |fs| :: s[i] == fs[i];
      assert forall i | 0 <= i < |gs| :: s[|fs| + i] == gs[i];
    }
  }

  lemma {:induction false} BoundsAtMost(warn: bool, pointer: string, keys: seq<string>, upper: bool, before: Json,
                                        after: Json)
    requires before.Obj? && after.Obj?
    requires AllBoundFindings(pointer, keys, upper, before, after).Some?
    ensures AtMost(warn, AllBoundFindings(pointer, keys, upper, before, after).value)
       <==> warn || forall k | k in keys :: BoundKept(k, upper, before, after)
  {
    if keys != [] {
      BoundsAtMost(warn, pointer, keys[1..], upper, before, after);
      var f := BoundFindings(pointer, keys[0], upper, before, after).value;
      AtMostConcat(warn, f, AllBoundFindings(pointer, keys[1..], upper, before, after).value);
      assert AtMost(warn, f) <==> warn || BoundKept(keys[0], upper, before, after) by {
        if f != [] { assert f[0].severity == Warn; }
      }
      assert keys == [keys[0]] + keys[1..];
    }
  }

  lemma {:induction false} TextsAtMost(warn: bool, pointer: string, keys: seq<string>, before: Json, after: Json)
    requires before.Obj? && after.Obj?
    ensures AtMost(warn, TextFindings(pointer, keys, before, after))
       <==> warn || forall k | k in keys :: TextKept(k, before, after)
  {
    if keys != [] {
      TextsAtMost(warn, pointer, keys[1..], before, after);
      var b, a := Get(before, keys[0]), Get(after, keys[0]);
      var f := if !a.Null? && !PyEq(a, b) then [Finding(Warn, ConstraintTightened, pointer + "/" + keys[0])] else [];
      AtMostConcat(warn, f, TextFindings(pointer, keys[1..], before, after));
      assert AtMost(warn, f) <==> warn || TextKept(keys[0], before, after) by {
        if f != [] { assert f[0].severity == Warn; }
      }
      assert keys == [keys[0]] + keys[1..];
    }
  }

  lemma EnumAtMost(warn: bool, lib: Library, pointer: string, before: Json, after: Json)
    requires before.Obj? && after.Obj?
    requires EnumFindings(lib, pointer, before, after).Some?
    ensures var bs, as_ := EnumKeys(lib, Get(before, "enum")), EnumKeys(lib, Get(after, "enum"));
            && bs.Some? && as_.Some?
            && (AtMost(warn, EnumFindings(lib, pointer, before, after).value) <==> bs.value <= as_.value)
  {
    var bs, as_ := EnumKeys(lib, Get(before, "enum")), EnumKeys(lib, Get(after, "enum"));
    if !(Get(before, "enum").Null? && Get(after, "enum").Null?) {
      var rem := if bs.value - as_.value != {} then [Finding(Breaking, EnumValueRemoved, pointer + "/enum")] else [];
      var add := if as_.value - bs.value != {} then [Finding(Info, EnumValueAdded, pointer + "/enum")] else [];
      AtMostConcat(warn, rem, add);
      if rem != [] { assert rem[0].severity == Breaking; }
      if bs.value - as_.value == {} {
        forall x | x in bs.value ensures x in as_.value {
          assert x !in bs.value - as_.value;
        }
      }
    }
  }

  /** The non-recursive rules of one node. */
  lemma ScalarsAtMost(warn: bool, lib: Library, pointer: string, before: Json, after: Json)
    requires before.Obj? && after.Obj?
    requires EnumFindings(lib, pointer, before, after).Some?
    requires ConstraintFindings(pointer, before, after).Some?
    ensures AtMost(warn, TypeFindings(pointer, before, after)
                     + EnumFindings(lib, pointer, before, after).value
                     + ConstraintFindings(pointer, before, after).value
                     + DefaultFindings(pointer, before, after))
       <==> ScalarsKept(warn, lib, before, after)
  {
    var t := TypeFindings(pointer, before, after);
    var e := EnumFindings(lib, pointer, before, after).value;
    var upper := AllBoundFindings(pointer, UPPER_BOUNDS, true, before, after).value;
    var lower := AllBoundFindings(pointer, LOWER_BOUNDS, false, before, after).value;
    var texts := TextFindings(pointer, TEXT_KEYS, before, after);
    var d := DefaultFindings(pointer, before, after);
    AtMostConcat(warn, t + e + (upper + lower + texts), d);
    AtMostConcat(warn, t + e, upper + lower + texts);
    AtMostConcat(warn, t, e);
    AtMostConcat(warn, upper + lower, texts);
    AtMostConcat(warn, upper, lower);
    EnumAtMost(warn, lib, pointer, before, after);
    BoundsAtMost(warn, pointer, UPPER_BOUNDS, true, before, after);
    BoundsAtMost(warn, pointer, LOWER_BOUNDS, false, before, after);
    TextsAtMost(warn, pointer, TEXT_KEYS, before, after);
    if t != [] {
      assert t[0].severity == ClassifyTypeChange(TypeSet(before), TypeSet(after)).value;
    }
    if d != [] { assert d[0].severity == Warn; }
  }

  lemma {:induction false} RenamedAtMost(warn: bool, pointer: string, pairs: seq<Candidate>)
    ensures AtMost(warn, RenamedFindings(pointer, pairs)) <==> pairs == []
  {
    if pairs != [] {
      assert RenamedFindings(pointer, pairs)[0].severity == Breaking;
    }
  }

  lemma {:induction false} RemovedAtMost(warn: bool, pointer: string, names: seq<string>)
    ensures AtMost(warn, RemovedFindings(pointer, names)) <==> names == []
  {
    if names != [] {
      assert RemovedFindings(pointer, names)[0].severity == Breaking;
    }
  }

  lemma {:induction false} AddedAtMost(warn: bool, pointer: string, names: seq<string>, required: set<string>)
    ensures AtMost(warn, AddedFindings(pointer, names, required)) <==> forall n | n in names :: n !in required
  {
    if names != [] {
      AddedAtMost(warn, pointer, names[1..], required);
      var f := AddedFinding(pointer, names[0], required);
      AtMostConcat(warn, [f], AddedFindings(pointer, names[1..], required));
      assert AtMost(warn, [f]) <==> f.severity == Info by {
        assert [f][0] == f;
      }
      assert names == [names[0]] + names[1..];
    }
  }

  lemma {:induction false} CommonAtMost(warn: bool, lib: Library, pointer: string, names: seq<string>,
                         bProps: seq<Field>, aProps: seq<Field>, bReq: set<string>, aReq: set<string>)
    requires forall n | n in names :: Has(bProps, n) && Has(aProps, n)
    requires CommonFindings(lib, pointer, names, bProps, aProps, bReq, aReq).Some?
    ensures AtMost(warn, CommonFindings(lib, pointer, names, bProps, aProps, bReq, aReq).value)
       <==> forall n | n in names ::
              (n in aReq ==> n in bReq) && Compatible(warn, lib, Prop(bProps, n), Prop(aProps, n))
    decreases SizeFields(bProps) + SizeFields(aProps), 4, |names|
  {
    if names != [] {
      var n := names[0];
      PropIsSmaller(bProps, n);
      PropIsSmaller(aProps, n);
      OneCommonAtMost(warn, lib, pointer, n, Prop(bProps, n), Prop(aProps, n), n in bReq, n in aReq);
      CommonAtMost(warn, lib, pointer, names[1..], bProps, aProps, bReq, aReq);
      AtMostConcat(warn, OneCommon(lib, pointer, n, Prop(bProps, n), Prop(aProps, n), n in bReq, n in aReq).value,
                     CommonFindings(lib, pointer, names[1..], bProps, aProps, bReq, aReq).value);
      assert names == [n] + names[1..];
    }
  }

  lemma {:induction false} OneCommonAtMost(warn: bool, lib: Library, pointer: string, name: string, before: Json,
                                           after: Json, was: bool, is_: bool)
    requires OneCommon(lib, pointer, name, before, after, was, is_).Some?
    ensures AtMost(warn, OneCommon(lib, pointer, name, before, after, was, is_).value)
       <==> (is_ ==> was) && Compatible(warn, lib, before, after)
    decreases Size(before) + Size(after), 3, 0
  {
    AtMostIffCompatible(warn, lib, PropPath(pointer, name), before, after);
    var req := RequiredFindings(pointer, name, was, is_);
    AtMostConcat(warn, req, NodeFindings(lib, PropPath(pointer, name), before, after).value);
    if is_ && !was { assert req[0].severity == Breaking; }
  }

  /** The name lists split by presence on the other side. */
  lemma NamesFacts(bp: seq<Field>, ap: seq<Field>)
    ensures forall n :: n in NamesIn(bp, ap) <==> Has(bp, n) && Has(ap, n)
    ensures forall n :: n in NamesNotIn(bp, ap) <==> Has(bp, n) && !Has(ap, n)
    ensures forall n :: n in NamesNotIn(ap, bp) <==> Has(ap, n) && !Has(bp, n)
  {
    forall n
      ensures n in NamesIn(bp, ap) <==> Has(bp, n) && Has(ap, n)
      ensures n in NamesNotIn(bp, ap) <==> Has(bp, n) && !Has(ap, n)
      ensures n in NamesNotIn(ap, bp) <==> Has(ap, n) && !Has(bp, n)
    {
      NamesInFacts(bp, ap, n);
      NamesInFacts(ap, bp, n);
    }
  }

  /** Without removed names there is no rename, and every added name is left over. */
  lemma MatchingWithoutRemoved(lib: Library, removed: seq<string>, added: seq<string>, bp: seq<Field>, ap: seq<Field>)
    ensures var m := MatchingOf(lib, removed, added, bp, ap);
            && (removed == [] <==> m.pairs == [] && m.leftoverRemoved == [])
            && (removed == [] ==> m.leftoverAdded == added)
  {
    var m := MatchingOf(lib, removed, added, bp, ap);
    if removed == [] {
      NoCandidatesWithoutNames(lib, removed, added, bp, ap);
      assert News(m.pairs) == {};
      UnusedFacts(added, {});
    } else {
      RenamesLoseNoName(lib, removed, added, bp, ap);
      assert removed[0] in removed;
      assert removed[0] in Olds(m.pairs) || removed[0] in m.leftoverRemoved;
    }
  }

  lemma NamesKeptByLists(bp: seq<Field>, ap: seq<Field>, ar: set<string>)
    ensures NamesKept(bp, ap, ar) <==> NamesNotIn(bp, ap) == [] && forall n | n in NamesNotIn(ap, bp) :: n !in ar
  {
    NamesFacts(bp, ap);
    var removed := NamesNotIn(bp, ap);
    if removed != [] {
      assert removed[0] in removed;
    } else {
      forall n | Has(bp, n) ensures Has(ap, n) {
        assert n !in removed;
      }
    }
  }

  /** The name findings are BREAKING unless no old name is gone and new names are optional. */
  lemma NamesAtMost(warn: bool, lib: Library, pointer: string, bp: seq<Field>, ap: seq<Field>, ar: set<string>)
    ensures AtMost(warn, NameFindings(lib, pointer, bp, ap, ar)) <==> NamesKept(bp, ap, ar)
  {
    var removed, added := NamesNotIn(bp, ap), NamesNotIn(ap, bp);
    var m := MatchingOf(lib, removed, added, bp, ap);
    MatchingWithoutRemoved(lib, removed, added, bp, ap);
    NamesKeptByLists(bp, ap, ar);
    RenamedAtMost(warn, pointer, m.pairs);
    RemovedAtMost(warn, pointer, m.leftoverRemoved);
    AddedAtMost(warn, pointer, m.leftoverAdded, ar);
    AtMostConcat(warn, RenamedFindings(pointer, m.pairs) + RemovedFindings(pointer, m.leftoverRemoved),
                   AddedFindings(pointer, m.leftoverAdded, ar));
    AtMostConcat(warn, RenamedFindings(pointer, m.pairs), RemovedFindings(pointer, m.leftoverRemoved));
  }

  lemma AdditionalAtMost(warn: bool, pointer: string, before: Json, after: Json)
    requires before.Obj? && after.Obj?
    ensures AtMost(warn, AdditionalFindings(pointer, before, after))
       <==> !(AllowsExtra(before) && AdditionalProperties(after) == Bool(false))
  {
    var fs := AdditionalFindings(pointer, before, after);
    if fs != [] {
      assert fs[0].severity == Breaking;
    }
  }

  /** The common properties, taken from the list of common names. */
  lemma {:induction false} AllCommonAtMost(warn: bool, lib: Library, pointer: string,
                                           bp: seq<Field>, ap: seq<Field>, br: set<string>, ar: set<string>)
    requires forall n | n in NamesIn(bp, ap) :: Has(bp, n) && Has(ap, n)
    requires CommonFindings(lib, pointer, NamesIn(bp, ap), bp, ap, br, ar).Some?
    ensures AtMost(warn, CommonFindings(lib, pointer, NamesIn(bp, ap), bp, ap, br, ar).value)
       <==> CommonKept(warn, lib, bp, ap, br, ar)
    decreases SizeFields(bp) + SizeFields(ap), 5, 0
  {
    NamesFacts(bp, ap);
    CommonAtMost(warn, lib, pointer, NamesIn(bp, ap), bp, ap, br, ar);
  }

  lemma {:induction false} PropertiesAtMost(warn: bool, lib: Library, pointer: string, before: Json, after: Json)
    requires before.Obj? && after.Obj?
    requires PropertyFindings(lib, pointer, before, after).Some?
    ensures AtMost(warn, PropertyFindings(lib, pointer, before, after).value
                   + AdditionalFindings(pointer, before, after))
       <==> PropertiesKept(warn, lib, before, after)
    decreases Size(before) + Size(after), 1, 0
  {
    var bp, ap := PropsOf(before).value, PropsOf(after).value;
    var br, ar := RequiredOf(before).value, RequiredOf(after).value;
    PropsAreSmaller(before);
    PropsAreSmaller(after);
    NamesFacts(bp, ap);
    var names := NameFindings(lib, pointer, bp, ap, ar);
    var common := CommonFindings(lib, pointer, NamesIn(bp, ap), bp, ap, br, ar).value;
    NamesAtMost(warn, lib, pointer, bp, ap, ar);
    AllCommonAtMost(warn, lib, pointer, bp, ap, br, ar);
    AdditionalAtMost(warn, pointer, before, after);
    AtMostConcat(warn, names, common);
    AtMostConcat(warn, names + common, AdditionalFindings(pointer, before, after));
  }

  lemma {:induction false} ObjectAtMost(warn: bool, lib: Library, pointer: string, before: Json, after: Json)
    requires before.Obj? && after.Obj? && ObjectFindings(lib, pointer, before, after).Some?
    ensures AtMost(warn, ObjectFindings(lib, pointer, before, after).value)
       <==> (ComparesProperties(before, after) ==> PropertiesKept(warn, lib, before, after))
    decreases Size(before) + Size(after), 2, 0
  {
    if ComparesProperties(before, after) {
      PropertiesAtMost(warn, lib, pointer, before, after);
    }
  }

  lemma {:induction false} ItemsAtMost(warn: bool, lib: Library, pointer: string, before: Json, after: Json)
    requires before.Obj? && after.Obj? && ItemFindings(lib, pointer, before, after).Some?
    ensures AtMost(warn, ItemFindings(lib, pointer, before, after).value) <==> ItemsKept(warn, lib, before, after)
    decreases Size(before) + Size(after), 2, 0
  {
    if ComparesItems(before, after) {
      GetIsSmaller(before, "items");
      GetIsSmaller(after, "items");
      AtMostIffCompatible(warn, lib, pointer + "/items", Get(before, "items"), Get(after, "items"));
    }
  }

  /** Whenever the diff returns, its report stays within the level exactly for schemas compatible at it. */
  lemma {:induction false} AtMostIffCompatible(warn: bool, lib: Library, pointer: string, before: Json, after: Json)
    requires NodeFindings(lib, pointer, before, after).Some?
    ensures AtMost(warn, NodeFindings(lib, pointer, before, after).value) <==> Compatible(warn, lib, before, after)
    decreases Size(before) + Size(after), 2, 1
  {
    var b, a := AsDict(before), AsDict(after);
    ScalarsAtMost(warn, lib, pointer, b, a);
    NodeParts(warn, lib, pointer, before, after);
    ObjectAtMost(warn, lib, pointer, b, a);
    ItemsAtMost(warn, lib, pointer, b, a);
  }

  /** A node's report is harmless when its parts are. */
  lemma NodeParts(warn: bool, lib: Library, pointer: string, before: Json, after: Json)
    requires NodeFindings(lib, pointer, before, after).Some?
    ensures var b, a := AsDict(before), AsDict(after);
      && EnumFindings(lib, pointer, b, a).Some? && ConstraintFindings(pointer, b, a).Some?
      && ObjectFindings(lib, pointer, b, a).Some? && ItemFindings(lib, pointer, b, a).Some?
      && (AtMost(warn, NodeFindings(lib, pointer, before, after).value)
          <==> && AtMost(warn, TypeFindings(pointer, b, a) + EnumFindings(lib, pointer, b, a).value
                           + ConstraintFindings(pointer, b, a).value + DefaultFindings(pointer, b, a))
               && AtMost(warn, ObjectFindings(lib, pointer, b, a).value)
               && AtMost(warn, ItemFindings(lib, pointer, b, a).value))
  {
    var b, a := AsDict(before), AsDict(after);
    var scalars := TypeFindings(pointer, b, a) + EnumFindings(lib, pointer, b, a).value
                   + ConstraintFindings(pointer, b, a).value + DefaultFindings(pointer, b, a);
    AtMostConcat(warn, scalars, ObjectFindings(lib, pointer, b, a).value);
    AtMostConcat(warn, scalars + ObjectFindings(lib, pointer, b, a).value, ItemFindings(lib, pointer, b, a).value);
  }
}
