/** The differ's loops, each proved to report exactly the findings of module Findings. */
module Differ {
  import opened Wrappers
  import opened Json
  import opened Schema
  import opened Renames
  import opened Findings

  /** `{_hashable(v) for v in (enum or [])}`, member by member. */
  method HashableSet(lib: Library, enum: Json) returns (keys: Option<set<HashKey>>)
    ensures keys == EnumKeys(lib, enum)
  {
    if !Truthy(enum) {
      return Some({});
    }
    var out: set<HashKey> := {};
    match enum {
      case Arr(items) =>
        for i := 0 to |items|
          invariant out == set j | 0 <= j < i :: Hashable(lib, items[j])
        {
          out := out + {Hashable(lib, items[i])};
        }
      case Str(s) =>
        for i := 0 to |s|
          invariant out == set j | 0 <= j < i :: StrKey([s[j]])
        {
          out := out + {StrKey([s[i]])};
        }
      case Obj(fields) =>
        for i := 0 to |fields|
          invariant out == set j | 0 <= j < i :: StrKey(fields[j].key)
        {
          out := out + {StrKey(fields[i].key)};
        }
      case _ =>
        return None;
    }
    return Some(out);
  }

  /** `_diff_enum`. */
  method DiffEnum(lib: Library, pointer: string, before: Json, after: Json) returns (r: Report)
    requires before.Obj? && after.Obj?
    ensures r == EnumFindings(lib, pointer, before, after)
  {
    var bEnum, aEnum := Get(before, "enum"), Get(after, "enum");
    if bEnum.Null? && aEnum.Null? {
      return Some([]);
    }
    var bSet :- HashableSet(lib, bEnum);
    var aSet :- HashableSet(lib, aEnum);
    var findings: seq<Finding> := [];
    var removed, added := bSet - aSet, aSet - bSet;
    if removed != {} {
      findings := findings + [Finding(Breaking, EnumValueRemoved, pointer + "/enum")];
    }
    if added != {} {
      findings := findings + [Finding(Info, EnumValueAdded, pointer + "/enum")];
    }
    assert findings == (if removed != {} then [Finding(Breaking, EnumValueRemoved, pointer + "/enum")] else [])
                       + (if added != {} then [Finding(Info, EnumValueAdded, pointer + "/enum")] else []);
    return Some(findings);
  }

  /** One of the two bound loops of `_diff_constraints`. */
  method DiffBounds(pointer: string, keys: seq<string>, upper: bool, before: Json, after: Json) returns (r: Report)
    requires before.Obj? && after.Obj?
    ensures r == AllBoundFindings(pointer, keys, upper, before, after)
  {
    var findings: seq<Finding> := [];
    assert keys[0..] == keys;
    ThenUnits([], AllBoundFindings(pointer, keys, upper, before, after));
    for i := 0 to |keys|
      invariant AllBoundFindings(pointer, keys, upper, before, after)
             == Then(findings, AllBoundFindings(pointer, keys[i..], upper, before, after))
    {
      var b, a := Get(before, keys[i]), Get(after, keys[i]);
      assert keys[i..][1..] == keys[i + 1..];
      ghost var found := BoundFindings(pointer, keys[i], upper, before, after);
      ghost var rest := AllBoundFindings(pointer, keys[i + 1..], upper, before, after);
      assert AllBoundFindings(pointer, keys[i..], upper, before, after)
          == if found.Some? then Then(found.value, rest) else None;
      if found.Some? {
        ThenAssociates(findings, found.value, rest);
        assert findings + [] == findings;
      }
      if Numeric(a).Some? {
        if !b.Null? && Numeric(b).None? {
          return None;
        }
        var tightened := b.Null? || if upper then Numeric(a).value < Numeric(b).value
          else Numeric(a).value > Numeric(b).value;
        if tightened {
          findings := findings + [Finding(Warn, ConstraintTightened, pointer + "/" + keys[i])];
        }
      }
    }
    ThenUnits(findings, None);
    return Some(findings);
  }

  /** The pattern and format loop of `_diff_constraints`. */
  method DiffTexts(pointer: string, keys: seq<string>, before: Json, after: Json) returns (findings: seq<Finding>)
    requires before.Obj? && after.Obj?
    ensures findings == TextFindings(pointer, keys, before, after)
  {
    findings := [];
    for i := 0 to |keys|
      invariant TextFindings(pointer, keys, before, after)
             == findings + TextFindings(pointer, keys[i..], before, after)
    {
      assert keys[i..][0] == keys[i] && keys[i..][1..] == keys[i + 1..];
      var b, a := Get(before, keys[i]), Get(after, keys[i]);
      ghost var unit := if !a.Null? && !PyEq(a, b) then [Finding(Warn, ConstraintTightened, pointer + "/" + keys[i])]
        else [];
      ghost var rest := TextFindings(pointer, keys[i + 1..], before, after);
      assert TextFindings(pointer, keys[i..], before, after) == unit + rest;
      Turn(findings, unit, rest);
      if !a.Null? && !PyEq(a, b) {
        findings := findings + [Finding(Warn, ConstraintTightened, pointer + "/" + keys[i])];
      }
    }
  }

  /** `_diff_constraints`. */
  method DiffConstraints(pointer: string, before: Json, after: Json) returns (r: Report)
    requires before.Obj? && after.Obj?
    ensures r == ConstraintFindings(pointer, before, after)
  {
    var upper :- DiffBounds(pointer, UPPER_BOUNDS, true, before, after);
    var lower :- DiffBounds(pointer, LOWER_BOUNDS, false, before, after);
    var texts := DiffTexts(pointer, TEXT_KEYS, before, after);
    return Some(upper + lower + texts);
  }

  /** `{k: v for k, v in (...).items() if isinstance(v, dict)}`. */
  method KeepDicts(fields: seq<Field>) returns (kept: seq<Field>)
    ensures kept == DictFields(fields)
  {
    kept := [];
    for i := 0 to |fields|
      invariant DictFields(fields) == kept + DictFields(fields[i..])
    {
      assert fields[i..][1..] == fields[i + 1..];
      if fields[i].value.Obj? {
        kept := kept + [fields[i]];
      }
    }
  }

  method ReadProps(schema: Json) returns (props: Option<seq<Field>>)
    requires schema.Obj?
    ensures props == PropsOf(schema)
  {
    var p := Get(schema, "properties");
    if !Truthy(p) {
      return Some([]);
    }
    if !p.Obj? {
      return None;
    }
    var kept := KeepDicts(p.fields);
    return Some(kept);
  }

  /** A loop that appends `unit` and still has `rest` to append. */
  lemma Turn<T>(done: seq<T>, unit: seq<T>, rest: seq<T>)
    ensures done + (unit + rest) == (done + unit) + rest && done + [] == done
  {
  }

  method KeepNames(props: seq<Field>, others: seq<Field>) returns (names: seq<string>)
    ensures names == NamesIn(props, others)
  {
    names := [];
    for i := 0 to |props|
      invariant NamesIn(props, others) == names + NamesIn(props[i..], others)
    {
      assert props[i..][0] == props[i] && props[i..][1..] == props[i + 1..];
      ghost var unit := if Has(others, props[i].key) then [props[i].key] else [];
      assert NamesIn(props[i..], others) == unit + NamesIn(props[i + 1..], others);
      Turn(names, unit, NamesIn(props[i + 1..], others));
      if Has(others, props[i].key) {
        names := names + [props[i].key];
      }
    }
  }

  method DropNames(props: seq<Field>, others: seq<Field>) returns (names: seq<string>)
    ensures names == NamesNotIn(props, others)
  {
    names := [];
    for i := 0 to |props|
      invariant NamesNotIn(props, others) == names + NamesNotIn(props[i..], others)
    {
      assert props[i..][0] == props[i] && props[i..][1..] == props[i + 1..];
      ghost var unit := if Has(others, props[i].key) then [] else [props[i].key];
      assert NamesNotIn(props[i..], others) == unit + NamesNotIn(props[i + 1..], others);
      Turn(names, unit, NamesNotIn(props[i + 1..], others));
      if !Has(others, props[i].key) {
        names := names + [props[i].key];
      }
    }
  }

  /** The three name lists of `_diff_properties`: removed, added, common. */
  method SplitNames(bProps: seq<Field>, aProps: seq<Field>)
    returns (removed: seq<string>, added: seq<string>, common: seq<string>)
    ensures removed == NamesNotIn(bProps, aProps)
    ensures added == NamesNotIn(aProps, bProps)
    ensures common == NamesIn(bProps, aProps)
  {
    removed := DropNames(bProps, aProps);
    added := DropNames(aProps, bProps);
    common := KeepNames(bProps, aProps);
  }

  /** The findings of `_diff_properties` about renamed, removed and added names. */
  method ReportNames(pointer: string, m: Matching, aReq: set<string>) returns (findings: seq<Finding>)
    ensures findings == RenamedFindings(pointer, m.pairs)
                        + RemovedFindings(pointer, m.leftoverRemoved)
                        + AddedFindings(pointer, m.leftoverAdded, aReq)
  {
    var renamed: seq<Finding>, removed: seq<Finding>, added: seq<Finding> := [], [], [];
    for i := 0 to |m.pairs|
      invariant RenamedFindings(pointer, m.pairs) == renamed + RenamedFindings(pointer, m.pairs[i..])
    {
      assert m.pairs[i..][1..] == m.pairs[i + 1..];
      renamed := renamed + [Finding(Breaking, ParamRenamed, PropPath(pointer, m.pairs[i].newName))];
    }
    for i := 0 to |m.leftoverRemoved|
      invariant RemovedFindings(pointer, m.leftoverRemoved) == removed
        + RemovedFindings(pointer, m.leftoverRemoved[i..])
    {
      assert m.leftoverRemoved[i..][1..] == m.leftoverRemoved[i + 1..];
      removed := removed + [Finding(Breaking, ParamRemoved, PropPath(pointer, m.leftoverRemoved[i]))];
    }
    for i := 0 to |m.leftoverAdded|
      invariant AddedFindings(pointer, m.leftoverAdded, aReq) == added
        + AddedFindings(pointer, m.leftoverAdded[i..], aReq)
    {
      assert m.leftoverAdded[i..][1..] == m.leftoverAdded[i + 1..];
      added := added + [AddedFinding(pointer, m.leftoverAdded[i], aReq)];
    }
    findings := renamed + removed + added;
  }

  /** One turn of the common-name loop of `_diff_properties`. */
  method DiffOneCommon(lib: Library, pointer: string, name: string, before: Json, after: Json, was: bool, now: bool)
    returns (r: Report)
    ensures r == OneCommon(lib, pointer, name, before, after, was, now)
    decreases Size(before) + Size(after), 3, 0
  {
    var findings: seq<Finding> := [];
    if now && !was {
      findings := [Finding(Breaking, RequiredAdded, PropPath(pointer, name))];
    } else if was && !now {
      findings := [Finding(Info, RequiredRemoved, PropPath(pointer, name))];
    }
    var node :- DiffNode(lib, PropPath(pointer, name), before, after);
    return Some(findings + node);
  }

  /** The common-name loop of `_diff_properties`. */
  method DiffCommon(lib: Library, pointer: string, names: seq<string>,
                    bProps: seq<Field>, aProps: seq<Field>, bReq: set<string>, aReq: set<string>)
    returns (r: Report)
    requires forall n | n in names :: Has(bProps, n) && Has(aProps, n)
    ensures r == CommonFindings(lib, pointer, names, bProps, aProps, bReq, aReq)
    decreases SizeFields(bProps) + SizeFields(aProps), 4, |names|
  {
    var findings: seq<Finding> := [];
    ThenUnits([], CommonFindings(lib, pointer, names, bProps, aProps, bReq, aReq));
    var rest := names;
    while rest != []
      invariant forall n | n in rest :: Has(bProps, n) && Has(aProps, n)
      invariant CommonFindings(lib, pointer, names, bProps, aProps, bReq, aReq)
             == Then(findings, CommonFindings(lib, pointer, rest, bProps, aProps, bReq, aReq))
      decreases |rest|
    {
      var n := rest[0];
      PropIsSmaller(bProps, n);
      PropIsSmaller(aProps, n);
      var one :- DiffOneCommon(lib, pointer, n, Prop(bProps, n), Prop(aProps, n), n in bReq, n in aReq);
      ThenAssociates(findings, one, CommonFindings(lib, pointer, rest[1..], bProps, aProps, bReq, aReq));
      findings := findings + one;
      rest := rest[1..];
    }
    ThenUnits(findings, None);
    return Some(findings);
  }

  /** `_diff_properties`. */
  method DiffProperties(lib: Library, pointer: string, before: Json, after: Json) returns (r: Report)
    requires before.Obj? && after.Obj?
    ensures r == PropertyFindings(lib, pointer, before, after)
    decreases Size(before) + Size(after), 1, 0
  {
    var bProps :- ReadProps(before);
    var aProps :- ReadProps(after);
    var bReq :- RequiredOf(before);
    var aReq :- RequiredOf(after);
    var removed, added, common := SplitNames(bProps, aProps);
    var m := MatchRenames(lib, removed, added, bProps, aProps);
    var findings := ReportNames(pointer, m, aReq);
    PropsAreSmaller(before);
    PropsAreSmaller(after);
    forall n | n in common ensures Has(bProps, n) && Has(aProps, n) {
      NamesInFacts(bProps, aProps, n);
    }
    var rest :- DiffCommon(lib, pointer, common, bProps, aProps, bReq, aReq);
    return Some(findings + rest);
  }

  /** The object part of `_diff_node`. */
  method DiffObject(lib: Library, pointer: string, before: Json, after: Json) returns (r: Report)
    requires before.Obj? && after.Obj?
    ensures r == ObjectFindings(lib, pointer, before, after)
    decreases Size(before) + Size(after), 2, 0
  {
    if !ComparesProperties(before, after) {
      return Some([]);
    }
    var props :- DiffProperties(lib, pointer, before, after);
    return Some(props + AdditionalFindings(pointer, before, after));
  }

  /** The array part of `_diff_node`. */
  method DiffItems(lib: Library, pointer: string, before: Json, after: Json) returns (r: Report)
    requires before.Obj? && after.Obj?
    ensures r == ItemFindings(lib, pointer, before, after)
    decreases Size(before) + Size(after), 2, 0
  {
    if !ComparesItems(before, after) {
      return Some([]);
    }
    GetIsSmaller(before, "items");
    GetIsSmaller(after, "items");
    r := DiffNode(lib, pointer + "/items", Get(before, "items"), Get(after, "items"));
  }

  /** `_diff_node`. */
  method DiffNode(lib: Library, pointer: string, before: Json, after: Json) returns (r: Report)
    ensures r == NodeFindings(lib, pointer, before, after)
    decreases Size(before) + Size(after), 2, 1
  {
    var b, a := AsDict(before), AsDict(after);
    var findings := TypeFindings(pointer, b, a);
    var enums :- DiffEnum(lib, pointer, b, a);
    var constraints :- DiffConstraints(pointer, b, a);
    findings := findings + enums + constraints + DefaultFindings(pointer, b, a);
    var object_ :- DiffObject(lib, pointer, b, a);
    findings := findings + object_;
    var items :- DiffItems(lib, pointer, b, a);
    return Some(findings + items);
  }
}
