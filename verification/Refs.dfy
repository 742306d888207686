/** Local `$ref` expansion: JSON pointers, the recursive expansion, and what is left afterwards. */
module Refs {
  import opened Wrappers
  import opened Json
  import opened Schema

  // ----- JSON pointers -----

  /** `_json_pointer_get` finds a value, finds nothing, or raises on a bad negative index. */
  datatype Target = Found(value: Json) | NotFound | Raises

  function Split(s: string, sep: char): (parts: seq<string>)
    ensures |parts| >= 1
  {
    if s == "" then [""]
    else
      var rest := Split(s[1..], sep);
      if s[0] == sep then [""] + rest else [[s[0]] + rest[0]] + rest[1..]
  }

  /** `s.replace("~c", by)` for a one-character code. */
  function ReplaceTilde(s: string, code: char, plain: char): string {
    if |s| < 2 then s
    else if s[0] == '~' && s[1] == code then [plain] + ReplaceTilde(s[2..], code, plain)
    else [s[0]] + ReplaceTilde(s[1..], code, plain)
  }

  function Unescape(lib: Library, raw: string): string {
    ReplaceTilde(ReplaceTilde(lib.unquote(raw), '1', '/'), '0', '~')
  }

  function StripMinus(s: string): string {
    if s != "" && s[0] == '-' then StripMinus(s[1..]) else s
  }

  predicate IsDigits(s: string) {
    s != "" && forall i | 0 <= i < |s| :: '0' <= s[i] <= '9'
  }

  function DecimalValue(s: string): nat
    requires s == "" || IsDigits(s)
  {
    if s == "" then 0
    else DecimalValue(s[..|s| - 1]) * 10 + (s[|s| - 1] as int - '0' as int)
  }

  /** `node[int(part)]` guarded by `int(part) < len(node)`: Python's negative indices count from the
      end, and raise when they reach before the start or have more than one minus sign. */
  function Index(items: seq<Json>, part: string): Target
    requires IsDigits(StripMinus(part))
  {
    var minuses := |part| - |StripMinus(part)|;
    var n := DecimalValue(StripMinus(part));
    if minuses > 1 then Raises
    else if minuses == 0 || n == 0 then if n < |items| then Found(items[n]) else NotFound
    else if n <= |items| then Found(items[|items| - n])
    else Raises
  }

  function Step(lib: Library, node: Json, raw: string): Target {
    var part := Unescape(lib, raw);
    if node.Obj? && Has(node.fields, part) then Found(Lookup(node.fields, part).value)
    else if node.Arr? && IsDigits(StripMinus(part)) then Index(node.items, part)
    else NotFound
  }

  function Walk(lib: Library, node: Json, parts: seq<string>): Target {
    if parts == [] then Found(node)
    else
      var t := Step(lib, node, parts[0]);
      if t.Found? then Walk(lib, t.value, parts[1..]) else t
  }

  function Pointee(lib: Library, root: Json, pointer: string): Target {
    if pointer == "#" || pointer == "#/" then Found(root)
    else if !("#/" <= pointer) then NotFound
    else Walk(lib, root, Split(pointer[2..], '/'))
  }

  /** `_json_pointer_get`. */
  method JsonPointerGet(lib: Library, root: Json, pointer: string) returns (t: Target)
    ensures t == Pointee(lib, root, pointer)
  {
    if pointer == "#" || pointer == "#/" {
      return Found(root);
    }
    if !("#/" <= pointer) {
      return NotFound;
    }
    var node := root;
    var parts := Split(pointer[2..], '/');
    for i := 0 to |parts|
      invariant Walk(lib, root, parts) == Walk(lib, node, parts[i..])
    {
      assert parts[i..][1..] == parts[i + 1..];
      t := Step(lib, node, parts[i]);
      if !t.Found? {
        return t;
      }
      node := t.value;
    }
    return Found(node);
  }

  // ----- expansion -----

  /** The local pointer of a dict, if its `$ref` is a string that starts with `#`. */
  function LocalRef(fields: seq<Field>): Option<string> {
    var r := Lookup(fields, "$ref");
    if r.Some? && r.value.Str? && r.value.s != "" && r.value.s[0] == '#' then Some(r.value.s) else None
  }

  /** Every local pointer that occurs anywhere in a value. */
  function AllRefs(v: Json): set<string>
    decreases Size(v), 0
  {
    match v
    case Arr(items) => ItemRefs(items)
    case Obj(fields) => FieldRefs(fields) + (if LocalRef(fields).Some? then {LocalRef(fields).value} else {})
    case _ => {}
  }

  function ItemRefs(items: seq<Json>): set<string>
    decreases SizeItems(items), 1
  {
    if items == [] then {} else AllRefs(items[0]) + ItemRefs(items[1..])
  }

  function FieldRefs(fields: seq<Field>): set<string>
    decreases SizeFields(fields), 1
  {
    if fields == [] then {} else AllRefs(fields[0].value) + FieldRefs(fields[1..])
  }

  lemma {:induction false} FieldRefsMember(fields: seq<Field>, f: Field)
    requires f in fields
    ensures AllRefs(f.value) <= FieldRefs(fields)
  {
    if f != fields[0] {
      FieldRefsMember(fields[1..], f);
    }
  }

  lemma {:induction false} ItemRefsMember(items: seq<Json>, i: nat)
    requires i < |items|
    ensures AllRefs(items[i]) <= ItemRefs(items)
  {
    if i > 0 {
      ItemRefsMember(items[1..], i - 1);
    }
  }

  lemma {:induction false} WalkRefs(lib: Library, node: Json, parts: seq<string>)
    requires Walk(lib, node, parts).Found?
    ensures AllRefs(Walk(lib, node, parts).value) <= AllRefs(node)
  {
    if parts != [] {
      var t := Step(lib, node, parts[0]);
      StepChild(lib, node, parts[0]);
      if node.Obj? {
        FieldRefsMember(node.fields, Field(Unescape(lib, parts[0]), t.value));
      } else {
        var i :| 0 <= i < |node.items| && t.value == node.items[i];
        ItemRefsMember(node.items, i);
      }
      WalkRefs(lib, t.value, parts[1..]);
    }
  }

  /** One pointer step leads to a child. */
  lemma StepChild(lib: Library, node: Json, raw: string)
    requires Step(lib, node, raw).Found?
    ensures var v := Step(lib, node, raw).value;
            || (node.Obj? && Field(Unescape(lib, raw), v) in node.fields)
            || (node.Arr? && exists i | 0 <= i < |node.items| :: v == node.items[i])
  {
  }

  lemma PointeeRefs(lib: Library, root: Json, pointer: string)
    requires Pointee(lib, root, pointer).Found?
    ensures AllRefs(Pointee(lib, root, pointer).value) <= AllRefs(root)
  {
    if "#/" <= pointer && pointer != "#/" {
      WalkRefs(lib, root, Split(pointer[2..], '/'));
    }
  }

  /** `d[key] = value`. */
  function Put(fields: seq<Field>, f: Field): seq<Field> {
    if fields == [] then [f]
    else if fields[0].key == f.key then [f] + fields[1..]
    else [fields[0]] + Put(fields[1..], f)
  }

  /** `{**a, **b}`. */
  function Merge(a: seq<Field>, b: seq<Field>): seq<Field> {
    if b == [] then a else Put(Merge(a, b[..|b| - 1]), b[|b| - 1])
  }

  function WithoutRef(fields: seq<Field>): seq<Field> {
    if fields == [] then []
    else (if fields[0].key == "$ref" then [] else [fields[0]]) + WithoutRef(fields[1..])
  }

  /** What is still expandable: the pointers of `node` and `root` that are not being expanded. */
  function Unseen(node: set<string>, root: Json, seen: set<string>): set<string> {
    (node + AllRefs(root)) - seen
  }

  /** `resolve_local_refs`; None when a pointer lookup raises. */
  function Resolve(lib: Library, node: Json, root: Json, seen: set<string>): Option<Json>
    decreases Unseen(AllRefs(node), root, seen), Size(node), 0
  {
    match node
    case Obj(fields) =>
      var ref := LocalRef(fields);
      if ref.None? then
        assert FieldRefs(fields) <= AllRefs(node);
        var out :- ResolveFields(lib, fields, root, seen);
        Some(Obj(out))
      else if ref.value in seen then Some(EmptyObj)
      else
        var target := Pointee(lib, root, ref.value);
        if target.Raises? then None
        else if target.NotFound? || target.value.Null? then Some(node)
        else
          PointeeRefs(lib, root, ref.value);
          assert ref.value in Unseen(AllRefs(node), root, seen);
          assert ref.value !in Unseen(AllRefs(target.value), root, seen + {ref.value});
          var resolved :- Resolve(lib, target.value, root, seen + {ref.value});
          var base := if resolved.Obj? then resolved.fields else [];
          Some(Obj(Merge(base, WithoutRef(fields))))
    case Arr(items) =>
      var out :- ResolveItems(lib, items, root, seen);
      Some(Arr(out))
    case _ => Some(node)
  }

  function ResolveFields(lib: Library, fields: seq<Field>, root: Json, seen: set<string>): Option<seq<Field>>
    decreases Unseen(FieldRefs(fields), root, seen), SizeFields(fields), 1
  {
    if fields == [] then Some([])
    else
      var v :- Resolve(lib, fields[0].value, root, seen);
      var rest :- ResolveFields(lib, fields[1..], root, seen);
      Some([Field(fields[0].key, v)] + rest)
  }

  function ResolveItems(lib: Library, items: seq<Json>, root: Json, seen: set<string>): Option<seq<Json>>
    decreases Unseen(ItemRefs(items), root, seen), SizeItems(items), 1
  {
    if items == [] then Some([])
    else
      var v :- Resolve(lib, items[0], root, seen);
      var rest :- ResolveItems(lib, items[1..], root, seen);
      Some([v] + rest)
  }

  // ----- what is left -----

  /** A dict whose local pointer leads to a value of `root`. */
  predicate Resolvable(lib: Library, root: Json, fields: seq<Field>) {
    var ref := LocalRef(fields);
    ref.Some? && Pointee(lib, root, ref.value).Found? && !Pointee(lib, root, ref.value).value.Null?
  }

  /** Somewhere inside `v` a local `$ref` is left that does resolve in `root`. */
  ghost predicate Unexpanded(lib: Library, v: Json, root: Json) {
    match v
    case Obj(fields) =>
      || Resolvable(lib, root, fields)
      || exists i | 0 <= i < |fields| :: Unexpanded(lib, fields[i].value, root)
    case Arr(items) => exists i | 0 <= i < |items| :: Unexpanded(lib, items[i], root)
    case _ => false
  }

  /** The siblings of a local `$ref` hold no resolvable local `$ref`, everywhere in `v`.  A `$ref`
      that stands alone in its dict meets this. */
  ghost predicate CleanSiblings(lib: Library, v: Json, root: Json) {
    match v
    case Obj(fields) =>
      && (forall i | 0 <= i < |fields| :: CleanSiblings(lib, fields[i].value, root))
      && (LocalRef(fields).Some? ==>
            forall i | 0 <= i < |fields| :: fields[i].key != "$ref" ==> !Unexpanded(lib, fields[i].value, root))
    case Arr(items) => forall i | 0 <= i < |items| :: CleanSiblings(lib, items[i], root)
    case _ => true
  }

  lemma {:induction false} WalkClean(lib: Library, node: Json, parts: seq<string>, root: Json)
    requires CleanSiblings(lib, node, root) && WellFormed(node) && Walk(lib, node, parts).Found?
    ensures var v := Walk(lib, node, parts).value; CleanSiblings(lib, v, root) && WellFormed(v)
  {
    if parts != [] {
      StepChild(lib, node, parts[0]);
      var t := Step(lib, node, parts[0]);
      if node.Obj? {
        var i :| 0 <= i < |node.fields| && node.fields[i] == Field(Unescape(lib, parts[0]), t.value);
        assert CleanSiblings(lib, node.fields[i].value, root) && WellFormed(node.fields[i].value);
      }
      WalkClean(lib, t.value, parts[1..], root);
    }
  }

  lemma PointeeClean(lib: Library, root: Json, pointer: string)
    requires CleanSiblings(lib, root, root) && WellFormed(root) && Pointee(lib, root, pointer).Found?
    ensures var v := Pointee(lib, root, pointer).value; CleanSiblings(lib, v, root) && WellFormed(v)
  {
    if "#/" <= pointer && pointer != "#/" {
      WalkClean(lib, root, Split(pointer[2..], '/'), root);
    }
  }

  lemma {:induction false} PutMembers(fields: seq<Field>, f: Field, g: Field)
    ensures g in Put(fields, f) ==> g == f || g in fields
    ensures f in Put(fields, f)
    ensures g in fields && g.key != f.key ==> g in Put(fields, f)
    ensures g.key != f.key ==> Lookup(Put(fields, f), g.key) == Lookup(fields, g.key)
  {
    if fields != [] && fields[0].key != f.key {
      PutMembers(fields[1..], f, g);
    }
  }

  lemma {:induction false} MergeMembers(a: seq<Field>, b: seq<Field>, g: Field)
    ensures g in Merge(a, b) ==> g in a || g in b
    ensures g in b && DistinctKeys(b) ==> g in Merge(a, b)
    ensures (forall f | f in b :: f.key != g.key) ==> Lookup(Merge(a, b), g.key) == Lookup(a, g.key)
  {
    if b != [] {
      var front, last := b[..|b| - 1], b[|b| - 1];
      MergeMembers(a, front, g);
      PutMembers(Merge(a, front), last, g);
      assert b == front + [last];
    }
  }

  lemma {:induction false} WithoutRefMembers(fields: seq<Field>, g: Field)
    ensures g in WithoutRef(fields) <==> g in fields && g.key != "$ref"
  {
    if fields != [] {
      WithoutRefMembers(fields[1..], g);
    }
  }

  lemma {:induction false} WithoutRefDistinct(fields: seq<Field>)
    requires DistinctKeys(fields)
    ensures DistinctKeys(WithoutRef(fields))
  {
    if fields != [] {
      WithoutRefDistinct(fields[1..]);
      var rest := WithoutRef(fields[1..]);
      forall j | 0 <= j < |rest| ensures rest[j].key != fields[0].key {
        WithoutRefMembers(fields[1..], rest[j]);
        assert rest[j] in fields[1..];
      }
    }
  }

  /** The merged dict keeps the expansion's `$ref` and is clean when both parts are. */
  lemma MergeClean(lib: Library, root: Json, base: seq<Field>, siblings: seq<Field>)
    requires !Unexpanded(lib, Obj(base), root)
    requires forall i | 0 <= i < |siblings| :: siblings[i].key != "$ref" && !Unexpanded(lib, siblings[i].value, root)
    ensures !Unexpanded(lib, Obj(Merge(base, siblings)), root)
  {
    var m := Merge(base, siblings);
    MergeMembers(base, siblings, Field("$ref", Null));
    assert LocalRef(m) == LocalRef(base);
    forall i | 0 <= i < |m| ensures !Unexpanded(lib, m[i].value, root) {
      MergeMembers(base, siblings, m[i]);
      assert m[i] in m;
    }
  }

  /** In a dict with a local pointer, the only `$ref` entry is that string. */
  lemma RefFieldIsString(fields: seq<Field>, f: Field)
    requires DistinctKeys(fields) && LocalRef(fields).Some? && f in fields && f.key == "$ref"
    ensures f.value.Str?
  {
    LookupIsUnique(fields, f);
  }

  /** Expansion keeps strings as they are and makes no new ones. */
  lemma ResolveKeepsStrings(lib: Library, v: Json, root: Json, seen: set<string>)
    requires Resolve(lib, v, root, seen).Some?
    ensures v.Str? ==> Resolve(lib, v, root, seen).value == v
    ensures !v.Str? ==> !Resolve(lib, v, root, seen).value.Str?
  {
  }

  lemma {:induction false} FieldsKeepRef(lib: Library, fields: seq<Field>, root: Json, seen: set<string>)
    requires ResolveFields(lib, fields, root, seen).Some?
    ensures LocalRef(ResolveFields(lib, fields, root, seen).value) == LocalRef(fields)
    decreases |fields|
  {
    if fields != [] {
      ResolveKeepsStrings(lib, fields[0].value, root, seen);
      FieldsKeepRef(lib, fields[1..], root, seen);
    }
  }

  ghost predicate NoneUnexpanded(lib: Library, fields: seq<Field>, root: Json) {
    forall i | 0 <= i < |fields| :: !Unexpanded(lib, fields[i].value, root)
  }

  lemma MergedIsClean(lib: Library, root: Json, fields: seq<Field>, resolved: Json)
    requires !Unexpanded(lib, resolved, root)
    requires CleanSiblings(lib, Obj(fields), root) && LocalRef(fields).Some?
    ensures !Unexpanded(lib, Obj(Merge(if resolved.Obj? then resolved.fields else [], WithoutRef(fields))), root)
  {
    var siblings := WithoutRef(fields);
    forall i | 0 <= i < |siblings| ensures siblings[i].key != "$ref" && !Unexpanded(lib, siblings[i].value, root) {
      WithoutRefMembers(fields, siblings[i]);
      var j :| 0 <= j < |fields| && fields[j] == siblings[i];
    }
    MergeClean(lib, root, if resolved.Obj? then resolved.fields else [], siblings);
  }

  lemma UnresolvableIsClean(lib: Library, root: Json, fields: seq<Field>)
    requires WellFormed(Obj(fields)) && CleanSiblings(lib, Obj(fields), root)
    requires LocalRef(fields).Some? && !Resolvable(lib, root, fields)
    ensures !Unexpanded(lib, Obj(fields), root)
  {
    forall i | 0 <= i < |fields| ensures !Unexpanded(lib, fields[i].value, root) {
      if fields[i].key == "$ref" {
        RefFieldIsString(fields, fields[i]);
      }
    }
  }

  /** Clean siblings everywhere leave nothing to expand. */
  lemma {:induction false} CleanExpandsFully(lib: Library, node: Json, root: Json, seen: set<string>)
    requires CleanSiblings(lib, node, root) && CleanSiblings(lib, root, root)
    requires WellFormed(node) && WellFormed(root)
    requires Resolve(lib, node, root, seen).Some?
    ensures !Unexpanded(lib, Resolve(lib, node, root, seen).value, root)
    decreases Unseen(AllRefs(node), root, seen), Size(node), 0
  {
    match node
    case Obj(fields) =>
      var ref := LocalRef(fields);
      if ref.None? {
        FieldsExpandFully(lib, fields, root, seen);
        FieldsKeepRef(lib, fields, root, seen);
      } else if ref.value !in seen {
        var target := Pointee(lib, root, ref.value);
        if target.NotFound? || target.value.Null? {
          UnresolvableIsClean(lib, root, fields);
        } else {
          PointeeRefs(lib, root, ref.value);
          assert ref.value in Unseen(AllRefs(node), root, seen);
          assert ref.value !in Unseen(AllRefs(target.value), root, seen + {ref.value});
          PointeeClean(lib, root, ref.value);
          CleanExpandsFully(lib, target.value, root, seen + {ref.value});
          MergedIsClean(lib, root, fields, Resolve(lib, target.value, root, seen + {ref.value}).value);
        }
      }
    case Arr(items) =>
      ItemsExpandFully(lib, items, root, seen);
    case _ =>
  }

  lemma {:induction false} FieldsExpandFully(lib: Library, fields: seq<Field>, root: Json, seen: set<string>)
    requires forall i | 0 <= i < |fields| :: CleanSiblings(lib, fields[i].value, root) && WellFormed(fields[i].value)
    requires CleanSiblings(lib, root, root) && WellFormed(root)
    requires ResolveFields(lib, fields, root, seen).Some?
    ensures NoneUnexpanded(lib, ResolveFields(lib, fields, root, seen).value, root)
    decreases Unseen(FieldRefs(fields), root, seen), SizeFields(fields), 1
  {
    if fields != [] {
      CleanExpandsFully(lib, fields[0].value, root, seen);
      FieldsExpandFully(lib, fields[1..], root, seen);
    }
  }

  lemma {:induction false} ItemsExpandFully(lib: Library, items: seq<Json>, root: Json, seen: set<string>)
    requires forall i | 0 <= i < |items| :: CleanSiblings(lib, items[i], root) && WellFormed(items[i])
    requires CleanSiblings(lib, root, root) && WellFormed(root)
    requires ResolveItems(lib, items, root, seen).Some?
    ensures var r := ResolveItems(lib, items, root, seen).value;
            forall i | 0 <= i < |r| :: !Unexpanded(lib, r[i], root)
    decreases Unseen(ItemRefs(items), root, seen), SizeItems(items), 1
  {
    if items != [] {
      CleanExpandsFully(lib, items[0], root, seen);
      ItemsExpandFully(lib, items[1..], root, seen);
    }
  }

  // ----- and nothing less than clean siblings does -----

  /** Unclean siblings mean that something resolvable is in there. */
  lemma {:induction false} UncleanIsUnexpanded(lib: Library, v: Json, root: Json)
    requires !CleanSiblings(lib, v, root)
    ensures Unexpanded(lib, v, root)
  {
    match v
    case Obj(fields) =>
      if i :| 0 <= i < |fields| && !CleanSiblings(lib, fields[i].value, root) {
        UncleanIsUnexpanded(lib, fields[i].value, root);
      }
    case Arr(items) =>
      var i :| 0 <= i < |items| && !CleanSiblings(lib, items[i], root);
      UncleanIsUnexpanded(lib, items[i], root);
    case _ =>
  }

  /** A dict with a local pointer and unclean siblings keeps an unexpanded sibling. */
  lemma UncleanSibling(lib: Library, root: Json, fields: seq<Field>) returns (i: nat)
    requires WellFormed(Obj(fields)) && LocalRef(fields).Some? && !CleanSiblings(lib, Obj(fields), root)
    ensures i < |fields| && fields[i].key != "$ref" && Unexpanded(lib, fields[i].value, root)
  {
    if j :| 0 <= j < |fields| && fields[j].key != "$ref" && Unexpanded(lib, fields[j].value, root) {
      i := j;
    } else {
      i :| 0 <= i < |fields| && !CleanSiblings(lib, fields[i].value, root);
      UncleanIsUnexpanded(lib, fields[i].value, root);
      if fields[i].key == "$ref" {
        RefFieldIsString(fields, fields[i]);
      }
    }
  }

  lemma {:induction false} UncleanStaysUnexpanded(lib: Library, node: Json, root: Json)
    requires WellFormed(node) && !CleanSiblings(lib, node, root)
    requires Resolve(lib, node, root, {}).Some?
    ensures Unexpanded(lib, Resolve(lib, node, root, {}).value, root)
    decreases Size(node), 0
  {
    match node
    case Obj(fields) =>
      var ref := LocalRef(fields);
      if ref.None? {
        var i :| 0 <= i < |fields| && !CleanSiblings(lib, fields[i].value, root);
        FieldStaysUnexpanded(lib, fields, root, i);
      } else {
        var i := UncleanSibling(lib, root, fields);
        var target := Pointee(lib, root, ref.value);
        if target.Found? && !target.value.Null? {
          var resolved := Resolve(lib, target.value, root, {} + {ref.value}).value;
          var base := if resolved.Obj? then resolved.fields else [];
          WithoutRefMembers(fields, fields[i]);
          WithoutRefDistinct(fields);
          MergeMembers(base, WithoutRef(fields), fields[i]);
          var m := Merge(base, WithoutRef(fields));
          var j :| 0 <= j < |m| && m[j] == fields[i];
          assert Unexpanded(lib, m[j].value, root);
        }
      }
    case Arr(items) =>
      var i :| 0 <= i < |items| && !CleanSiblings(lib, items[i], root);
      ItemStaysUnexpanded(lib, items, root, i);
    case _ =>
  }

  lemma {:induction false} FieldStaysUnexpanded(lib: Library, fields: seq<Field>, root: Json, i: nat)
    requires i < |fields| && WellFormed(fields[i].value) && !CleanSiblings(lib, fields[i].value, root)
    requires ResolveFields(lib, fields, root, {}).Some?
    ensures !NoneUnexpanded(lib, ResolveFields(lib, fields, root, {}).value, root)
    decreases SizeFields(fields), 1
  {
    var r := ResolveFields(lib, fields, root, {}).value;
    if i == 0 {
      UncleanStaysUnexpanded(lib, fields[0].value, root);
      assert Unexpanded(lib, r[0].value, root);
    } else {
      FieldStaysUnexpanded(lib, fields[1..], root, i - 1);
      var rest := ResolveFields(lib, fields[1..], root, {}).value;
      var j :| 0 <= j < |rest| && Unexpanded(lib, rest[j].value, root);
      assert r[j + 1] == rest[j];
    }
  }

  lemma {:induction false} ItemStaysUnexpanded(lib: Library, items: seq<Json>, root: Json, i: nat)
    requires i < |items| && WellFormed(items[i]) && !CleanSiblings(lib, items[i], root)
    requires ResolveItems(lib, items, root, {}).Some?
    ensures var r := ResolveItems(lib, items, root, {}).value;
            exists j :: 0 <= j < |r| && Unexpanded(lib, r[j], root)
    decreases SizeItems(items), 1
  {
    var r := ResolveItems(lib, items, root, {}).value;
    if i == 0 {
      UncleanStaysUnexpanded(lib, items[0], root);
      assert Unexpanded(lib, r[0], root);
    } else {
      var tail := items[1..];
      var rest := ResolveItems(lib, tail, root, {}).value;
      assert r[1..] == rest;
      ItemStaysUnexpanded(lib, tail, root, i - 1);
      var j := UnexpandedIn(lib, rest, root);
      assert r[j + 1] == rest[j];
    }
  }

  lemma UnexpandedIn(lib: Library, items: seq<Json>, root: Json) returns (j: nat)
    requires exists j :: 0 <= j < |items| && Unexpanded(lib, items[j], root)
    ensures j < |items| && Unexpanded(lib, items[j], root)
  {
    j :| 0 <= j < |items| && Unexpanded(lib, items[j], root);
  }

  /** Expanding a schema against itself leaves a resolvable local `$ref` exactly when some local
      `$ref` of the schema has a sibling that holds one. */
  lemma ExpansionIsComplete(lib: Library, schema: Json)
    requires WellFormed(schema) && Resolve(lib, schema, schema, {}).Some?
    ensures !Unexpanded(lib, Resolve(lib, schema, schema, {}).value, schema) <==> CleanSiblings(lib, schema, schema)
  {
    if CleanSiblings(lib, schema, schema) {
      CleanExpandsFully(lib, schema, schema, {});
    } else {
      UncleanStaysUnexpanded(lib, schema, schema);
    }
  }

  // ----- a second expansion changes nothing -----

  lemma {:induction false} ExpandedIsFixed(lib: Library, v: Json, root: Json)
    requires !Unexpanded(lib, v, root) && Resolve(lib, v, root, {}).Some?
    ensures Resolve(lib, v, root, {}).value == v
    decreases Size(v), 0
  {
    match v
    case Obj(fields) =>
      if LocalRef(fields).None? {
        FieldsAreFixed(lib, fields, root);
      }
    case Arr(items) => ItemsAreFixed(lib, items, root);
    case _ =>
  }

  lemma {:induction false} FieldsAreFixed(lib: Library, fields: seq<Field>, root: Json)
    requires NoneUnexpanded(lib, fields, root) && ResolveFields(lib, fields, root, {}).Some?
    ensures ResolveFields(lib, fields, root, {}).value == fields
    decreases SizeFields(fields), 1
  {
    if fields != [] {
      ExpandedIsFixed(lib, fields[0].value, root);
      FieldsAreFixed(lib, fields[1..], root);
    }
  }

  lemma {:induction false} ItemsAreFixed(lib: Library, items: seq<Json>, root: Json)
    requires (forall i | 0 <= i < |items| :: !Unexpanded(lib, items[i], root))
      && ResolveItems(lib, items, root, {}).Some?
    ensures ResolveItems(lib, items, root, {}).value == items
    decreases SizeItems(items), 1
  {
    if items != [] {
      ExpandedIsFixed(lib, items[0], root);
      ItemsAreFixed(lib, items[1..], root);
    }
  }

  const SELF_REF := Field("$ref", Str("#"))
  const SIBLINGS := [Field("x", Obj([SELF_REF]))]
  const SIBLING_ROOT := Obj([SELF_REF] + SIBLINGS)

  /** A sibling's `$ref` is copied as it stands: the smallest schema that is not fully expanded. */
  lemma SiblingRefSurvives(lib: Library)
    ensures Resolve(lib, SIBLING_ROOT, SIBLING_ROOT, {}) == Some(Obj(SIBLINGS))
    ensures Unexpanded(lib, Obj(SIBLINGS), SIBLING_ROOT)
  {
    SiblingsCopied();
    var fields := SIBLING_ROOT.fields;
    assert LocalRef(fields) == Some("#");
    assert Resolve(lib, SIBLING_ROOT, SIBLING_ROOT, {} + {"#"}) == Some(EmptyObj);
    assert Resolvable(lib, SIBLING_ROOT, [SELF_REF]);
    assert Unexpanded(lib, SIBLINGS[0].value, SIBLING_ROOT);
  }

  lemma SiblingsCopied()
    ensures WithoutRef(SIBLING_ROOT.fields) == SIBLINGS && Merge([], SIBLINGS) == SIBLINGS
  {
    var fields := SIBLING_ROOT.fields;
    assert fields[1..] == SIBLINGS && SIBLINGS[1..] == [] && SIBLINGS[..0] == [];
    assert WithoutRef(SIBLINGS) == SIBLINGS + WithoutRef([]);
    assert Merge([], SIBLINGS) == Put(Merge([], []), SIBLINGS[0]);
  }
}
