/** What the differ reads off a single schema dict, and the Python library calls it relies on. */
module Schema {
  import opened Wrappers
  import opened Json

  /** Library functions of the source whose code is not modelled: difflib's ratio, `str.lower`,
      `repr`, `str` of a non-string, and `urllib.parse.unquote`. */
  datatype Library = Library(
    ratio: (string, string) -> real,
    lower: string -> string,
    repr: Json -> string,
    str: Json -> string,
    unquote: string -> string)

  function StringsOf(items: seq<Json>): set<string> {
    set i | 0 <= i < |items| && items[i].Str? :: items[i].s
  }

  /** `_type_set`: the stated types, or the type implied by `properties` or `items`. */
  function TypeSet(schema: Json): set<string>
    requires schema.Obj?
  {
    match Get(schema, "type")
    case Str(t) => {t}
    case Arr(ts) => StringsOf(ts)
    case _ =>
      if Has(schema.fields, "properties") then {"object"}
      else if Has(schema.fields, "items") then {"array"}
      else {}
  }

  /** `str(schema.get("description") or "")`. */
  function DescriptionText(lib: Library, schema: Json): string
    requires schema.Obj?
  {
    var d := Get(schema, "description");
    if !Truthy(d) then "" else if d.Str? then d.s else lib.str(d)
  }

  /** What a value becomes as a member of a Python set, after `_hashable`: bools are numbers,
      and lists and dicts are replaced by the string `repr` prints. */
  datatype HashKey = NoneKey | NumKey(n: real) | StrKey(s: string)

  function Hashable(lib: Library, v: Json): HashKey {
    match v
    case Null => NoneKey
    case Bool(b) => NumKey(if b then 1.0 else 0.0)
    case Num(n) => NumKey(n)
    case Str(s) => StrKey(s)
    case Arr(_) => StrKey(lib.repr(v))
    case Obj(_) => StrKey(lib.repr(v))
  }

  /** A number as Python compares it (`bool` is an `int`); None for anything else. */
  function Numeric(v: Json): Option<real> {
    match v
    case Num(n) => Some(n)
    case Bool(b) => Some(if b then 1.0 else 0.0)
    case _ => None
  }

  /** Python's `==` on JSON values: bools equal 0 and 1, dicts ignore order. */
  predicate PyEq(a: Json, b: Json)
    decreases a
  {
    if Numeric(a).Some? || Numeric(b).Some? then Numeric(a) == Numeric(b)
    else
      match (a, b)
      case (Arr(xs), Arr(ys)) => |xs| == |ys| && forall i | 0 <= i < |xs| :: PyEq(xs[i], ys[i])
      case (Obj(fs), Obj(gs)) =>
        && |fs| == |gs|
        && forall i | 0 <= i < |fs| ::
             var g := Lookup(gs, fs[i].key);
             g.Some? && PyEq(fs[i].value, g.value)
      case _ => a == b
  }

  /** Equality of JSON values: numbers by value, dicts without order, and no number is a bool. */
  predicate SameJson(a: Json, b: Json)
    decreases a
  {
    match (a, b)
    case (Arr(xs), Arr(ys)) => |xs| == |ys| && forall i | 0 <= i < |xs| :: SameJson(xs[i], ys[i])
    case (Obj(fs), Obj(gs)) =>
      && |fs| == |gs|
      && forall i | 0 <= i < |fs| ::
           var g := Lookup(gs, fs[i].key);
           g.Some? && SameJson(fs[i].value, g.value)
    case _ => a == b
  }

  lemma {:induction false} PyEqReflexive(a: Json)
    requires WellFormed(a)
    ensures PyEq(a, a)
  {
    match a
    case Arr(xs) =>
      forall i | 0 <= i < |xs| ensures PyEq(xs[i], xs[i]) {
        PyEqReflexive(xs[i]);
      }
    case Obj(fs) =>
      forall i | 0 <= i < |fs|
        ensures Lookup(fs, fs[i].key) == Some(fs[i].value) && PyEq(fs[i].value, fs[i].value)
      {
        LookupIsUnique(fs, fs[i]);
        PyEqReflexive(fs[i].value);
      }
    case _ =>
  }
}
