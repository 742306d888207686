/**
 JSON values as the schema differ sees them after `json.loads`: a dict is the sequence of its
 items in insertion order.  Numbers are compared by value only, so they are reals here.
 */
module Json {
  import opened Wrappers

  datatype Field = Field(key: string, value: Json)

  datatype Json =
    | Null
    | Bool(b: bool)
    | Num(n: real)
    | Str(s: string)
    | Arr(items: seq<Json>)
    | Obj(fields: seq<Field>)

  const EmptyObj := Obj([])

  /** `fields` as a Python dict lookup: the value stored under `key`, if any. */
  function Lookup(fields: seq<Field>, key: string): (r: Option<Json>)
    ensures r.Some? ==> Field(key, r.value) in fields
    ensures r.None? ==> forall f | f in fields :: f.key != key
  {
    if fields == [] then None
    else if fields[0].key == key then Some(fields[0].value)
    else Lookup(fields[1..], key)
  }

  predicate Has(fields: seq<Field>, key: string) {
    Lookup(fields, key).Some?
  }

  /** `d.get(key)`: Python's None for an absent key, and JSON null is the same None. */
  function Get(d: Json, key: string): Json
    requires d.Obj?
  {
    var r := Lookup(d.fields, key);
    if r.Some? then r.value else Null
  }

  predicate DistinctKeys(fields: seq<Field>) {
    forall i, j | 0 <= i < j < |fields| :: fields[i].key != fields[j].key
  }

  /** Every dict in the value has one entry per key, as every Python dict does. */
  predicate WellFormed(v: Json) {
    match v
    case Arr(items) => forall i | 0 <= i < |items| :: WellFormed(items[i])
    case Obj(fields) => DistinctKeys(fields) && forall i | 0 <= i < |fields| :: WellFormed(fields[i].value)
    case _ => true
  }

  /** Python truthiness, as used by `x or default`. */
  predicate Truthy(v: Json) {
    match v
    case Null => false
    case Bool(b) => b
    case Num(n) => n != 0.0
    case Str(s) => s != ""
    case Arr(items) => items != []
    case Obj(fields) => fields != []
  }

  /** Number of nodes of a value. */
  function Size(v: Json): (n: nat)
    ensures n >= 1
  {
    match v
    case Arr(items) => 1 + SizeItems(items)
    case Obj(fields) => 1 + SizeFields(fields)
    case _ => 1
  }

  function SizeItems(items: seq<Json>): nat {
    if items == [] then 0 else Size(items[0]) + SizeItems(items[1..])
  }

  function SizeFields(fields: seq<Field>): nat {
    if fields == [] then 0 else Size(fields[0].value) + SizeFields(fields[1..])
  }

  lemma {:induction false} FieldIsSmaller(fields: seq<Field>, f: Field)
    requires f in fields
    ensures Size(f.value) <= SizeFields(fields)
  {
    if f != fields[0] {
      FieldIsSmaller(fields[1..], f);
    }
  }

  /** Equal dicts agree on every lookup: the first match is the only one. */
  lemma {:induction false} LookupIsUnique(fields: seq<Field>, f: Field)
    requires DistinctKeys(fields) && f in fields
    ensures Lookup(fields, f.key) == Some(f.value)
  {
    if f != fields[0] {
      assert f in fields[1..];
      var i :| 0 < i < |fields| && fields[i] == f;
      assert fields[0].key != fields[i].key;
      LookupIsUnique(fields[1..], f);
    }
  }
}
